/**
 * The overlay controller that runs inside each page. The document holds at
 * most one overlay element (the one with id `pause-reminder-overlay-v1`),
 * modelled as an optional value; each element created gets a fresh node
 * number, so that a removal scheduled for one element cannot remove a later
 * one. Pending `setTimeout` callbacks are kept in a list with their delays;
 * which one runs next is the caller's choice.
 */
module Content {
  import opened Wrappers
  import opened Protocol

  const FallbackSuggestion := "Take a breath and stretch."
  const TitleText := "Take a short pause"
  /** The button row: snooze first, then dismiss. */
  const Buttons := ["Snooze 5m", "Dismiss"]
  /** Delay before a hidden overlay's node is detached, matching its CSS transition. */
  const DetachDelay := 320
  /** The duration the snooze button asks for. */
  const SnoozeSeconds := 5

  /** A child of the overlay's card. */
  datatype Part = Title(text: string) | SuggestionText(text: string) | ButtonRow(labels: seq<string>)

  datatype Overlay = Overlay(node: nat, card: seq<Part>, visible: bool)

  /** A pending timer callback: the automatic dismissal (which removes
      whatever overlay is shown when it runs), or the detachment of one
      particular node. */
  datatype Timer = AutoRemove(delay: int) | Detach(node: nat, delay: int)

  /** The suggestion list the overlay receives: an absent list defaults to the
      empty array; `null` is not an array (`None`). */
  function SuggestionList(a: Arg<seq<string>>): (list: Option<seq<string>>)
    ensures list.None? <==> a.Null?
    ensures a.Undefined? ==> list == Some([])
    ensures a.Given? ==> list == Some(a.value)
  {
    match a
    case Undefined => Some([])
    case Null => None
    case Given(s) => Some(s)
  }

  /** `pick` stands for `Math.floor(Math.random() * length)`: an index into a
      non-empty list. */
  predicate ValidPick(list: Option<seq<string>>, pick: nat) {
    list.Some? && |list.value| > 0 ==> pick < |list.value|
  }

  /** `selectSuggestion`: the fixed fallback for a missing or empty list,
      otherwise the picked element of the list. */
  function SelectSuggestion(list: Option<seq<string>>, pick: nat): (r: string)
    requires ValidPick(list, pick)
    ensures list.None? || list.value == [] ==> r == FallbackSuggestion
    ensures list.Some? && list.value != [] ==> r in list.value && r == list.value[pick]
    ensures list.Some? && list.value != [] && FallbackSuggestion !in list.value ==> r != FallbackSuggestion
  {
    if list.None? || |list.value| == 0 then FallbackSuggestion
    else list.value[pick]
  }

  /** Whether the suggestion is shown: an absent flag defaults to `true`, `null` is falsy. */
  function ShowsSuggestion(a: Arg<bool>): (show: bool)
    ensures show <==> a.Undefined? || a == Given(true)
  {
    match a
    case Undefined => true
    case Null => false
    case Given(b) => b
  }

  /** The automatic-dismiss delay in milliseconds: `durationSeconds` seconds
      (10 when absent, 0 for `null`), but never less than one second. */
  function DismissDelay(durationSeconds: Arg<int>): (ms: int)
    ensures ms >= 1000
    ensures durationSeconds == Undefined ==> ms == 10000
    ensures durationSeconds == Null ==> ms == 1000
    ensures durationSeconds.Given? && durationSeconds.value >= 1 ==> ms == durationSeconds.value * 1000
    ensures durationSeconds.Given? && durationSeconds.value < 1 ==> ms == 1000
  {
    var seconds := match durationSeconds
      case Undefined => 10
      case Null => 0
      case Given(n) => n;
    if seconds * 1000 > 1000 then seconds * 1000 else 1000
  }

  /** The card's children: the title first and the button row last, always;
      the suggestion between them exactly when it is to be shown. */
  function Card(suggestion: string, show: bool): (c: seq<Part>)
    ensures |c| == if show then 3 else 2
    ensures c[0] == Title(TitleText) && c[|c| - 1] == ButtonRow(Buttons)
    ensures SuggestionText(suggestion) in c <==> show
    ensures forall k | 0 <= k < |c| :: c[k].SuggestionText? ==> show && c[k].text == suggestion
  {
    [Title(TitleText)] + (if show then [SuggestionText(suggestion)] else []) + [ButtonRow(Buttons)]
  }

  class Page {
    var overlay: Option<Overlay>
    var nextNode: nat
    var timers: seq<Timer>
    /** Messages sent to the background worker, in order. */
    var outbox: seq<Msg>

    /** Every node number in use was handed out already. */
    ghost predicate Valid()
      reads this
    {
      && (overlay.Some? ==> overlay.value.node < nextNode)
      && forall k | 0 <= k < |timers| :: timers[k].Detach? ==> timers[k].node < nextNode
    }

    constructor ()
      ensures Valid() && overlay == None && timers == [] && outbox == []
    {
      overlay := None;
      nextNode := 0;
      timers := [];
      outbox := [];
    }

    /** `createOverlay`: nothing when an overlay is already shown (so there is
        never more than one); otherwise attach a new visible overlay with the
        card for these options and schedule its automatic dismissal. */
    method CreateOverlay(durationSeconds: Arg<int>, suggestions: Arg<seq<string>>,
                         showSuggestions: Arg<bool>, pick: nat)
      requires Valid() && ValidPick(SuggestionList(suggestions), pick)
      modifies this
      ensures Valid() && outbox == old(outbox)
      ensures old(overlay).Some? ==> overlay == old(overlay) && timers == old(timers) && nextNode == old(nextNode)
      ensures old(overlay).None? ==>
        && overlay == Some(Overlay(old(nextNode),
                                   Card(SelectSuggestion(SuggestionList(suggestions), pick),
                                        ShowsSuggestion(showSuggestions)),
                                   true))
        && nextNode == old(nextNode) + 1
        && timers == old(timers) + [AutoRemove(DismissDelay(durationSeconds))]
    {
      if overlay.Some? {
        return;
      }
      var text := SelectSuggestion(SuggestionList(suggestions), pick);
      var card := Card(text, ShowsSuggestion(showSuggestions));
      overlay := Some(Overlay(nextNode, card, true));
      nextNode := nextNode + 1;
      timers := timers + [AutoRemove(DismissDelay(durationSeconds))];
    }

    /** `removeOverlay`: nothing when no overlay is shown; otherwise hide it
        and schedule the removal of that node. */
    method RemoveOverlay()
      requires Valid()
      modifies this`overlay, this`timers
      ensures Valid()
      ensures old(overlay).None? ==> overlay == None && timers == old(timers)
      ensures old(overlay).Some? ==>
        && overlay == Some(old(overlay).value.(visible := false))
        && timers == old(timers) + [Detach(old(overlay).value.node, DetachDelay)]
    {
      if overlay.None? {
        return;
      }
      var el := overlay.value;
      overlay := Some(el.(visible := false));
      timers := timers + [Detach(el.node, DetachDelay)];
    }

    /** The message listener: only `trigger-pause` creates an overlay, with the
        options the message carries. */
    method OnMessage(msg: Msg, pick: nat)
      requires Valid()
      requires msg.TriggerPause? ==> ValidPick(SuggestionList(msg.suggestions), pick)
      modifies this
      ensures Valid() && outbox == old(outbox)
      ensures !msg.TriggerPause? ==> overlay == old(overlay) && timers == old(timers) && nextNode == old(nextNode)
      ensures msg.TriggerPause? && old(overlay).None? ==>
        && overlay == Some(Overlay(old(nextNode),
                                   Card(SelectSuggestion(SuggestionList(msg.suggestions), pick),
                                        ShowsSuggestion(msg.showSuggestions)),
                                   true))
        && nextNode == old(nextNode) + 1
        && timers == old(timers) + [AutoRemove(DismissDelay(msg.durationSeconds))]
      ensures msg.TriggerPause? && old(overlay).Some? ==>
        overlay == old(overlay) && timers == old(timers) && nextNode == old(nextNode)
    {
      if msg.TriggerPause? {
        CreateOverlay(msg.durationSeconds, msg.suggestions, msg.showSuggestions, pick);
      }
    }

    /** The snooze button: remove the overlay, then send `update-settings`
        without settings and `trigger-now` with a 5-second duration. */
    method OnSnooze()
      requires Valid()
      modifies this`overlay, this`timers, this`outbox
      ensures Valid()
      ensures old(overlay).None? ==> overlay == None && timers == old(timers)
      ensures old(overlay).Some? ==>
        && overlay == Some(old(overlay).value.(visible := false))
        && timers == old(timers) + [Detach(old(overlay).value.node, DetachDelay)]
      ensures outbox == old(outbox) + [UpdateSettings(None), TriggerNow(Given(SnoozeSeconds))]
    {
      RemoveOverlay();
      outbox := outbox + [UpdateSettings(None)];
      outbox := outbox + [TriggerNow(Given(SnoozeSeconds))];
    }

    /** Run the pending timer at index `k`. The automatic dismissal removes
        whatever overlay is shown now; a detachment removes its own node only
        if that node is still the one attached. */
    method FireTimer(k: nat)
      requires Valid() && k < |timers|
      modifies this`overlay, this`timers
      ensures Valid()
      ensures old(timers[k]).Detach? ==>
        && timers == old(timers[..k] + timers[k + 1..])
        && overlay == if old(overlay).Some? && old(overlay).value.node == old(timers[k]).node
                      then None else old(overlay)
      ensures old(timers[k]).AutoRemove? ==>
        && (old(overlay).None? ==> overlay == None && timers == old(timers[..k] + timers[k + 1..]))
        && (old(overlay).Some? ==>
              && overlay == Some(old(overlay).value.(visible := false))
              && timers == old(timers[..k] + timers[k + 1..]) + [Detach(old(overlay).value.node, DetachDelay)])
    {
      var t := timers[k];
      timers := timers[..k] + timers[k + 1..];
      assert forall j | 0 <= j < |timers| :: timers[j] in old(timers);
      match t {
        case AutoRemove(_) =>
          RemoveOverlay();
        case Detach(node, _) =>
          if overlay.Some? && overlay.value.node == node {
            overlay := None;
          }
      }
    }
  }
}
