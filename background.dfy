/**
 * The background worker: it keeps one periodic alarm in step with the stored
 * settings, and when the alarm fires (or the popup or overlay asks for an
 * immediate pause) it sends a `trigger-pause` message to every open tab,
 * injecting the overlay's stylesheet and script into a tab that did not
 * answer and trying that tab once more.
 *
 * The browser is abstracted: the store is a `SyncArea`, the alarm set a map
 * from alarm name to period in minutes, and the calls the worker makes into
 * `chrome.tabs` and `chrome.scripting` are recorded in order, each with the
 * outcome the browser reported (an input of the model).
 */
module Background {
  import opened Wrappers
  import opened Storage
  import opened Protocol

  const AlarmName := "pause-reminder"
  const OverlayCss := "overlay.css"
  const ContentScript := "content.js"

  /** A browser tab as `chrome.tabs.query` reports it; either field may be missing. */
  datatype Tab = Tab(id: Option<int>, url: Option<string>)

  /** What the browser reports for each call the worker may make on one tab:
      `true` means the call completed without `chrome.runtime.lastError` (for
      a send) or without throwing (for an injection). A send is answered only
      by a listener that responds, so a present content script that never
      calls `sendResponse` still yields `firstSend == false`. */
  datatype Outcomes = Outcomes(firstSend: bool, insertCss: bool, executeScript: bool, secondSend: bool)

  /** A tab together with the outcomes of the calls made on it. */
  datatype Target = Target(tab: Tab, outcomes: Outcomes)

  /** A call into the browser on one tab, with its outcome. */
  datatype Call =
    | SendMessage(tabId: int, payload: Msg, ok: bool)
    | InsertCss(tabId: int, file: string, ok: bool)
    | ExecuteScript(tabId: int, file: string, ok: bool)

  /** What `triggerTab` did to one tab: how many messages it sent and whether
      it fell back to injecting the overlay's files. */
  datatype Delivery = Delivery(sends: nat, injected: bool)

  predicate StartsWith(s: string, prefix: string) {
    |prefix| <= |s| && s[..|prefix|] == prefix
  }

  /** Browser-internal pages, which the worker never tries. */
  predicate IsInternalUrl(url: string) {
    || StartsWith(url, "chrome://")
    || StartsWith(url, "chrome-extension://")
    || StartsWith(url, "edge://")
    || StartsWith(url, "about:")
  }

  /** An `http` or `https` page is none of the internal pages. */
  lemma WebPageIsNotInternal(url: string)
    ensures StartsWith(url, "http") ==> !IsInternalUrl(url)
  {
    if StartsWith(url, "http") {
      assert url[0] == 'h';
    }
  }

  /** A tab is tried when its id and url are both truthy (present, and not 0
      or the empty string) and the url is not an internal page. */
  predicate Eligible(tab: Tab): (b: bool)
    ensures b ==> tab.id.Some? && tab.id.value != 0 && tab.url.Some? && |tab.url.value| > 0
    ensures tab.url.Some? && IsInternalUrl(tab.url.value) ==> !b
    ensures tab.id.Some? && tab.id.value != 0 && tab.url.Some? && StartsWith(tab.url.value, "http") ==> b
  {
    WebPageIsNotInternal(tab.url.GetOr(""));
    && tab.id.Some? && tab.id.value != 0
    && tab.url.Some? && |tab.url.value| > 0
    && !IsInternalUrl(tab.url.value)
  }

  function SendCount(cs: seq<Call>): (n: nat)
    ensures n <= |cs|
  {
    if |cs| == 0 then 0
    else (if cs[0].SendMessage? then 1 else 0) + SendCount(cs[1..])
  }

  lemma {:induction false} SendCountAppend(a: seq<Call>, b: seq<Call>)
    ensures SendCount(a + b) == SendCount(a) + SendCount(b)
  {
    if |a| > 0 {
      assert (a + b)[0] == a[0];
      assert (a + b)[1..] == a[1..] + b;
      SendCountAppend(a[1..], b);
    } else {
      assert a + b == b;
    }
  }

  /** Some call injects a file into the tab. */
  predicate Injected(cs: seq<Call>) {
    exists k | 0 <= k < |cs| :: !cs[k].SendMessage?
  }

  /**
   * The calls `triggerTab` makes on one tab. Nothing for a tab that is not
   * eligible; otherwise a first send, and only when that send fails, the
   * stylesheet injection, the script injection (attempted whatever the
   * stylesheet's outcome) and one second send.
   */
  function TabCalls(tab: Tab, o: Outcomes, payload: Msg): (cs: seq<Call>)
    ensures |cs| == if !Eligible(tab) then 0 else if o.firstSend then 1 else 4
  {
    if !Eligible(tab) then []
    else
      var id := tab.id.value;
      if o.firstSend then [SendMessage(id, payload, true)]
      else [SendMessage(id, payload, false),
            InsertCss(id, OverlayCss, o.insertCss),
            ExecuteScript(id, ContentScript, o.executeScript),
            SendMessage(id, payload, o.secondSend)]
  }

  /** The shape of one tab's calls: every call is on that tab, every send
      carries the payload, there are at most two sends, and a second send
      happens exactly when the first failed, after the script injection. */
  lemma TabCallsShape(tab: Tab, o: Outcomes, payload: Msg)
    ensures var cs := TabCalls(tab, o, payload);
      && (!Eligible(tab) ==> cs == [])
      && (Eligible(tab) ==> |cs| >= 1 && cs[0] == SendMessage(tab.id.value, payload, o.firstSend))
      && SendCount(cs) <= 2
      && (SendCount(cs) == 2 <==> Injected(cs))
      && (forall k | 0 <= k < |cs| :: tab.id == Some(cs[k].tabId))
      && (forall k | 0 <= k < |cs| :: cs[k].SendMessage? ==> cs[k].payload == payload)
      && (|cs| > 1 ==> !cs[0].ok)
      && (forall k | 1 <= k < |cs| && cs[k].SendMessage? :: exists j | 0 < j < k :: cs[j].ExecuteScript?)
      && (Injected(cs) <==> Eligible(tab) && !o.firstSend)
      && (Injected(cs) ==> InsertCss(tab.id.value, OverlayCss, o.insertCss) in cs)
      && (Injected(cs) ==> ExecuteScript(tab.id.value, ContentScript, o.executeScript) in cs)
      && (|cs| > 0 ==> cs[|cs| - 1].SendMessage?)
  {
    var cs := TabCalls(tab, o, payload);
    if Eligible(tab) {
      if o.firstSend {
        assert cs[1..] == [];
      } else {
        assert cs[2].ExecuteScript?;
        assert SendCount(cs) == 2 by {
          assert cs[3..][1..] == [];
          assert SendCount(cs[3..]) == 1;
          assert cs[2..][1..] == cs[3..];
          assert SendCount(cs[2..]) == 1;
          assert cs[1..][1..] == cs[2..];
          assert SendCount(cs[1..]) == 1;
        }
      }
    }
  }

  function DeliveryOf(cs: seq<Call>): Delivery {
    Delivery(SendCount(cs), Injected(cs))
  }

  /** Retry bound: no sends to an ineligible tab, one when the first send is
      answered, and otherwise exactly two with the injection between them,
      never more. */
  lemma TabDelivery(tab: Tab, o: Outcomes, payload: Msg)
    ensures DeliveryOf(TabCalls(tab, o, payload)) ==
      if !Eligible(tab) then Delivery(0, false)
      else if o.firstSend then Delivery(1, false)
      else Delivery(2, true)
  {
    var cs := TabCalls(tab, o, payload);
    TabCallsShape(tab, o, payload);
    if Eligible(tab) && !o.firstSend {
      assert cs[1].InsertCss?;
    } else if Eligible(tab) {
      assert cs[0] == SendMessage(tab.id.value, payload, true);
      assert cs[1..] == [];
    }
  }

  /** The calls of the `for` loop over the queried tabs: each tab's calls,
      in the order the tabs were returned. */
  function Broadcast(ts: seq<Target>, payload: Msg): (cs: seq<Call>)
    ensures |cs| <= 4 * |ts|
    ensures (forall k | 0 <= k < |ts| :: !Eligible(ts[k].tab)) ==> cs == []
  {
    if |ts| == 0 then []
    else Broadcast(ts[..|ts| - 1], payload) + TabCalls(ts[|ts| - 1].tab, ts[|ts| - 1].outcomes, payload)
  }

  /** One more tab of the loop adds that tab's calls at the end. */
  lemma BroadcastStep(ts: seq<Target>, payload: Msg, i: nat)
    requires i < |ts|
    ensures Broadcast(ts[..i + 1], payload) == Broadcast(ts[..i], payload) + TabCalls(ts[i].tab, ts[i].outcomes, payload)
  {
    assert ts[..i + 1][..i] == ts[..i];
  }

  lemma AppendAssoc(a: seq<Call>, b: seq<Call>, c: seq<Call>)
    ensures a + b + c == a + (b + c)
  {
  }

  /** At most two sends per tab, over the whole loop. */
  lemma {:induction false} BroadcastSendBound(ts: seq<Target>, payload: Msg)
    ensures SendCount(Broadcast(ts, payload)) <= 2 * |ts|
  {
    if |ts| > 0 {
      var last := ts[|ts| - 1];
      BroadcastSendBound(ts[..|ts| - 1], payload);
      TabCallsShape(last.tab, last.outcomes, payload);
      SendCountAppend(Broadcast(ts[..|ts| - 1], payload), TabCalls(last.tab, last.outcomes, payload));
    }
  }

  /** Every message the loop sends is the one payload. */
  lemma {:induction false} BroadcastPayload(ts: seq<Target>, payload: Msg)
    ensures forall c | c in Broadcast(ts, payload) && c.SendMessage? :: c.payload == payload
  {
    if |ts| > 0 {
      BroadcastPayload(ts[..|ts| - 1], payload);
    }
  }

  /** Every eligible tab receives a first send of the payload. */
  lemma {:induction false} BroadcastReaches(ts: seq<Target>, payload: Msg, i: nat)
    requires i < |ts| && Eligible(ts[i].tab)
    ensures SendMessage(ts[i].tab.id.value, payload, ts[i].outcomes.firstSend) in Broadcast(ts, payload)
  {
    var init := ts[..|ts| - 1];
    if i < |ts| - 1 {
      assert ts[i] == init[i];
      BroadcastReaches(init, payload, i);
    } else {
      var b := TabCalls(ts[i].tab, ts[i].outcomes, payload);
      assert b[0] in b;
    }
  }

  /** Only eligible tabs are touched: every call is on the id of an eligible tab. */
  lemma {:induction false} BroadcastOnlyEligible(ts: seq<Target>, payload: Msg, c: Call)
    requires c in Broadcast(ts, payload)
    ensures exists i | 0 <= i < |ts| :: Eligible(ts[i].tab) && ts[i].tab.id == Some(c.tabId)
  {
    var init := ts[..|ts| - 1];
    var last := ts[|ts| - 1];
    var b := TabCalls(last.tab, last.outcomes, payload);
    if c in Broadcast(init, payload) {
      BroadcastOnlyEligible(init, payload, c);
      var i :| 0 <= i < |init| && Eligible(init[i].tab) && init[i].tab.id == Some(c.tabId);
      assert ts[i] == init[i];
    } else {
      assert c in b;
      assert Eligible(last.tab);
    }
  }

  /** The alarm set `scheduleAlarm` leaves: when enabled, exactly one alarm,
      named `pause-reminder`, repeating every `intervalMinutes`; when
      disabled, none. */
  function ScheduledAlarms(s: Settings): (m: map<string, int>)
    ensures m.Keys == if s.enabled then {AlarmName} else {}
    ensures forall n | n in m :: m[n] == s.intervalMinutes
  {
    if s.enabled then map[AlarmName := s.intervalMinutes] else map[]
  }

  /** Every alarm the worker has scheduled passes the alarm handler's guard
      while the settings stay as they were. */
  lemma ScheduledAlarmFires(s: Settings, name: string)
    requires name in ScheduledAlarms(s)
    ensures name == AlarmName && s.enabled
  {
  }

  /** The payload the alarm handler sends, built from the stored settings. */
  function AlarmPayload(s: Settings): (m: Msg)
    ensures m.TriggerPause?
    ensures m.durationSeconds == Given(s.durationSeconds)
    ensures m.suggestions == Given(s.suggestions) && m.showSuggestions == Given(s.showSuggestions)
  {
    TriggerPause(Given(s.durationSeconds), Given(s.suggestions), Given(s.showSuggestions))
  }

  /** The payload for `trigger-now`: the message's duration whenever it is
      neither `null` nor `undefined` (0 included), else the stored one; so a
      request without a duration sends what the alarm would. */
  function TriggerNowPayload(d: Arg<int>, s: Settings): (m: Msg)
    ensures m.TriggerPause?
    ensures d.Given? ==> m.durationSeconds == d
    ensures !d.Given? ==> m == AlarmPayload(s)
    ensures m.suggestions == Given(s.suggestions) && m.showSuggestions == Given(s.showSuggestions)
  {
    TriggerPause(Given(Coalesce(d, s.durationSeconds)), Given(s.suggestions), Given(s.showSuggestions))
  }

  /** The store after the install handler: the defaults only when it held no
      key at all; stored settings are never overwritten. */
  function Seeded(items: Items): (r: Items)
    ensures !IsEmpty(items) ==> r == items
    ensures IsEmpty(items) ==> r == ItemsOf(Defaults)
    ensures !IsEmpty(r)
  {
    if IsEmpty(items) then Write(items, ItemsOf(Defaults)) else items
  }

  /** Seeding never changes what a settings read returns. */
  lemma SeedingPreservesSettings(items: Items)
    ensures Get(Seeded(items)) == Get(items)
  {
  }

  class Worker {
    const sync: SyncArea
    var alarms: map<string, int>
    var calls: seq<Call>

    constructor (sync: SyncArea)
      ensures this.sync == sync && alarms == map[] && calls == []
    {
      this.sync := sync;
      alarms := map[];
      calls := [];
    }

    /** `scheduleAlarm`: clear every alarm, then arm the periodic one if
        enabled. Earlier alarms never survive. */
    method ScheduleAlarm()
      modifies this`alarms
      ensures alarms == ScheduledAlarms(Get(sync.items))
    {
      var settings := Get(sync.items);
      alarms := map[];
      if settings.enabled {
        alarms := alarms[AlarmName := settings.intervalMinutes];
      }
    }

    /** The `onInstalled` handler: seed the defaults into an empty store, then
        schedule. */
    method OnInstalled()
      modifies sync, this`alarms
      ensures sync.items == Seeded(old(sync.items))
      ensures alarms == ScheduledAlarms(Get(sync.items))
      ensures calls == old(calls)
    {
      if IsEmpty(sync.items) {
        sync.Set(ItemsOf(Defaults));
      }
      ScheduleAlarm();
    }

    /** `ensureInjected`: insert the stylesheet, then execute the script even
        when the stylesheet failed; neither failure reaches the caller. */
    method EnsureInjected(tabId: int, cssOk: bool, scriptOk: bool)
      modifies this`calls
      ensures calls == old(calls) + [InsertCss(tabId, OverlayCss, cssOk), ExecuteScript(tabId, ContentScript, scriptOk)]
    {
      calls := calls + [InsertCss(tabId, OverlayCss, cssOk)];
      calls := calls + [ExecuteScript(tabId, ContentScript, scriptOk)];
    }

    /** `triggerTab`: send, and only when the send reports an error, inject
        and send a second time. */
    method TriggerTab(tab: Tab, o: Outcomes, payload: Msg) returns (d: Delivery)
      modifies this`calls
      ensures calls == old(calls) + TabCalls(tab, o, payload)
      ensures d == DeliveryOf(TabCalls(tab, o, payload))
    {
      TabDelivery(tab, o, payload);
      if !(tab.id.Some? && tab.id.value != 0 && tab.url.Some? && |tab.url.value| > 0) {
        return Delivery(0, false);
      }
      if IsInternalUrl(tab.url.value) {
        return Delivery(0, false);
      }
      var id := tab.id.value;
      calls := calls + [SendMessage(id, payload, o.firstSend)];
      if !o.firstSend {
        EnsureInjected(id, o.insertCss, o.executeScript);
        calls := calls + [SendMessage(id, payload, o.secondSend)];
        d := Delivery(2, true);
      } else {
        d := Delivery(1, false);
      }
    }

    /** The `for` loop over the tabs `chrome.tabs.query({})` returned. */
    method TriggerAll(targets: seq<Target>, payload: Msg)
      modifies this`calls
      ensures calls == old(calls) + Broadcast(targets, payload)
    {
      ghost var start := calls;
      var i := 0;
      while i < |targets|
        invariant 0 <= i <= |targets|
        invariant calls == start + Broadcast(targets[..i], payload)
      {
        var _ := TriggerTab(targets[i].tab, targets[i].outcomes, payload);
        BroadcastStep(targets, payload, i);
        AppendAssoc(start, Broadcast(targets[..i], payload), TabCalls(targets[i].tab, targets[i].outcomes, payload));
        i := i + 1;
      }
      assert targets[..i] == targets;
    }

    /** The `onAlarm` handler: only the `pause-reminder` alarm, and only while
        enabled, triggers every tab with the stored settings. */
    method OnAlarm(alarm: Option<string>, targets: seq<Target>)
      modifies this`calls
      ensures calls == old(calls) +
        if alarm == Some(AlarmName) && Get(sync.items).enabled
        then Broadcast(targets, AlarmPayload(Get(sync.items)))
        else []
    {
      if alarm.Some? && alarm.value == AlarmName {
        var settings := Get(sync.items);
        if !settings.enabled {
          return;
        }
        TriggerAll(targets, AlarmPayload(settings));
      }
    }

    /**
     * The `onMessage` handler. `update-settings` writes the settings it
     * carries and reschedules; `trigger-now` triggers every tab; both answer
     * `{ok: true}` (`acked`). A request without a settings object makes the
     * store's `set` throw, so nothing changes and nothing answers; any other
     * action is ignored without an answer.
     */
    method OnMessage(msg: Msg, targets: seq<Target>) returns (acked: bool)
      modifies sync, this`alarms, this`calls
      ensures acked <==> (msg.UpdateSettings? && msg.settings.Some?) || msg.TriggerNow?
      ensures msg.UpdateSettings? && msg.settings.Some? ==>
        && sync.items == Write(old(sync.items), msg.settings.value)
        && alarms == ScheduledAlarms(Get(sync.items))
        && calls == old(calls)
      ensures msg.TriggerNow? ==>
        && sync.items == old(sync.items) && alarms == old(alarms)
        && calls == old(calls) + Broadcast(targets, TriggerNowPayload(msg.durationSeconds, Get(sync.items)))
      ensures !acked ==> sync.items == old(sync.items) && alarms == old(alarms) && calls == old(calls)
    {
      match msg {
        case UpdateSettings(patch) =>
          if patch.None? {
            return false;
          }
          sync.Set(patch.value);
          ScheduleAlarm();
          acked := true;
        case TriggerNow(d) =>
          var settings := Get(sync.items);
          TriggerAll(targets, TriggerNowPayload(d, settings));
          acked := true;
        case _ =>
          acked := false;
      }
    }
  }
}
