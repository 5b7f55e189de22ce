/**
 * The settings popup: it fills its form from the store, reads the form back
 * into a settings record on save, and asks the background worker for an
 * immediate test pause. The form is the five field values; the `Form`
 * record is their value view.
 */
module Popup {
  import opened Wrappers
  import opened Text
  import opened Storage
  import opened Protocol

  datatype Form = Form(
    enabled: bool,
    interval: string,
    duration: string,
    suggestions: string,
    showSuggestions: bool)

  /** `n || fallback` for a parsed number: the fallback for 0 and for a
      `None` parse (`NaN`, or a numeral outside the integer model), the
      number otherwise, negative ones included. */
  function NumberOr(n: Option<int>, fallback: int): (r: int)
    ensures n.None? || n == Some(0) ==> r == fallback
    ensures n.Some? && n.value != 0 ==> r == n.value
  {
    if n.Some? && n.value != 0 then n.value else fallback
  }

  /** One suggestion per line: every line trimmed, empty lines dropped. */
  function CleanLines(lines: seq<string>): (r: seq<string>)
    ensures |r| <= |lines|
    ensures forall k | 0 <= k < |r| :: |r[k]| > 0 && IsTrimmed(r[k])
  {
    if |lines| == 0 then []
    else
      var t := Trim(lines[|lines| - 1]);
      var init := CleanLines(lines[..|lines| - 1]);
      if |t| == 0 then init else init + [t]
  }

  /** Trimming removes characters and adds none. */
  lemma TrimSubset(s: string)
    ensures forall c | c in Trim(s) :: c in s
  {
    var t := TrimStart(s);
    assert forall c | c in TrimEnd(t) :: c in t;
    assert forall c | c in t :: c in s;
  }

  /** Cleaning adds no newline to lines that had none. */
  lemma {:induction false} CleanLinesNoNewline(lines: seq<string>)
    requires forall k | 0 <= k < |lines| :: '\n' !in lines[k]
    ensures forall k | 0 <= k < |CleanLines(lines)| :: '\n' !in CleanLines(lines)[k]
  {
    if |lines| > 0 {
      CleanLinesNoNewline(lines[..|lines| - 1]);
      TrimSubset(lines[|lines| - 1]);
    }
  }

  /** One clean line more at the end is kept. */
  lemma CleanLinesSnoc(init: seq<string>, last: string)
    requires |last| > 0 && IsTrimmed(last)
    ensures CleanLines(init + [last]) == CleanLines(init) + [last]
  {
    var lines := init + [last];
    assert lines[..|lines| - 1] == init;
    assert lines[|lines| - 1] == last;
    assert Trim(last) == last;
  }

  /** One line is cleaned to its trimmed text, or to nothing when it is blank. */
  lemma CleanLinesSingle(line: string)
    ensures CleanLines([line]) == if |Trim(line)| == 0 then [] else [Trim(line)]
  {
    assert [line][..0] == [];
  }

  /** A line more at the end contributes its own cleaning at the end. */
  lemma CleanLinesAppendOne(init: seq<string>, line: string)
    ensures CleanLines(init + [line]) == CleanLines(init) + CleanLines([line])
  {
    var lines := init + [line];
    assert lines[..|lines| - 1] == init;
    assert lines[|lines| - 1] == line;
    CleanLinesSingle(line);
  }

  /** Cleaning works line by line: the cleaning of two blocks of lines is the
      cleaning of the first followed by the cleaning of the second, so every
      entry comes from a line, in the lines' order. */
  lemma {:induction false} CleanLinesAppend(a: seq<string>, b: seq<string>)
    ensures CleanLines(a + b) == CleanLines(a) + CleanLines(b)
  {
    if |b| == 0 {
      assert a + b == a;
    } else {
      var init, line := b[..|b| - 1], b[|b| - 1];
      assert b == init + [line];
      assert a + b == (a + init) + [line];
      CleanLinesAppend(a, init);
      CleanLinesAppendOne(a + init, line);
      CleanLinesAppendOne(init, line);
      Regroup(CleanLines(a + b), CleanLines(a + init), CleanLines(a), CleanLines(init), CleanLines([line]));
    }
  }

  /** Sequence concatenation regrouped, kept apart from `CleanLines` so that it stays cheap. */
  lemma Regroup(x: seq<string>, y: seq<string>, p: seq<string>, q: seq<string>, z: seq<string>)
    requires x == y + z && y == p + q
    ensures x == p + (q + z)
  {
  }

  /** Every line that is not blank survives cleaning as its trimmed text. */
  lemma {:induction false} CleanLinesKeepsTrimmed(lines: seq<string>, k: nat)
    requires k < |lines| && |Trim(lines[k])| > 0
    ensures Trim(lines[k]) in CleanLines(lines)
  {
    var init := lines[..|lines| - 1];
    var t := Trim(lines[|lines| - 1]);
    var c := CleanLines(init);
    assert CleanLines(lines) == if |t| == 0 then c else c + [t];
    if k < |lines| - 1 {
      assert init[k] == lines[k];
      CleanLinesKeepsTrimmed(init, k);
      assert Trim(lines[k]) in c;
    }
  }

  /** Lines that are already non-empty and trimmed are kept as they are. */
  lemma {:induction false} CleanLinesKeepsClean(lines: seq<string>)
    requires forall k | 0 <= k < |lines| :: |lines[k]| > 0 && IsTrimmed(lines[k])
    ensures CleanLines(lines) == lines
  {
    if |lines| > 0 {
      var init, last := lines[..|lines| - 1], lines[|lines| - 1];
      assert lines == init + [last];
      assert forall k | 0 <= k < |init| :: init[k] == lines[k];
      CleanLinesKeepsClean(init);
      CleanLinesSnoc(init, last);
    }
  }

  /** The suggestions field parsed: split on newlines, trimmed, empties dropped. */
  function ParseSuggestions(text: string): (r: seq<string>)
    ensures forall k | 0 <= k < |r| :: |r[k]| > 0 && IsTrimmed(r[k]) && '\n' !in r[k]
  {
    CleanLinesNoNewline(Split(text, '\n'));
    CleanLines(Split(text, '\n'))
  }

  /** A suggestion that survives the form unchanged. */
  predicate IsCleanSuggestion(s: string) {
    |s| > 0 && IsTrimmed(s) && '\n' !in s
  }

  /** Round trip: a list of clean suggestions, shown one per line and parsed
      again, is the same list. */
  lemma ParseJoin(xs: seq<string>)
    requires forall k | 0 <= k < |xs| :: IsCleanSuggestion(xs[k])
    ensures ParseSuggestions(Join(xs, '\n')) == xs
  {
    if |xs| > 0 {
      SplitJoin(xs, '\n');
      CleanLinesKeepsClean(xs);
    }
  }

  /** `readUIToSettings`. Neither numeric setting is ever 0: a zero or
      unparsable field falls back to its default. */
  function ReadUIToSettings(f: Form): (s: Settings)
    ensures s.enabled == f.enabled && s.showSuggestions == f.showSuggestions
    ensures s.intervalMinutes != 0 && s.durationSeconds != 0
    ensures forall k | 0 <= k < |s.suggestions| :: IsCleanSuggestion(s.suggestions[k])
  {
    Settings(
      f.enabled,
      NumberOr(StringToNumber(f.interval), Defaults.intervalMinutes),
      NumberOr(StringToNumber(f.duration), Defaults.durationSeconds),
      ParseSuggestions(f.suggestions),
      f.showSuggestions)
  }

  /** The numeric fields: the parsed number whenever it is neither 0 nor a
      failed parse, negative numbers included; the default otherwise. */
  lemma ReadUINumbers(f: Form)
    ensures var n := StringToNumber(f.interval);
      ReadUIToSettings(f).intervalMinutes == if n.Some? && n.value != 0 then n.value else Defaults.intervalMinutes
    ensures var n := StringToNumber(f.duration);
      ReadUIToSettings(f).durationSeconds == if n.Some? && n.value != 0 then n.value else Defaults.durationSeconds
    ensures forall v: int | v != 0 :: f.interval == NumberToString(v) ==> ReadUIToSettings(f).intervalMinutes == v
  {
    forall v: int | v != 0
      ensures f.interval == NumberToString(v) ==> ReadUIToSettings(f).intervalMinutes == v
    {
      NumberRoundTrip(v);
    }
  }

  /** A blank numeric field falls back to the default. */
  lemma ReadUIBlank(f: Form)
    requires forall i | 0 <= i < |f.interval| :: IsSpace(f.interval[i])
    ensures ReadUIToSettings(f).intervalMinutes == Defaults.intervalMinutes
  {
    BlankIsZero(f.interval);
  }

  /** The duration the test button sends: the same fallback as the form's
      duration setting. */
  function TestDuration(f: Form): (d: int)
    ensures d != 0
    ensures StringToNumber(f.duration).Some? && StringToNumber(f.duration).value != 0 ==>
      d == StringToNumber(f.duration).value
    ensures StringToNumber(f.duration).None? ==> d == Defaults.durationSeconds
  {
    NumberOr(StringToNumber(f.duration), Defaults.durationSeconds)
  }

  /** The test button's duration is the duration a save would store. */
  lemma TestDurationAsSaved(f: Form)
    ensures TestDuration(f) == ReadUIToSettings(f).durationSeconds
  {
  }

  /** `loadSettingsToUI`: numbers written as decimals, suggestions one per
      line (an absent list shows as empty text), and an absent
      `showSuggestions` shows as checked. */
  function LoadedForm(enabled: bool, intervalMinutes: int, durationSeconds: int,
                      suggestions: Option<seq<string>>, showSuggestions: Option<bool>): (f: Form)
    ensures suggestions.None? ==> |f.suggestions| == 0
    ensures showSuggestions.None? ==> f.showSuggestions
  {
    Form(enabled, NumberToString(intervalMinutes), NumberToString(durationSeconds),
         Join(suggestions.GetOr([]), '\n'), showSuggestions.GetOr(true))
  }

  /** The form the popup shows for stored settings `s`. */
  function FormFor(s: Settings): Form {
    LoadedForm(s.enabled, s.intervalMinutes, s.durationSeconds, Some(s.suggestions), Some(s.showSuggestions))
  }

  /** Round trip: opening the popup and saving without edits writes back the
      same settings, as long as no number is 0 and every suggestion is clean. */
  lemma SaveAfterLoad(s: Settings)
    requires s.intervalMinutes != 0 && s.durationSeconds != 0
    requires forall k | 0 <= k < |s.suggestions| :: IsCleanSuggestion(s.suggestions[k])
    ensures ReadUIToSettings(FormFor(s)) == s
  {
    NumberRoundTrip(s.intervalMinutes);
    NumberRoundTrip(s.durationSeconds);
    ParseJoin(s.suggestions);
  }

  /** A zero number read back from the form becomes its default. */
  lemma SaveAfterLoadZero(s: Settings)
    requires s.intervalMinutes == 0
    ensures ReadUIToSettings(FormFor(s)).intervalMinutes == Defaults.intervalMinutes
  {
    NumberRoundTrip(0);
  }

  class Popup {
    const sync: SyncArea
    /** The form's field values. */
    var form: Form
    /** Whether the save button reads "Saved ✓" rather than "Save". */
    var showsSaved: bool
    /** Messages sent to the background worker, in order. */
    var outbox: seq<Msg>
    var closed: bool

    constructor (sync: SyncArea, initial: Form)
      ensures this.sync == sync && form == initial
      ensures !showsSaved && outbox == [] && !closed
    {
      this.sync := sync;
      form := initial;
      showsSaved := false;
      outbox := [];
      closed := false;
    }

    method LoadSettingsToUI(enabled: bool, intervalMinutes: int, durationSeconds: int,
                            suggestions: Option<seq<string>>, showSuggestions: Option<bool>)
      modifies this`form
      ensures form == LoadedForm(enabled, intervalMinutes, durationSeconds, suggestions, showSuggestions)
    {
      form := form.(enabled := enabled);
      form := form.(interval := NumberToString(intervalMinutes));
      form := form.(duration := NumberToString(durationSeconds));
      form := form.(suggestions := Join(suggestions.GetOr([]), '\n'));
      form := form.(showSuggestions := showSuggestions.GetOr(true));
    }

    /** The `DOMContentLoaded` handler: read the store with defaults, merge
        with the defaults once more, and show the result. */
    method OnLoad()
      modifies this`form
      ensures form == FormFor(Get(sync.items))
    {
      var items := ItemsOf(Get(sync.items));
      var settings := Merge(Defaults, items);
      MergeOfGet(sync.items);
      LoadSettingsToUI(settings.enabled, settings.intervalMinutes, settings.durationSeconds,
                       Some(settings.suggestions), Some(settings.showSuggestions));
    }

    /** The save button: store the form's settings, tell the background
        worker, and show the confirmation label. */
    method OnSave()
      modifies sync, this`outbox, this`showsSaved
      ensures form == old(form)
      ensures sync.items == Write(old(sync.items), ItemsOf(ReadUIToSettings(old(form))))
      ensures outbox == old(outbox) + [UpdateSettings(Some(ItemsOf(ReadUIToSettings(old(form)))))]
      ensures showsSaved
    {
      var patch := ItemsOf(ReadUIToSettings(form));
      sync.Set(patch);
      outbox := outbox + [UpdateSettings(Some(patch))];
      showsSaved := true;
    }

    /** The test button: ask for an immediate pause with the form's duration,
        then close the popup. */
    method OnTest()
      modifies this`outbox, this`closed
      ensures outbox == old(outbox) + [TriggerNow(Given(TestDuration(old(form))))]
      ensures closed
    {
      var duration := TestDuration(form);
      outbox := outbox + [TriggerNow(Given(duration))];
      closed := true;
    }
  }
}
