# Pause reminder — a verified model

The pause reminder is a browser extension that interrupts the user every
`intervalMinutes` minutes with a blurred overlay on every open tab. The
overlay shows a title, optionally one randomly picked suggestion, and two
buttons: "Snooze 5m" and "Dismiss". It removes itself after
`durationSeconds` seconds. It has three parts:

- **background worker** (`background.js`): it keeps one periodic alarm,
  `pause-reminder`, in step with the stored settings, and seeds the defaults
  on install. When the alarm fires, or when the popup or the overlay asks
  (`trigger-now`), it sends a `trigger-pause` message to every tab. When a
  tab does not answer, the worker injects the overlay's stylesheet and
  script and sends once more.
- **overlay controller** (`content.js`): it creates at most one overlay per
  page, picks the suggestion, clamps the dismissal delay to at least one
  second, and handles the snooze button.
- **popup** (`popup.js`): it shows the settings in a form and reads the form
  back. Numbers fall back to their defaults on 0 or a failed parse, and
  suggestions are one per line, trimmed, with blank lines dropped. It
  saves to the synced store and asks for a test pause.

The model, module by module:

- `Wrappers`: `Option`.
- `Text`: the JavaScript string and number behaviour the extension relies
  on:
  - `trim`, with the ECMAScript white-space set;
  - `split` and `join` on one separator;
  - `Number(string)` and `String(number)`, restricted to integers.
- `Storage`: the settings record, the defaults, and the synced store. The
  store holds a subset of the five settings keys. Reading merges it with the
  defaults. A write overrides the keys it carries.
- `Protocol`: the messages. `Arg` keeps JavaScript's three-way distinction
  between an absent field, `null`, and a value.
- `Background`: the worker as a class. Its alarm set is a map from name to
  period. Its calls into the browser are a log of `Call`s, each carrying
  the outcome the browser reported.
- `Content`: the page as a class. The document holds `Option<Overlay>`.
  Pending timers are a list with their delays.
- `Popup`: the popup as a class over its form.

The browser is abstracted throughout:
- Every outcome the browser decides is a parameter of the operation that
  observes it: whether a send reported `chrome.runtime.lastError`, whether
  an injection threw, and the result of `chrome.tabs.query`.
- `Math.random` is replaced by a caller-supplied index.
- Which timer runs next is the caller's choice (`Content.Page.FireTimer`).

The worker filters tabs by a list of internal-page prefixes (`chrome://`,
`chrome-extension://`, `edge://`, `about:`); it does not test for
`http`/`https`. An unknown action gets no response at all.

The snooze button sends `update-settings` without a `settings` object. The
model takes `chrome.storage.sync.set(undefined)` to throw. So that request
changes nothing, reschedules nothing and is never answered
(`Background.Worker.OnMessage`).

A removal that `removeOverlay` schedules detaches one particular element.
If a newer overlay replaced it, the newer one stays: the model gives each
element a node number. An automatic dismissal calls `removeOverlay`, which
looks the overlay up by id. So a dismissal timer left over from an earlier
overlay hides whichever overlay is shown when it runs. The model keeps that
behaviour.

## Model

| member | source | states |
|---|---|---|
| Text.TrimStart | popup.js:26 | the result is a suffix of the input; it starts with a non-space; every dropped character is white space |
| Text.TrimEnd | popup.js:26 | the result is a prefix of the input; it ends with a non-space; every dropped character is white space |
| Text.Trim | popup.js:26 | `trim` yields a trimmed string no longer than its input, and leaves an already trimmed string unchanged |
| Text.TrimRemovesPadding | popup.js:26 | `trim` removes exactly the surrounding white space: its result occurs in the input with only white space before and after it |
| Text.Split | popup.js:26 | `split` on a character yields at least one piece, and no piece contains the separator |
| Text.SplitWithoutSeparator | popup.js:26 | a string without the separator splits into itself alone |
| Text.SplitAtFirstSeparator | popup.js:26 | splitting `a + sep + b`, with `sep` not in `a`, gives `a` followed by the pieces of `b` |
| Text.Join | popup.js:17 | `join` of no parts is empty, of one part is that part, and otherwise starts with the first part followed by the separator |
| Text.SplitJoin | popup.js:17 | joining one or more separator-free pieces and splitting again returns exactly those pieces |
| Text.JoinSplit | popup.js:17 | joining the pieces of a split returns the original string |
| Text.ParseDigits | popup.js:24 | the digit parse succeeds exactly on non-empty strings of decimal digits |
| Text.NatDigits | popup.js:15 | a natural number is written as one or more decimal digits |
| Text.NatDigitsRoundTrip | popup.js:15 | the digits written for a natural number parse back to that number |
| Text.NumberToString | popup.js:15 | an integer written into a form field is never the empty string |
| Text.StringToNumber | popup.js:24 | `Number` of a field, integers only: a `None` result never comes from a blank string, and a non-blank string that reads as a number ends with a digit |
| Text.NumeralChars | popup.js:24 | a string that reads as an integer holds only white space, digits and signs |
| Text.ForeignCharacterIsNone | popup.js:24 | a string holding a letter, a decimal point or any other character besides white space, digits and signs reads as `None`: `NaN` in JavaScript, or a numeral form the integer model leaves out (`1.0`, `1e3`, `0x1F`, `Infinity`) |
| Text.DigitsAreNumbers | popup.js:24 | every non-empty digit string, leading zeros included, reads as its digit value |
| Text.BlankIsZero | popup.js:24 | `Number` of an empty or all-white-space string is 0 |
| Text.NegativeNumeral | popup.js:15 | a negative integer is written as `-` and the digits of its magnitude, with no surrounding white space |
| Text.MinusNumeral | popup.js:24 | a trimmed `-` followed by the digits of `m` reads as `-m` |
| Text.NonNegativeRoundTrip | popup.js:15 | a non-negative integer written into a field reads back as itself |
| Text.NegativeRoundTrip | popup.js:15 | a negative integer written into a field reads back as itself |
| Text.NumberRoundTrip | popup.js:24 | for every integer `n`, `Number(String(n)) == n` |
| Storage.Merge | popup.js:35 | the key-wise override: every key present in the store wins, every absent key takes the default; an empty store gives the defaults |
| Storage.Get | background.js:11-15 | a settings read fills each missing key from the defaults (30 minutes, 10 seconds, enabled, suggestions shown) and returns a full stored record as it is |
| Storage.Write | background.js:108 | `set` of no keys changes nothing; on an empty store it leaves exactly the patch; a full record replaces everything; a non-empty store stays non-empty |
| Storage.ItemsOf | popup.js:41 | writing a full settings record stores a non-empty set of keys |
| Storage.GetEmpty | background.js:11-15 | reading an empty store returns the defaults verbatim |
| Storage.MergeFull | popup.js:35 | when the store holds every key, the stored values win over any defaults |
| Storage.WriteThenGet | popup.js:41 | after a full settings record is written, whatever the store held before, reading returns exactly that record |
| Storage.WriteIdempotent | popup.js:41 | writing the same patch twice equals writing it once |
| Storage.MergeOfGet | popup.js:33-35 | the popup's second defaults-merge over a settings read changes nothing |
| Storage.SyncArea.Set | background.js:108 | `set(patch)` replaces the keys the patch carries and keeps the others |
| Protocol.Coalesce | background.js:120 | `??` keeps a given value and replaces `null` and `undefined` by the fallback |
| Background.WebPageIsNotInternal | background.js:63 | a url starting with `http` matches none of the internal-page prefixes |
| Background.Eligible | background.js:61-65 | a tried tab has a non-zero id and a non-empty url; a tab on an internal page is never tried; a tab with an `http`/`https` url is always tried |
| Background.TabCalls | background.js:60-85 | `triggerTab` makes no call on an ineligible tab, one when the first send succeeds, and four otherwise |
| Background.Broadcast | background.js:97-101 | the loop makes at most four calls per tab, and none when no tab is eligible |
| Background.TabCallsShape | background.js:60-85 | an ineligible tab gets no call. Every call is on the tab's id and every send carries the payload. The first call is the send. There are at most two sends; the second exists exactly when injection happened and follows the script injection. Injection happens exactly when the tab is eligible and the first send failed; then both files are injected. The last call is always a send |
| Background.TabDelivery | background.js:60-85 | 0 sends for an ineligible tab; 1 send and no injection when the first send succeeds; otherwise exactly 2 sends with injection |
| Background.BroadcastSendBound | background.js:97-101 | the loop over `n` tabs makes at most `2n` sends |
| Background.BroadcastPayload | background.js:97-101 | every message the loop sends is the one payload |
| Background.BroadcastReaches | background.js:97-101 | every eligible tab gets a first send of the payload |
| Background.BroadcastOnlyEligible | background.js:61-65 | every call the loop makes is on the id of an eligible tab |
| Background.ScheduledAlarms | background.js:17-27 | when enabled, the alarm set is exactly one alarm, `pause-reminder`, with period `intervalMinutes`; when disabled it is empty |
| Background.ScheduledAlarmFires | background.js:87-90 | every scheduled alarm passes the alarm handler's name and `enabled` guard |
| Background.AlarmPayload | background.js:91-96 | the alarm's `trigger-pause` carries the stored duration, suggestions and `showSuggestions` |
| Background.TriggerNowPayload | background.js:118-123 | a given duration, 0 included, is sent as is; a `null` or absent one is replaced by the stored duration, giving exactly the alarm's payload |
| Background.Seeded | background.js:30-34 | the defaults are written only into a store with no keys; a non-empty store is left unchanged |
| Background.SeedingPreservesSettings | background.js:29-37 | seeding never changes what a settings read returns |
| Background.Worker.ScheduleAlarm | background.js:17-27 | the alarm set afterwards is `ScheduledAlarms` of the current settings; no earlier alarm survives |
| Background.Worker.OnInstalled | background.js:29-37 | the store becomes `Seeded` of the old store; then the alarms are rescheduled from it |
| Background.Worker.EnsureInjected | background.js:40-57 | the stylesheet injection, then the script injection, whatever the stylesheet's outcome; nothing is reported back |
| Background.Worker.TriggerTab | background.js:60-85 | appends exactly `TabCalls` of the tab to the call log and returns its delivery |
| Background.Worker.TriggerAll | background.js:97-101 | appends each tab's calls in query order (`Broadcast`) |
| Background.Worker.OnAlarm | background.js:87-103 | only the `pause-reminder` alarm, only while enabled, broadcasts the alarm payload; otherwise no call |
| Background.Worker.OnMessage | background.js:106-133 | `update-settings` with settings: writes them, reschedules, answers. Without settings: nothing and no answer. `trigger-now`: broadcasts `TriggerNowPayload` and answers. Any other action: nothing and no answer |
| Content.SuggestionList | content.js:7 | an absent list defaults to the empty array; `null` is not an array; a given list is passed through |
| Content.ShowsSuggestion | content.js:7 | the suggestion is shown exactly when the flag is absent or `true` |
| Content.SelectSuggestion | content.js:76-82 | the fallback text for a missing (non-array) or empty list; otherwise the picked element, which is in the list |
| Content.DismissDelay | content.js:70-73 | the delay is at least 1000 ms. It is 10 s for an absent duration and 1 s for `null` or a duration below 1; otherwise `durationSeconds * 1000` |
| Content.Card | content.js:56-58 | three children when the suggestion is shown, two otherwise; the title is always first and the button row always last; the suggestion is present exactly when it is to be shown |
| Content.Page.CreateOverlay | content.js:7-74 | no change when an overlay exists. Otherwise a new visible overlay with the card for these options, on a fresh node, and one automatic-dismissal timer with `DismissDelay` |
| Content.Page.RemoveOverlay | content.js:84-92 | no change when there is no overlay. Otherwise the overlay is hidden and the detachment of that node is scheduled after 320 ms |
| Content.Page.OnMessage | content.js:95-109 | only `trigger-pause` creates an overlay: on a fresh node, visible, with the card built from the message's suggestions and `showSuggestions`, and a dismissal timer for its duration; an existing overlay, or any other message, leaves the page unchanged |
| Content.Page.OnSnooze | content.js:45-50 | removes the overlay as `RemoveOverlay` does, then sends `update-settings` without settings and `trigger-now` with 5 seconds |
| Content.Page.FireTimer | content.js:89-91 | a detachment removes its node only if that node is still attached; an automatic dismissal hides whatever overlay is shown |
| Popup.NumberOr | popup.js:24-25 | `n \|\| fallback`: the fallback for 0 or a failed parse, the number otherwise, negatives included |
| Popup.CleanLines | popup.js:26 | no more entries than lines, and every entry is non-empty and trimmed |
| Popup.CleanLinesSingle | popup.js:26 | one line is cleaned to its trimmed text, or to nothing when the trim is empty |
| Popup.CleanLinesAppendOne | popup.js:26 | a line added at the end contributes its own cleaning at the end |
| Popup.CleanLinesAppend | popup.js:26 | cleaning two blocks of lines gives the first block's cleaning followed by the second's; with `CleanLinesSingle` this fixes every entry as the trim of a line, in the lines' order |
| Popup.CleanLinesKeepsTrimmed | popup.js:26 | every line that is not blank survives cleaning as its trimmed text |
| Popup.CleanLinesNoNewline | popup.js:26 | cleaning introduces no newline |
| Popup.CleanLinesKeepsClean | popup.js:26 | lines that are non-empty and trimmed are kept exactly |
| Popup.ParseSuggestions | popup.js:26 | every parsed suggestion is non-empty, trimmed and newline-free |
| Popup.ParseJoin | popup.js:17 | a list of non-empty, trimmed, newline-free suggestions, joined with newlines and parsed again, is the same list |
| Popup.ReadUIToSettings | popup.js:21-29 | the check boxes are copied, neither number is ever 0, and every suggestion is clean |
| Popup.ReadUINumbers | popup.js:24-25 | each number is the parsed field unless that is 0 or a failed parse, in which case it is the default (30 or 10); a non-zero number shown in the field reads back as itself |
| Popup.ReadUIBlank | popup.js:24 | a blank interval field gives the default interval |
| Popup.TestDuration | popup.js:52 | the test duration is never 0: the parsed field when it is a non-zero number, 10 for a failed parse |
| Popup.TestDurationAsSaved | popup.js:52 | the test button's duration is the duration a save would store |
| Popup.LoadedForm | popup.js:13-19 | a missing suggestion list shows as empty text; a missing `showSuggestions` shows as checked |
| Popup.SaveAfterLoad | popup.js:13-29 | opening the popup and saving without edits writes back the same settings, when no number is 0 and every suggestion is clean |
| Popup.SaveAfterLoadZero | popup.js:24 | a stored interval of 0 is saved back as the default 30 |
| Popup.Popup.LoadSettingsToUI | popup.js:13-19 | the form afterwards is `LoadedForm` of the settings given |
| Popup.Popup.OnLoad | popup.js:32-37 | the form shows the store's settings merged with the defaults |
| Popup.Popup.OnSave | popup.js:39-48 | the form is unchanged; the store gets the form's settings; `update-settings` with those settings is sent; the button shows the confirmation |
| Popup.Popup.OnTest | popup.js:50-56 | `trigger-now` is sent with the form's duration under the save fallback; then the popup closes |

## Left out

- The Chrome APIs (`storage`, `alarms`, `tabs`, `scripting`, `runtime`) are abstract state or inputs.
  - The model does not decide when Chrome reports `lastError`; each outcome is an input per tab.
  - `firstSend` is `true` only when a listener in the tab answers the message. Being present is not enough. The content script's listener (content.js:95-109) never calls `sendResponse` and does not return `true`. Chrome therefore closes the port with `lastError` even when the content script is loaded, and the injection path runs on every eligible tab.
  - Alarm period limits enforced by Chrome are not modelled.
- Asynchrony, callback interleaving and the service worker's lifetime are left out. Each handler runs to completion on a snapshot of the store.
- Background.Broadcast: the call log runs tab by tab. In the source, `triggerTab` is not awaited, so the loop issues every tab's first send before any tab's injection. Only the order of calls within one tab is the source's order; the order across tabs is not. The `trigger-now` answer is modelled after the loop, while in the source the tabs' calls may still be pending.
- Text.StringToNumber: only the integer part of JavaScript's `Number` is modelled. Fractions, exponents, hexadecimal, octal (`0o17`) and binary literals, and `Infinity` are `None`, where `Number` accepts them. Integers stay exact however large, where JavaScript rounds beyond 2^53.
- Text.NumberToString: `String(n)` only for integers.
- `Math.random` is a caller-supplied index (`ValidPick`).
- The DOM itself is not modelled: element attributes, class names, focus, `requestAnimationFrame` (the overlay is created visible), CSS transitions and real timer timing. Only the computed delays are kept.
- The "Saved ✓" label is a flag, `showsSaved`. Its reset to "Save" after 1200 ms is not modelled.
- Storage keys other than the five settings are left out. A store holding only foreign keys is therefore not modelled as non-empty for the install handler.
- Console logging is left out.
- The `clearTimeout` inside the automatic-dismissal callback is left out; it has no effect once the timer has fired.
- Background.TabCalls: the response contents are ignored, as in the source; only whether an error was reported matters.
