/**
 * The messages exchanged between the popup, the page overlay and the
 * background worker, and the JavaScript distinction between a field that is
 * absent (`undefined`), `null`, or holds a value.
 */
module Protocol {
  import opened Wrappers
  import opened Storage

  datatype Arg<+T> = Undefined | Null | Given(value: T)

  /** `a ?? fallback`: the value unless it is `null` or `undefined`. */
  function Coalesce<T>(a: Arg<T>, fallback: T): (r: T)
    ensures a.Given? ==> r == a.value
    ensures a.Undefined? || a.Null? ==> r == fallback
  {
    if a.Given? then a.value else fallback
  }

  /**
   * A message by its `action`. `UpdateSettings` carries its `settings`
   * object, or `None` when the sender left it out; `Other` stands for every
   * other action, and for a message without one.
   */
  datatype Msg =
    | TriggerPause(durationSeconds: Arg<int>, suggestions: Arg<seq<string>>, showSuggestions: Arg<bool>)
    | TriggerNow(durationSeconds: Arg<int>)
    | UpdateSettings(settings: Option<Items>)
    | Other
}
