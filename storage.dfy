/**
 * The extension's settings and the synced key/value store that holds them.
 * The store only ever holds the five settings keys, so it is modelled as a
 * record with one optional entry per key; a key that was never written is
 * `None`.
 */
module Storage {
  import opened Wrappers

  datatype Settings = Settings(
    enabled: bool,
    intervalMinutes: int,
    durationSeconds: int,
    suggestions: seq<string>,
    showSuggestions: bool)

  /** The built-in defaults, shared by the background worker and the popup. */
  const Defaults := Settings(
    true, 30, 10, ["Take a deep breath", "Stand and stretch", "Drink some water"], true)

  /** What the store holds: a subset of the settings keys. */
  datatype Items = Items(
    enabled: Option<bool>,
    intervalMinutes: Option<int>,
    durationSeconds: Option<int>,
    suggestions: Option<seq<string>>,
    showSuggestions: Option<bool>)

  /** A store with no keys at all. */
  const NoItems := Items(None, None, None, None, None)

  predicate IsEmpty(items: Items) {
    items == NoItems
  }

  /** Every key of `s`, as written by `set(s)`. */
  function ItemsOf(s: Settings): (items: Items)
    ensures !IsEmpty(items)
  {
    Items(Some(s.enabled), Some(s.intervalMinutes), Some(s.durationSeconds),
          Some(s.suggestions), Some(s.showSuggestions))
  }

  /** Key-by-key override of `defaults` by the keys present in `items`: both
      `get(DEFAULTS)` and `Object.assign({}, DEFAULTS, items)`. */
  function Merge(defaults: Settings, items: Items): (s: Settings)
    ensures IsEmpty(items) ==> s == defaults
    ensures items.enabled.Some? ==> s.enabled == items.enabled.value
    ensures items.enabled.None? ==> s.enabled == defaults.enabled
    ensures items.intervalMinutes.Some? ==> s.intervalMinutes == items.intervalMinutes.value
    ensures items.intervalMinutes.None? ==> s.intervalMinutes == defaults.intervalMinutes
    ensures items.durationSeconds.Some? ==> s.durationSeconds == items.durationSeconds.value
    ensures items.durationSeconds.None? ==> s.durationSeconds == defaults.durationSeconds
    ensures items.suggestions.Some? ==> s.suggestions == items.suggestions.value
    ensures items.suggestions.None? ==> s.suggestions == defaults.suggestions
    ensures items.showSuggestions.Some? ==> s.showSuggestions == items.showSuggestions.value
    ensures items.showSuggestions.None? ==> s.showSuggestions == defaults.showSuggestions
  {
    Settings(
      items.enabled.GetOr(defaults.enabled),
      items.intervalMinutes.GetOr(defaults.intervalMinutes),
      items.durationSeconds.GetOr(defaults.durationSeconds),
      items.suggestions.GetOr(defaults.suggestions),
      items.showSuggestions.GetOr(defaults.showSuggestions))
  }

  /** A settings read: the store merged with the defaults. */
  function Get(items: Items): (s: Settings)
    ensures items.intervalMinutes.None? ==> s.intervalMinutes == 30
    ensures items.durationSeconds.None? ==> s.durationSeconds == 10
    ensures items.enabled.None? ==> s.enabled
    ensures items.showSuggestions.None? ==> s.showSuggestions
    ensures forall d: Settings :: items == ItemsOf(d) ==> s == d
  {
    Merge(Defaults, items)
  }

  /** `set(patch)`: the keys present in `patch` replace the stored ones, the
      others are kept. */
  function Write(items: Items, patch: Items): (r: Items)
    ensures IsEmpty(patch) ==> r == items
    ensures IsEmpty(items) ==> r == patch
    ensures forall d: Settings :: patch == ItemsOf(d) ==> r == patch
    ensures !IsEmpty(items) ==> !IsEmpty(r)
  {
    Items(
      if patch.enabled.Some? then patch.enabled else items.enabled,
      if patch.intervalMinutes.Some? then patch.intervalMinutes else items.intervalMinutes,
      if patch.durationSeconds.Some? then patch.durationSeconds else items.durationSeconds,
      if patch.suggestions.Some? then patch.suggestions else items.suggestions,
      if patch.showSuggestions.Some? then patch.showSuggestions else items.showSuggestions)
  }

  /** An empty store reads as the defaults, verbatim. */
  lemma GetEmpty()
    ensures Get(NoItems) == Defaults
  {
  }

  /** Stored values win: a store holding every key reads as exactly those values. */
  lemma MergeFull(defaults: Settings, s: Settings)
    ensures Merge(defaults, ItemsOf(s)) == s
  {
  }

  /** Writing a complete settings record and reading back gives that record,
      whatever the store held before. */
  lemma WriteThenGet(items: Items, s: Settings)
    ensures Get(Write(items, ItemsOf(s))) == s
  {
  }

  /** Writing the same patch twice is the same as writing it once. */
  lemma WriteIdempotent(items: Items, patch: Items)
    ensures Write(Write(items, patch), patch) == Write(items, patch)
  {
  }

  /** Merging what a settings read returned with the defaults again changes
      nothing: the defaults-merge is idempotent. */
  lemma MergeOfGet(items: Items)
    ensures Merge(Defaults, ItemsOf(Get(items))) == Get(items)
  {
  }

  /** The synced storage area, shared by the background worker and the popup. */
  class SyncArea {
    var items: Items

    constructor (items: Items)
      ensures this.items == items
    {
      this.items := items;
    }

    /** `chrome.storage.sync.set(patch)`. */
    method Set(patch: Items)
      modifies this
      ensures items == Write(old(items), patch)
    {
      items := Write(items, patch);
    }
  }
}
