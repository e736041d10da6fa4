/** Optional values: `None` stands for a JavaScript field that is `undefined` or `null`. */
module Wrappers {

  datatype Option<+T> = None | Some(value: T)

  /** JavaScript `s || fallback` on a string field: the fallback replaces a missing or empty string. */
  function OrString(o: Option<string>, fallback: string): (r: string)
    ensures o.Some? && o.value != "" ==> r == o.value
    ensures (o.None? || o.value == "") ==> r == fallback
  {
    if o.Some? && o.value != "" then o.value else fallback
  }

  /** JavaScript `n || fallback` on a numeric field: the fallback replaces a missing value or 0. */
  function OrInt(o: Option<int>, fallback: int): (r: int)
    ensures o.Some? && o.value != 0 ==> r == o.value
    ensures (o.None? || o.value == 0) ==> r == fallback
  {
    if o.Some? && o.value != 0 then o.value else fallback
  }
}
