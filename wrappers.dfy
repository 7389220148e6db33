/** Optional values and the JavaScript truthiness tests the handlers and components apply to them. */
module Wrappers {

  /** A value that may be absent: `null`/`undefined` in the source. */
  datatype Option<+T> = None | Some(value: T)

  /** `!!s` for a string field that may be absent: absent and "" are both falsy. */
  predicate Truthy(s: Option<string>) {
    s.Some? && s.value != ""
  }

  /** `s || null` for an optional string: a falsy string is stored as null. */
  function OrNull(s: Option<string>): (r: Option<string>)
    ensures r.Some? <==> Truthy(s)
    ensures r.Some? ==> r == s
  {
    if Truthy(s) then s else None
  }

  /** `s || ""` for an optional string. */
  function OrEmpty(s: Option<string>): (r: string)
    ensures Truthy(s) ==> r == s.value
    ensures !Truthy(s) ==> r == ""
  {
    if s.Some? then s.value else ""
  }
}
