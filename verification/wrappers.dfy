/** Optional values, and the JavaScript `||` fallback on optional strings. */
module Wrappers {

  /** An absent or present value; JSON fields that may be missing or null. */
  datatype Option<+T> = None | Some(value: T) {

    /** The value, or `default` when absent. */
    function GetOr(default: T): T {
      match this
      case Some(v) => v
      case None => default
    }
  }

  /** A string field is truthy in JavaScript when it is present and not empty. */
  predicate Present(s: Option<string>) {
    s.Some? && s.value != ""
  }

  /** JavaScript `s || fallback` on an optional string: an absent and an empty
      string both fall back. */
  function OrElse(s: Option<string>, fallback: string): (r: string)
    ensures Present(s) ==> r == s.value
    ensures !Present(s) ==> r == fallback
    ensures fallback != "" ==> r != ""
  {
    if Present(s) then s.value else fallback
  }
}
