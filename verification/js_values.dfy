/**
 * The part of JavaScript's truthiness that the components rely on: an
 * optional string is falsy when it is absent (`null`/`undefined`) or empty,
 * and `v || fallback` yields the fallback exactly then.
 */
module JsValues {
  import opened Wrappers

  /** `!!v` for an optional string. */
  predicate Truthy(v: Option<string>) {
    v.Some? && v.value != ""
  }

  /** `v || fallback` for an optional string. */
  function Or(v: Option<string>, fallback: string): (r: string)
    ensures Truthy(v) ==> r == v.value
    ensures !Truthy(v) ==> r == fallback
    ensures fallback != "" ==> r != ""
  {
    if Truthy(v) then v.value else fallback
  }
}
