/** Small value wrappers shared by the other modules. */
module Wrappers {

  /** A Python value that may be `None`. */
  datatype Option<+T> = None | Some(value: T)

  /** Python truthiness of an optional string: `None` and `""` are both false. */
  predicate Truthy(o: Option<string>) {
    o.Some? && o.value != ""
  }

  /** `(o or "")` for an optional string. */
  function OrEmpty(o: Option<string>): (s: string)
    ensures Truthy(o) <==> s != ""
    ensures Truthy(o) ==> s == o.value
  {
    if o.Some? then o.value else ""
  }
}
