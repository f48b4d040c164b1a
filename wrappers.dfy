/** The optional value the script expresses with Python's None. */
module Wrappers {

  datatype Option<+T> = None | Some(value: T)

  /** Python truthiness of an optional string: None and "" are both false. */
  predicate Truthy(o: Option<string>)
  {
    o.Some? && o.value != []
  }
}
