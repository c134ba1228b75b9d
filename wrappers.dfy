/** Python's None as a value: an optional argument or attribute. */
module Wrappers {

  datatype Option<+T> = None | Some(value: T)

  /** The truth value Python gives an optional string: None and '' are false. */
  predicate Truthy(o: Option<string>) {
    o.Some? && o.value != ""
  }
}
