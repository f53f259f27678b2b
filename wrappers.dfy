/** Small failure-carrying datatypes shared by the model. */
module Wrappers {

  /** Python's `Optional[T]`: a value or `None`. */
  datatype Option<+T> = None | Some(value: T)

  /** How a Python call ends: it returns a value, or it raises an exception
      that its caller does not catch. */
  datatype Completion<+T> = Returned(value: T) | Raised

  /** An optional string that Python's truth test (`if x:`) accepts: present
      and not empty. */
  predicate Truthy(o: Option<string>) {
    o.Some? && o.value != ""
  }
}
