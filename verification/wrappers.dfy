/** Failure-carrying datatypes used for the error paths of the model. */
module Wrappers {

  /** A value that may be absent: Python's `None`, a missing dict key, JavaScript's `null`. */
  datatype Option<+T> = None | Some(value: T)

  /** The outcome of a call that may raise: `Failure` carries the text of the exception. */
  datatype Result<+T> = Success(value: T) | Failure(error: string)

  /** Python's and JavaScript's truthiness of an optional string: present and non-empty. */
  predicate Truthy(s: Option<string>)
  {
    s.Some? && s.value != ""
  }
}
