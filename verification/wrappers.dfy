/** Failure-carrying datatypes used by the cart model. */
module Wrappers {

  /** A value that may be absent: a missing document, a missing field, a failed search. */
  datatype Option<+T> = None | Some(value: T)

  /** Either a computed value or the reason it could not be computed. */
  datatype Result<+T, +E> = Ok(value: T) | Err(error: E)

  /** The outcome of an operation that returns nothing on success. */
  datatype Outcome<+E> = Pass | Fail(error: E)
}
