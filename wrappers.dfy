/** The optional value and the success-or-error value used throughout the model. */
module Wrappers {

  /** A JavaScript value that may be `undefined`, or an optional payload. */
  datatype Option<+T> = None | Some(value: T)

  /** The outcome of an operation that the source aborts with an exception. */
  datatype Result<+T, +E> = Ok(value: T) | Err(error: E)
}
