/** Failure-carrying values shared by every module of the model. */
module Wrappers {

  datatype Option<+T> = None | Some(value: T)

  /** The outcome of an operation that the source lets throw: a value, or the error it throws. */
  datatype Result<+T, +E> = Ok(value: T) | Err(error: E)
}
