/** Option and Result values used across the model. */
module Wrappers {

  /** A value that may be absent (Python's None). */
  datatype Option<+T> = None | Some(value: T)

  /** The value of an operation that may fail with an error. */
  datatype Result<+R, +E> = Success(value: R) | Failure(error: E)
}
