/** Failure-compatible wrappers for the module's error returns. */
module Wrappers {

  datatype Option<+T> = None | Some(value: T)

  /** The outcome of an operation that raises an exception in the source. */
  datatype Result<+R, +E> = Success(value: R) | Failure(error: E)
}
