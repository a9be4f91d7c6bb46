/** Failure-compatible wrappers shared by every module of the model. */
module Wrappers {

  /** A value that may be absent (Python `None`). */
  datatype Option<+T> = None | Some(value: T)

  /** The outcome of an operation that either returns a value or raises; the
      error carries the exception message. */
  datatype Result<+T, +E> = Success(value: T) | Failure(error: E)
}
