/** Option and Result, the two failure-compatible wrappers the storage model uses. */
module Wrappers {

  /** A value that may be missing; `None` also stands for Go's `nil` error. */
  datatype Option<+T> = None | Some(value: T)

  /** The outcome of a library call that either produces a value or fails with an error. */
  datatype Result<+R, +E> = Success(value: R) | Failure(error: E)
}
