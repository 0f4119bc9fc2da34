/** Option and Result, the failure-carrying values used throughout the model. */
module Wrappers {

  /** A value that may be missing; `None` stands for JavaScript's `undefined`. */
  datatype Option<+T> = None | Some(value: T)

  /** The outcome of a call that may throw: its value, or what it threw. */
  datatype Result<+T, +E> = Success(value: T) | Failure(error: E)
}
