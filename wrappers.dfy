/** Option and Result, the two failure-carrying types the model uses. */
module Wrappers {

  /** A value that may be missing; None stands for JavaScript's `undefined`. */
  datatype Option<+T> = None | Some(value: T)

  /** The outcome of an operation that either yields a value or an error. */
  datatype Result<+R, +E> = Success(value: R) | Failure(error: E)
}
