/** Option and Result, the two failure-carrying shapes the model uses. */
module Wrappers {

  /** A value that may be absent: `undefined`/`null` in the source. */
  datatype Option<+T> = None | Some(value: T)

  /** The outcome of an operation that can throw: a value or the error thrown. */
  datatype Result<+R, +E> = Success(value: R) | Failure(error: E)
}
