/** Option and Result, the small failure-compatible wrappers the rest of the model uses. */
module Wrappers {

  /** A value that may be absent: JavaScript's `undefined`/`null` versus a present value. */
  datatype Option<+T> = None | Some(value: T)

  /** The outcome of a validation: the accepted value or the error messages. */
  datatype Result<+R, +E> = Success(value: R) | Failure(error: E)
}
