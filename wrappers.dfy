/** Option and Result, the failure-carrying types used across the model. */
module Wrappers {

  /** A value that may be absent: JavaScript's `undefined`/`null` beside a present value. */
  datatype Option<+T> = None | Some(value: T)

  /** The outcome of a call that may throw: the value it returned, or what it threw. */
  datatype Result<+T, +E> = Success(value: T) | Failure(error: E)

  /** What a JavaScript call can throw: an `Error` with its message, or any other value. */
  datatype Thrown = ErrorInstance(message: string) | NonError
}
