/** Failure-carrying wrappers shared by the modules of this model. */
module Wrappers {

  /** A value that may be absent: JavaScript's `null` / `undefined`. */
  datatype Option<+T> = None | Some(value: T)

  /** The outcome of an operation that reports its error as a value. */
  datatype Result<+R, +E> = Success(value: R) | Failure(error: E)

  /** The outcome of an operation that may throw: `Threw` is an exception that
      the operation does not catch and that reaches its caller. */
  datatype Outcome<+R, +F> = Returned(value: R) | Threw(fault: F)
}
