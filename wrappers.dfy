/** Option and Outcome, the two failure-carrying shapes the model needs. */
module Wrappers {

  /** A value that may be missing: PHP's `null` against a present value. */
  datatype Option<+T> = None | Some(value: T)

  /** The outcome of a call that returns nothing but may throw `E`. */
  datatype Outcome<+E> = Pass | Fail(error: E)

  /** A value of type `R`, or the error `E` that was thrown instead. */
  datatype Result<+R, +E> = Success(value: R) | Failure(error: E)
}
