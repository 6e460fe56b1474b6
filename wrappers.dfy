/** Option and Result, standing for JavaScript's `null`/`undefined` and thrown errors. */
module Wrappers {

  /** `None` is JavaScript's `null` (or `undefined`); `Some(v)` is a present value. */
  datatype Option<+T> = None | Some(value: T)

  /** A computation that either yields a value or throws. */
  datatype Result<+R, +E> = Success(value: R) | Failure(error: E)
}
