/** Failure-compatible datatypes shared by the whole model. */
module Wrappers {

  datatype Option<+T> = None | Some(value: T)

  /** A generated value, or the error the source throws instead. */
  datatype Result<+R, +E> = Success(value: R) | Failure(error: E)

  /** Success without a value (a `Promise<void>` that resolves), or the error it rejects with. */
  datatype Outcome<+E> = Pass | Fail(error: E)
}
