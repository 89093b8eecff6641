/** Failure-carrying datatypes shared by the model: optional values, results
    with an error, and pass/fail outcomes. */
module Wrappers {

  /** A value that may be absent; stands for Python's `X | None`. */
  datatype Option<+T> = None | Some(value: T)

  /** Either a value or the error that an operation raised instead. */
  datatype Result<+R, +E> = Success(value: R) | Failure(error: E)

  /** A check that either passes or fails with an error. */
  datatype Outcome<+E> = Pass | Fail(error: E)
}
