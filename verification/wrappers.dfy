/** Failure-carrying datatypes shared by the model: Python's `None`, raised
    exceptions and "no error" outcomes. */
module Wrappers {

  /** A value that may be absent (Python's `None`). */
  datatype Option<+T> = None | Some(value: T)

  /** The value of a call, or the exception it raises. */
  datatype Result<+T, +E> = Success(value: T) | Failure(error: E)

  /** A check that either passes or raises. */
  datatype Outcome<+E> = Pass | Fail(error: E)
}
