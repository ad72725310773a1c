/** Option and Result values shared by every module of the model. */
module Wrappers {

  /** A value that may be missing (TypeScript's `T | null | undefined`, Python's `None`). */
  datatype Option<+T> = None | Some(value: T)

  /** The outcome of an operation that can fail with an error description. */
  datatype Result<+T, +E> = Success(value: T) | Failure(error: E)
}
