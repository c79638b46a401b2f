/** Failure-carrying values shared by the modules of the model. */
module Wrappers {

  /** A value that may be absent; models TypeScript's `T | null`. */
  datatype Option<+T> = None | Some(value: T)

  /** The outcome of an operation that either returns a value or throws. */
  datatype Result<+T, +E> = Success(value: T) | Failure(error: E)
}
