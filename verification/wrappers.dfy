/** Failure-carrying datatypes shared by the modules of the model. */
module Wrappers {

  /** A value that may be absent (JavaScript's `undefined`). */
  datatype Option<+T> = None | Some(value: T)

  /** The outcome of an operation that can fail, such as parsing a shared quiz. */
  datatype Result<+T, +E> = Success(value: T) | Failure(error: E)
}
