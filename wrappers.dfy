/** Option and Result: the model's stand-ins for Java's null and for thrown exceptions. */
module Wrappers {

  /** A value that may be absent (Java `null`, TypeScript `undefined`). */
  datatype Option<+T> = None | Some(value: T)

  /** The outcome of an operation that either returns a value or throws. */
  datatype Result<+R, +E> = Success(value: R) | Failure(error: E)
}
