/** Optional values and results with an error, standing for Java's `null` and thrown exceptions. */
module Wrappers {

  /** A value that may be absent (a Java reference that may be `null`). */
  datatype Option<+T> = None | Some(value: T)

  /** The outcome of an operation that either returns a value or throws. */
  datatype Result<+T, +E> = Ok(value: T) | Err(error: E)
}
