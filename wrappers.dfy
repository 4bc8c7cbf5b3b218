/** Failure-compatible wrappers shared by the other modules. */
module Wrappers {

  /** A value that may be absent: Java's nullable references. */
  datatype Option<+T> = None | Some(value: T)

  /** The outcome of an operation that may end with an exception. */
  datatype Result<+T, +E> = Ok(value: T) | Err(error: E)
}
