/** Failure-carrying values used where the source throws or may find nothing. */
module Wrappers {

  /** A value that may be absent (JavaScript's `undefined` / `null`). */
  datatype Option<+T> = None | Some(value: T)

  /** A computation that either returns a value or throws an error with a message. */
  datatype Result<+T, +E> = Ok(value: T) | Err(error: E)
}
