/** Option and Result: Java's null and exceptions, made explicit. */
module Wrappers {

  /** A value that may be absent (Java `null`). */
  datatype Option<+T> = None | Some(value: T)

  /** The outcome of a call that may throw: a value, or the message of the exception. */
  datatype Result<+T> = Ok(value: T) | Err(message: string)
}
