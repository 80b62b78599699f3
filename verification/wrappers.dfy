/** Shared value types used across the model: optional values, results with an
  * error branch in place of thrown exceptions, and unsigned bytes. */
module Wrappers {

  /** A value that may be absent (Java `null`, JavaScript `null`/`undefined`). */
  datatype Option<+T> = None | Some(value: T)

  /** The outcome of an operation that either returns a value or raises an error. */
  datatype Result<+T, +E> = Ok(value: T) | Err(error: E)

  /** An unsigned byte, as Java code sees it after `b & 0xFF`. */
  type byte = b: int | 0 <= b < 256
}
