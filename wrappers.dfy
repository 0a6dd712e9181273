/** Option and Result, standing for JavaScript's `null`/`undefined` and for thrown errors. */
module Wrappers {

  /** A value that may be absent (`null` or `undefined` in the source). */
  datatype Option<+T> = None | Some(value: T)

  /** The outcome of an operation that may throw; `Err` carries the error's message. */
  datatype Result<+T, +E> = Ok(value: T) | Err(error: E)
}
