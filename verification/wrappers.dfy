/** Option and Result datatypes used throughout the model. */
module Wrappers {
  /** A value that may be absent; JavaScript's `null` result of a lookup. */
  datatype Option<+T> = None | Some(value: T)

  /** A computation that either returns a value or throws an error. */
  datatype Result<+T, +E> = Ok(value: T) | Err(error: E)
}
