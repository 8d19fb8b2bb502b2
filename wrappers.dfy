/** Optional values and results with an error, used across the model. */
module Wrappers {

  /** A value that may be absent: an `undefined` field, a missing key, or a NaN parse. */
  datatype Option<+T> = None | Some(value: T)

  /** The outcome of an operation that can fail with an error of type `E`. */
  datatype Result<+T, +E> = Ok(value: T) | Err(error: E)
}
