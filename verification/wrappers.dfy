/** Optional values and results with an error, used wherever the source returns
    null/false/undefined or throws. */
module Wrappers {

  /** A value that may be absent (PHP null or false, JavaScript undefined). */
  datatype Option<+T> = None | Some(value: T)

  /** The outcome of an operation that can throw: a value or the error it raised. */
  datatype Result<+T, +E> = Ok(value: T) | Err(error: E)
}
