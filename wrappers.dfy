/** Optional values and results with an error, used for PHP's nullable
    fields and for the exceptions the library throws. */
module Wrappers {

  datatype Option<+T> = None | Some(value: T)

  /** The outcome of an operation that may throw `E`. */
  datatype Result<+T, +E> = Ok(value: T) | Err(error: E)

  /** The outcome of an operation that returns nothing but may throw `E`. */
  datatype Outcome<+E> = Pass | Fail(error: E)
}
