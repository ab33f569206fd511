/** Option and Result: PHP's `isset`/unset values and thrown exceptions, as values. */
module Wrappers {

  /** A value that may be absent (an unset array key, a null). */
  datatype Option<+T> = None | Some(value: T)

  /** Either a value or the error a PHP method would have thrown. */
  datatype Result<+R, +E> = Success(value: R) | Failure(error: E)
}
