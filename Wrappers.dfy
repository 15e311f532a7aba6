/** Option and Result values, and the shape of a raised Python exception. */
module Wrappers {

  /** A value that may be absent (Python's `Optional`, JavaScript's `null`). */
  datatype Option<+T> = None | Some(value: T)

  /** Either a value or the exception that was raised instead. */
  datatype Result<+T, +E> = Success(value: T) | Failure(error: E)

  /** A raised Python exception: `type(e).__name__` and `str(e)`. */
  datatype PyException = PyException(className: string, message: string)
}
