/** Optional values and fallible results, used where the scripts work with
    Python's `None` or raise an exception. */
module Wrappers {

  /** A value that may be absent (Python's `None`). */
  datatype Option<+T> = None | Some(value: T)

  /** The outcome of a step that either succeeds or raises an error. */
  datatype Result<+R, +E> = Success(value: R) | Failure(error: E)
}
