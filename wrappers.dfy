/** Option and Result: the shapes of Python's `None` returns and caught exceptions. */
module Wrappers {

  /** A value that may be absent (Python `None`, or a missing dictionary key). */
  datatype Option<+T> = None | Some(value: T) {

    /** The value, or `default` when absent (Python `d.get(key, default)`). */
    function GetOr(default: T): T {
      match this
      case Some(v) => v
      case None => default
    }
  }

  /** A computation that either produced a value or raised an exception with the given text. */
  datatype Result<+R, +E> = Success(value: R) | Failure(error: E)
}
