/** Optional values and results shared by the three tool models. */
module Wrappers {

  /** A value that may be absent: a dictionary key that is not present, or Python's None. */
  datatype Option<T> = None | Some(value: T) {

    /** The value, or `default` when absent (Python's `dict.get(key, default)`). */
    function GetOr(default: T): T {
      match this
      case Some(v) => v
      case None => default
    }
  }

  /** The outcome of an operation that either produces a value or raises. */
  datatype Result<T, E> = Success(value: T) | Failure(error: E)
}
