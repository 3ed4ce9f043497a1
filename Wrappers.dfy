/** Optional values and results with an error, as the handlers use them:
    a request argument that may be absent, and an operation that may fail. */
module Wrappers {

  /** An optional value; `None` stands for Python's `None` / an absent argument. */
  datatype Option<+T> = None | Some(value: T) {

    /** The value, or `default` when absent: Python's `if x is None: x = default`,
        where a present empty value does not fall back. */
    function GetOr(default: T): T {
      match this
      case Some(v) => v
      case None => default
    }
  }

  /** The outcome of an operation that either succeeds with a value or fails with an error. */
  datatype Result<+R, +E> = Success(value: R) | Failure(error: E)
}
