/** Optional values and results with an error, for Python's `None` and exceptions. */
module Wrappers {

  /** A value that may be absent: a JSON key that is missing, or Python's `None`. */
  datatype Option<+T> = None | Some(value: T) {
    function GetOr(default: T): T {
      match this
      case Some(v) => v
      case None => default
    }
  }

  /** The outcome of an operation that may raise. */
  datatype Result<+T, +E> = Ok(value: T) | Err(error: E)
}
