/** Optional values and error-carrying results, used wherever the dashboard reads a
    possibly-absent JSON field or a route answers with an error object. */
module Wrappers {

  /** A value that may be absent; `None` stands for a missing JSON key (JavaScript `undefined`). */
  datatype Option<+T> = None | Some(value: T) {

    /** The wrapped value, or `default` when absent. */
    function GetOr(default: T): T {
      match this
      case Some(v) => v
      case None => default
    }
  }

  /** The answer of a route: a payload, or the error message it reports. */
  datatype Result<+T, +E> = Ok(value: T) | Err(error: E)
}
