/** Optional values and results with an error, as the sub-agent runner uses them:
    `None` stands for Python's `None`, `Err` for an exception that escapes. */
module Wrappers {

  datatype Option<+T> = None | Some(value: T) {
    function GetOr(default: T): T {
      match this
      case Some(v) => v
      case None => default
    }
  }

  datatype Result<+T, +E> = Ok(value: T) | Err(error: E)
}
