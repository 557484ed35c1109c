/** Optional values and results with an error branch, used across the model. */
module Wrappers {

  datatype Option<+T> = None | Some(value: T) {
    /** The value when present, `default` otherwise (Python's `dict.get(key, default)`). */
    function GetOr(default: T): T {
      match this
      case Some(v) => v
      case None => default
    }
  }

  datatype Result<+T, +E> = Ok(value: T) | Err(error: E)
}
