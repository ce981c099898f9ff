/** Option and Result, used wherever the JavaScript code returns null/undefined or throws. */
module Wrappers {

  datatype Option<+T> = None | Some(value: T) {
    /** `x || d` for a value that is either present or absent. */
    function GetOr(default: T): T {
      match this
      case Some(v) => v
      case None => default
    }
  }

  /** A settled promise: resolved with a value, or rejected with an error message. */
  datatype Result<+T, +E> = Ok(value: T) | Err(error: E)
}
