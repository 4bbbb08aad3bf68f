/**
 * Optional values and results.  `Option` stands for TypeScript's `T | undefined`
 * (and for a `null` pointer where the wire format uses one); `Result` stands for a
 * value that is either returned or thrown.
 */
module Wrappers {

  datatype Option<+T> = None | Some(value: T) {

    /** The wrapped value, or `default` when absent (TypeScript's `x ?? default`). */
    function GetOr(default: T): T {
      match this
      case Some(v) => v
      case None => default
    }
  }

  datatype Result<+T, +E> = Ok(value: T) | Err(error: E)
}
