/** Failure-compatible wrappers shared by the whole model. */
module Wrappers {

  /** A value that may be absent (a missing dictionary key, an undefined level). */
  datatype Option<+T> = None | Some(value: T) {
    function GetOr(default: T): T {
      match this
      case Some(v) => v
      case None => default
    }
  }

  /** The outcome of an operation that can raise. */
  datatype Result<+T, +E> = Ok(value: T) | Err(error: E)
}
