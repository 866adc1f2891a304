/** Failure-compatible wrappers shared by every module of the model. */
module Wrappers {

  /** A value that may be absent; JavaScript's `null`/`undefined` become `None`. */
  datatype Option<+T> = None | Some(value: T) {
    function GetOr(default: T): T {
      match this
      case Some(v) => v
      case None => default
    }
  }

  /** The outcome of an operation that either resolves with a value or rejects with an error. */
  datatype Result<+R, +E> = Ok(value: R) | Err(error: E)
}
