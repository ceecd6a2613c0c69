/** Failure-compatible wrappers shared by the whole model. */
module Wrappers {

  /** A value that may be absent: TypeScript's `undefined`/`null`, Python's `None`. */
  datatype Option<+T> = None | Some(value: T) {
    function GetOr(default: T): T {
      match this
      case Some(v) => v
      case None => default
    }
  }

  /** The result of an operation that can raise or report an error. */
  datatype Result<+R, +E> = Success(value: R) | Failure(error: E)
}
