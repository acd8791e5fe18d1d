/** Failure-carrying values shared by every module of the model. */
module Wrappers {

  /** A value that may be absent: a JavaScript `undefined` or `null`. */
  datatype Option<+T> = None | Some(value: T) {
    function GetOr(default: T): T {
      match this
      case Some(v) => v
      case None => default
    }
  }

  /** The outcome of a handler: a value, or the error the handler answers with. */
  datatype Result<+R, +E> = Ok(value: R) | Err(error: E)
}
