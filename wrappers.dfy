/** Failure-compatible wrappers shared by the whole model. */
module Wrappers {

  /** A value that may be absent: a nullable column, an omitted request field. */
  datatype Option<+T> = None | Some(value: T) {
    function GetOr(default: T): T {
      match this
      case Some(v) => v
      case None => default
    }
  }

  /** The result of a write to the store: it went through, or the database refused it. */
  datatype Outcome<+E> = Pass | Fail(error: E)

  /** A value, or the error that replaced it (a raised exception, an HTTP error status). */
  datatype Result<+T, +E> = Ok(value: T) | Err(error: E)
}
