/** Option and Result: Java's nullable references and exceptions, made explicit. */
module Wrappers {

  /** A nullable reference: `None` is Java's `null`. */
  datatype Option<+T> = None | Some(value: T) {
    function GetOr(default: T): T {
      match this
      case Some(v) => v
      case None => default
    }
  }

  /** The outcome of an operation that may throw: `Err` carries what the exception says. */
  datatype Result<+T, +E> = Ok(value: T) | Err(error: E)
}
