/** Option and Result values for the lookups that may miss and the operations that throw. */
module Wrappers {

  datatype Option<+T> = None | Some(value: T) {
    function GetOr(default: T): T {
      match this
      case Some(v) => v
      case None => default
    }
  }

  /** The outcome of an operation that may throw: `Err` carries the exception message. */
  datatype Result<+T> = Ok(value: T) | Err(message: string)
}
