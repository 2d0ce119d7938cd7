/** Option and Result, the failure-carrying datatypes the rest of the model uses. */
module Wrappers {

  /** `None` stands for "a Python exception was raised here". */
  datatype Option<+T> = None | Some(value: T) {
    function GetOr(default: T): T {
      match this
      case Some(v) => v
      case None => default
    }
  }

  /** A value or an error message. */
  datatype Result<+T, +E> = Ok(value: T) | Err(error: E)
}
