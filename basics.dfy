/** Option and Result: the outcomes of operations that may have no value or may fail. */
module Basics {

  datatype Option<+T> = None | Some(value: T) {
    function GetOr(default: T): T {
      match this
      case Some(v) => v
      case None => default
    }
  }

  /** A Python exception raised by the decoder is modelled as an `Err`. */
  datatype Result<+T, +E> = Ok(value: T) | Err(error: E)
}
