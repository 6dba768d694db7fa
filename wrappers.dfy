/** Option and Result values used for the outcomes of remote calls and for thrown errors. */
module Wrappers {

  datatype Option<+T> = None | Some(value: T) {
    function GetOr(default: T): T {
      match this
      case Some(v) => v
      case None => default
    }
  }

  /** `Err` carries the message of the JavaScript `Error` that the source throws. */
  datatype Result<+T> = Ok(value: T) | Err(error: string)
}
