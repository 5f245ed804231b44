/** Option and Result, used wherever the JavaScript code yields `undefined`
    or throws (a rejected promise, a TypeError caught further up). */
module Wrappers {

  datatype Option<+T> = None | Some(value: T) {
    function GetOr(default: T): T {
      match this
      case Some(v) => v
      case None => default
    }
  }

  datatype Result<+T, +E> = Ok(value: T) | Err(error: E)
}
