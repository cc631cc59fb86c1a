/** Option and Result, the failure-carrying datatypes used throughout the model. */
module Wrappers {

  datatype Option<+T> = None | Some(value: T) {
    function GetOr(default: T): T {
      match this
      case Some(v) => v
      case None => default
    }
  }

  /** A rejected promise carries an error message; a resolved one carries a value. */
  datatype Result<+R> = Success(value: R) | Failure(error: string)
}
