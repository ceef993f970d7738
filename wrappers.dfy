/** Optional values and results with an error, used for nullable fields and for
    the exceptions the services throw. */
module Wrappers {

  /** A nullable value: `None` is C#'s null. */
  datatype Option<+T> = None | Some(value: T) {
    function GetOr(default: T): T {
      match this
      case Some(v) => v
      case None => default
    }
  }

  /** The outcome of an operation that either returns a value or throws. */
  datatype Result<+R, +E> = Ok(value: R) | Err(error: E)
}
