/** Option and Result, the two failure-carrying shapes the model uses in place of
    Kotlin's nullable values and thrown exceptions. */
module Wrappers {

  datatype Option<+T> = None | Some(value: T) {
    /** Kotlin's `?:` elvis operator. */
    function GetOr(default: T): T {
      match this
      case Some(v) => v
      case None => default
    }
  }

  datatype Result<+R, +E> = Success(value: R) | Failure(error: E)
}
