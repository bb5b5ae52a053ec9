/** Option and Result, the two failure-carrying shapes the model uses in place
    of Go's nil pointers and (value, error) pairs. */
module Wrappers {

  /** An optional value: `None` plays the part of a nil pointer. */
  datatype Option<+T> = None | Some(value: T) {

    /** The carried value, or `default` when there is none. */
    function GetOr(default: T): T {
      match this
      case Some(v) => v
      case None => default
    }
  }

  /** Either a value or an error kind. */
  datatype Result<+T, +E> = Success(value: T) | Failure(error: E)
}
