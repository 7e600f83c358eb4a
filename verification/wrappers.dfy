/** Failure-carrying datatypes used for the Go functions that return `(value, error)`. */
module Wrappers {

  /** A value that may be absent (a nil pointer, a failed `ok` lookup). */
  datatype Option<+T> = None | Some(value: T) {

    /** The wrapped value, or `default` when there is none. */
    function GetOr(default: T): T
    {
      match this
      case Some(v) => v
      case None => default
    }
  }

  /** Either a value or the error a Go function would have returned beside it. */
  datatype Result<+R, +E> = Success(value: R) | Failure(error: E)
}
