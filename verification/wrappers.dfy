/** Failure-carrying datatypes shared by the model. */
module Wrappers {

  /** A value that may be absent: an unset environment variable, or NumPy's `nan`. */
  datatype Option<+T> = None | Some(value: T) {

    /** The carried value, or `default` when there is none. */
    function GetOr(default: T): T {
      match this
      case Some(v) => v
      case None => default
    }
  }

  /** The outcome of an operation that may raise: a value, or the error it raised. */
  datatype Result<+T, +E> = Success(value: T) | Failure(error: E)
}
