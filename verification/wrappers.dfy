/** Failure-carrying datatypes shared by every module of the model:
    `Option` for the Python functions that return a value or `None`, and
    `Result` for the ones that return a value or raise an exception. */
module Wrappers {

  datatype Option<+T> = None | Some(value: T) {

    /** The value carried by `Some`, or `default` for `None`. */
    function GetOr(default: T): T {
      match this
      case Some(v) => v
      case None => default
    }
  }

  datatype Result<+R, +E> = Success(value: R) | Failure(error: E)
}
