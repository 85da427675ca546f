/** Failure-carrying datatypes shared by the whole model. */
module Wrappers {

  /** Python's `Optional[...]`: a value or `None`. */
  datatype Option<+T> = None | Some(value: T) {
    function GetOr(default: T): T {
      match this
      case Some(v) => v
      case None => default
    }
  }

  /** The outcome of a call that may raise: `Failure` stands for the exception. */
  datatype Result<+R, +E> = Success(value: R) | Failure(error: E)
}
