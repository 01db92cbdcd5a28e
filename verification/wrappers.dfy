/** Small failure-compatible wrappers shared by every module of the model. */
module Wrappers {

  /** An optional value: Python's `Optional[T]`, where `None` is absence. */
  datatype Option<+T> = None | Some(value: T) {
    function GetOr(default: T): T {
      match this
      case Some(v) => v
      case None => default
    }
  }

  /** Outcome of a configuration call that may raise a Python `ValueError`. */
  datatype Result<+T, +E> = Success(value: T) | Failure(error: E) {
    predicate IsFailure() {
      Failure?
    }
  }
}
