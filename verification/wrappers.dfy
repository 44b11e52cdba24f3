/** Failure-carrying datatypes used across the model: a JavaScript value that may be
    null/undefined, a query or request that may fail, a side effect that may fail. */
module Wrappers {

  /** A value that may be absent (null, undefined or a falsy placeholder in the source). */
  datatype Option<+T> = None | Some(value: T) {
    function GetOr(default: T): T {
      match this
      case Some(v) => v
      case None => default
    }
  }

  /** The outcome of a query or request that either yields a value or fails with an error. */
  datatype Result<+R, +E> = Success(value: R) | Failure(error: E)

  /** The outcome of a side effect that carries no value. */
  datatype Outcome<+E> = Pass | Fail(error: E)
}
