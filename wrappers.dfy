/** Option, Result and Outcome in the style used throughout the model: Java's
    nullable references become Option, thrown exceptions become Failure. */
module Wrappers {

  datatype Option<+T> = None | Some(value: T) {
    function GetOr(default: T): T {
      match this
      case Some(v) => v
      case None => default
    }
  }

  datatype Result<+R, +E> = Success(value: R) | Failure(error: E)

  /** The result of a Java method declared `void` that may throw. */
  datatype Outcome<+E> = Pass | Fail(error: E)
}
