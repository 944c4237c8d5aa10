/** Option and Result, the two wrappers the model uses for JavaScript's
    `undefined` and for operations that throw. */
module Wrappers {

  /** `None` stands for JavaScript's `undefined`: an absent argument, an
      absent property, or a function that returned nothing. */
  datatype Option<+T> = None | Some(value: T) {
    function GetOr(default: T): T {
      match this
      case Some(v) => v
      case None => default
    }
  }

  /** The outcome of an operation that either returns a value or throws. */
  datatype Result<+R, +E> = Success(value: R) | Failure(error: E)
}
