/** Optional values and success/failure results, standing in for the
    TypeScript `undefined`/`null` fields and for the thrown errors of the
    dashboard's handlers. */
module Wrappers {

  /** A possibly absent value: `None` models `undefined`/`null`. */
  datatype Option<+T> = None | Some(value: T) {

    /** The value, or `default` when absent (the `x ?? default` idiom). */
    function GetOr(default: T): T {
      match this
      case Some(v) => v
      case None => default
    }
  }

  /** The outcome of a step that may raise an error with a message. */
  datatype Result<+R> = Success(value: R) | Failure(error: string) {

    predicate IsFailure() {
      Failure?
    }
  }
}
