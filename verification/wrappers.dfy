/** Failure-carrying values used across the model: an absent value and a result-or-error. */
module Wrappers {

  /** A value that may be missing: JavaScript's `null`/`undefined`, Python's `None`. */
  datatype Option<+T> = None | Some(value: T) {

    /** The wrapped value, or `default` when there is none (JavaScript's `x || default`). */
    function GetOr(default: T): T {
      match this
      case Some(v) => v
      case None => default
    }
  }

  /** The outcome of an HTTP handler: a response body or the error it raises. */
  datatype Result<+R, +E> = Success(value: R) | Failure(error: E)
}
