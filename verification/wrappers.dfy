/** The two wrapper types of the model: `Option` for Python's "attribute may
    be missing", `Result` for an operation that may raise. */
module Wrappers {

  datatype Option<+T> = None | Some(value: T) {

    /** The wrapped value, or `default` when there is none (Python's `x or default`
        for a value whose only falsy form is the default itself). */
    function GetOr(default: T): T {
      match this
      case Some(v) => v
      case None => default
    }
  }

  /** Either the value an operation produced, or the error it raised. */
  datatype Result<+T, +E> = Success(value: T) | Failure(error: E)
}
