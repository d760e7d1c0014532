/** Failure-carrying datatypes shared by the whole model. */
module Wrappers {

  /** A value that may be missing (a JavaScript `undefined` or `null`). */
  datatype Option<+T> = None | Some(value: T) {

    /** The wrapped value, or `default` when there is none (Mongoose's schema defaults). */
    function GetOr(default: T): T {
      match this
      case Some(v) => v
      case None => default
    }
  }

  /** The outcome of an action: a value, or the error it throws. */
  datatype Result<+T, +E> = Success(value: T) | Failure(error: E)

  /** A request body after `JSON.parse` / `req.json()`: either it could not be parsed or it holds a value. */
  datatype Payload<+T> = Unparseable | Parsed(value: T)
}
