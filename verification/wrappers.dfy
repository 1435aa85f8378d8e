/** Failure-carrying datatypes shared by the feed model. */
module Wrappers {

  /** A value that may be absent: JavaScript's `null`/`undefined` on the one side, a value on the other. */
  datatype Option<+T> = None | Some(value: T) {

    /** The value, or `default` when absent (JavaScript's `x || default` for a non-falsy `x`). */
    function GetOr(default: T): T {
      match this
      case Some(v) => v
      case None => default
    }
  }

  /** The settled outcome of an asynchronous server call: the resolved value, or a rejection
      whose error may or may not carry a `message`. */
  datatype Response<+T> = Success(value: T) | Failure(message: Option<string>)
}
