/**
 * Small wrappers used across the model: `Option` for a
 * JavaScript value that may be `undefined`, `Result` for a call that either
 * returns or throws, and `Outcome` for a `void` call that may throw.
 */
module Wrappers {

  datatype Option<+T> = None | Some(value: T) {
    /** The value, or `default` when absent (JavaScript's `x || default` for a non-falsy x). */
    function GetOr(default: T): T {
      if Some? then value else default
    }
  }

  datatype Result<+R, +E> = Success(value: R) | Failure(error: E)

  datatype Outcome<+E> = Pass | Fail(error: E)
}
