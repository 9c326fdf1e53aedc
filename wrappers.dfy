/** Option and Result datatypes for absent values and error returns. */
module Wrappers {

  /** A value that may be missing (a Go nil pointer or nil slice, a JavaScript undefined). */
  datatype Option<+T> = None | Some(value: T) {
    function GetOr(default: T): T {
      if Some? then value else default
    }
  }

  /** The outcome of a call that returns either a value or an error. */
  datatype Result<+R, +E> = Success(value: R) | Failure(error: E)
}
