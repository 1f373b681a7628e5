// Small failure-carrying datatypes shared by the other modules: Go's
// nil-or-value pointers and its (value, error) return pairs.
module Wrappers {

  /** A Go pointer or lookup result that may be absent (nil). */
  datatype Option<+T> = None | Some(value: T) {
    function GetOr(default: T): T {
      match this
      case Some(v) => v
      case None => default
    }
  }

  /** A Go `(value, error)` return pair where exactly one side is meaningful. */
  datatype Result<+R, +E> = Success(value: R) | Failure(error: E)
}
