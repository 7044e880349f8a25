/** Option and Result: JavaScript's null / value and a thrown error / value. */
module Wrappers {

  /** A value that may be absent (`null` or `undefined` in the source). */
  datatype Option<+T> = None | Some(value: T) {
    function GetOr(default: T): T {
      match this
      case Some(v) => v
      case None => default
    }
  }

  /** The outcome of an operation that may throw: the value or the error message. */
  datatype Result<+T> = Success(value: T) | Failure(error: string)
}
