/** Optional values (a JavaScript `undefined` or a missing `find` result) and
    results that may carry an error instead of a value (a thrown error). */
module Wrappers {

  datatype Option<+T> = None | Some(value: T) {
    /** The value, or `default` when absent (JavaScript's default parameters and `||`). */
    function GetOr(default: T): T {
      match this
      case Some(v) => v
      case None => default
    }
  }

  datatype Result<+R, +E> = Success(value: R) | Failure(error: E)
}
