/** Optional values and success/failure results, used for the optional fields of
    the protocol messages and for the scanner's outcome. */
module Wrappers {

  /** A field that may be absent (`undefined` in the protocol's JSON objects). */
  datatype Option<+T> = None | Some(value: T) {

    /** The value, or `default` when absent. */
    function GetOr(default: T): T {
      match this
      case Some(v) => v
      case None => default
    }
  }

  /** The outcome of an asynchronous call that either resolves or rejects. */
  datatype Result<+R, +E> = Success(value: R) | Failure(error: E)
}
