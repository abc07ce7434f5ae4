/** Optional values and results, for the nil pointers and error returns of the modelled Go functions. */
module Wrappers {

  /** A possibly-absent value; the model's stand-in for a Go pointer field that may be nil. */
  datatype Option<+T> = None | Some(value: T) {

    /** The wrapped value, or `default` when absent (go-github's nil-safe getters). */
    function GetOr(default: T): T {
      match this
      case Some(v) => v
      case None => default
    }
  }

  /** A value or an error, standing for Go's `(T, error)` return pairs. */
  datatype Result<+R, +E> = Success(value: R) | Failure(error: E)
}
