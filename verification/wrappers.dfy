/** Optional values and results shared by the booking-form model. */
module Wrappers {

  /** A value that may be absent: a missing remote field, or an age input
      whose text does not parse as an integer (JavaScript's NaN). */
  datatype Option<+T> = None | Some(value: T) {

    /** The wrapped value, or `default` when absent (JavaScript's `x || d`
        once falsy values have been mapped to None). */
    function GetOr(default: T): T {
      match this
      case Some(v) => v
      case None => default
    }
  }

  /** Either a computed value or the reason it could not be computed. */
  datatype Result<+R, +E> = Success(value: R) | Failure(error: E)
}
