/** Optional values and success-or-failure values, used for the optional keys of a
    device record and for the outcome of generating the table. */
module Wrappers {

  /** A key that may be absent from a mapping. */
  datatype Option<+T> = None | Some(value: T) {

    /** The value when present, the given default otherwise (a mapping's `get(key, default)`). */
    function GetOr(default: T): (r: T)
      ensures Some? ==> r == value
      ensures None? ==> r == default
    {
      match this
      case Some(v) => v
      case None => default
    }
  }

  /** Either a computed value or the error that stopped the computation. */
  datatype Result<+R, +E> = Success(value: R) | Failure(error: E)
}
