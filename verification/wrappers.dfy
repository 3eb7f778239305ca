/** Optional values and fallible results shared by every module of the model. */
module Wrappers {

  /** A value that may be absent: Python's `None` or a missing dictionary key. */
  datatype Option<+T> = None | Some(value: T) {
    function GetOr(default: T): (r: T)
      ensures Some? ==> r == value
      ensures None? ==> r == default
    {
      match this
      case Some(v) => v
      case None => default
    }
  }

  /** The outcome of an operation that may raise: `Success` or the raised error. */
  datatype Result<+R, +E> = Success(value: R) | Failure(error: E)

  /**
    * Python truthiness of an optional string: `None` and `""` are both false.
    * Form fields and JSON values read with `.get(...)` are tested this way.
    */
  predicate Present(s: Option<string>)
  {
    s.Some? && s.value != ""
  }
}
