/** Small failure-carrying datatypes shared by every module of the model. */
module Basics {

  /** A value that may be absent: a nullable column or a `null` return. */
  datatype Option<+T> = None | Some(value: T) {

    /** The carried value, or `default` when absent. */
    function GetOr(default: T): T {
      match this
      case Some(v) => v
      case None => default
    }
  }

  /** Either a value or the error that prevented it (a thrown exception). */
  datatype Result<+R, +E> = Success(value: R) | Failure(error: E)

  /** The smaller of two amounts (`Math.min`). */
  function Min(a: real, b: real): (m: real)
    ensures m <= a && m <= b
    ensures m == a || m == b
  {
    if a <= b then a else b
  }
}
