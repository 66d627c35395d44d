/** Optional values and results shared by every module of the model. */
module Wrappers {

  datatype Option<+T> = None | Some(value: T) {
    /** The carried value, or `fallback` when there is none. */
    function GetOr(fallback: T): T {
      if Some? then value else fallback
    }
  }

  /** A value or the error that prevented it (Go's `(T, error)` pair). */
  datatype Result<+T, +E> = Ok(value: T) | Err(error: E)
}

/** Time as whole Unix seconds; a duration is a difference of two times. */
module Clock {

  type Time = int
  type Duration = int

  const Second: Duration := 1
  const Minute: Duration := 60
  const Hour: Duration := 3600

  /** Go's zero `time.Time` (January 1 of year 1, UTC) in Unix seconds. */
  const ZeroTime: Time := -62135596800

  /** `a.After(b)` of Go's time package. */
  predicate After(a: Time, b: Time) {
    a > b
  }
}
