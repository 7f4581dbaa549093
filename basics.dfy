/** Small value types shared by every part of the model. */
module Basics {

  /** A value that may be absent: a dictionary key that is not there, a SQL NULL,
      a query that found no row. */
  datatype Option<T> = None | Some(value: T) {
    function GetOr(default: T): T {
      match this
      case Some(v) => v
      case None => default
    }
  }

  /** Calendar dates are day numbers (days since 1970-01-01) and points in time are
      seconds since 1970-01-01 00:00:00. */
  type Day = int
  type Seconds = int

  const SecondsPerDay: int := 86400

  /** The calendar date of a point in time (Python's `datetime.date()`). */
  function DayOf(t: Seconds): (d: Day)
    ensures d * SecondsPerDay <= t < (d + 1) * SecondsPerDay
  {
    t / SecondsPerDay
  }

  function Max(a: int, b: int): int { if a >= b then a else b }
  function Min(a: int, b: int): int { if a <= b then a else b }
  function MinReal(a: real, b: real): real { if a <= b then a else b }
  function MaxReal(a: real, b: real): real { if a >= b then a else b }

  /** Python's `int(x)` on a float: the integer part, rounding toward zero. */
  function Trunc(x: real): (n: int)
    ensures x >= 0.0 ==> n >= 0 && n as real <= x < n as real + 1.0
    ensures x < 0.0 ==> n <= 0 && n as real - 1.0 < x <= n as real
  {
    if x >= 0.0 then x.Floor else -((-x).Floor)
  }
}
