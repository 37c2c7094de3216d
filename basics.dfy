/** Small value types shared by the whole model: optional values, results,
    clock times and naive local datetimes. */
module Basics {

  datatype Option<+T> = None | Some(value: T)

  datatype Result<+R, +E> = Success(value: R) | Failure(error: E)

  type Hour = h: int | 0 <= h < 24
  type Minute = m: int | 0 <= m < 60
  type Second = s: int | 0 <= s < 60

  /** A time of day, as Python's `datetime.time` without microseconds or tzinfo. */
  datatype Time = Time(hour: Hour, minute: Minute, second: Second)

  /** A naive datetime: the proleptic Gregorian day ordinal (`date.toordinal()`)
      and the time of day. */
  datatype DateTime = DateTime(date: int, time: Time)

  /** Strict lexicographic order on times of day. */
  predicate TimeBefore(a: Time, b: Time)
  {
    a.hour < b.hour
    || (a.hour == b.hour && a.minute < b.minute)
    || (a.hour == b.hour && a.minute == b.minute && a.second < b.second)
  }

  /** Strict order on datetimes: by date first, then by time of day. */
  predicate Before(a: DateTime, b: DateTime)
  {
    a.date < b.date || (a.date == b.date && TimeBefore(a.time, b.time))
  }

  /** `Before` is the strict total order of Python's datetime comparison:
      exactly one of a < b, a == b, b < a holds. */
  lemma BeforeTrichotomy(a: DateTime, b: DateTime)
    ensures (Before(a, b) && a != b && !Before(b, a))
         || (a == b && !Before(a, b) && !Before(b, a))
         || (Before(b, a) && a != b && !Before(a, b))
  {
    if a.date == b.date && a.time.hour == b.time.hour && a.time.minute == b.time.minute
       && a.time.second == b.time.second {
      assert a.time == b.time;
    }
  }

  lemma BeforeTransitive(a: DateTime, b: DateTime, c: DateTime)
    requires Before(a, b) && Before(b, c)
    ensures Before(a, c)
  {
  }
}
