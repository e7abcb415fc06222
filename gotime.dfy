/**
 * The parts of Go's time.Time that the BigQuery converter inspects: the
 * instant (seconds since January 1 of year 1, 00:00:00 UTC, and
 * nanoseconds), the zone offset of its location, the zero test and the
 * wall-clock fields read in that location.
 */
module GoTime {

  type Nanos = x: int | 0 <= x < 1_000_000_000

  /**
   * `sec` counts seconds from January 1, year 1, 00:00:00 UTC (Go's internal
   * epoch); `offset` is the UTC offset in seconds of the value's location at
   * that instant.
   */
  datatype Time = Time(sec: int, nsec: Nanos, offset: int)

  /** t.IsZero(): the instant January 1, year 1, 00:00:00 UTC, in any location. */
  predicate IsZero(t: Time) {
    t.sec == 0 && t.nsec == 0
  }

  /** Seconds on the wall clock of the value's location, before reducing to a day. */
  function Local(t: Time): int {
    t.sec + t.offset
  }

  /** t.Hour(). */
  function Hour(t: Time): (h: int)
    ensures 0 <= h < 24
  {
    Local(t) % 86400 / 3600
  }

  /** t.Minute(). */
  function Minute(t: Time): (m: int)
    ensures 0 <= m < 60
  {
    Local(t) % 3600 / 60
  }

  /** t.Second(). */
  function Second(t: Time): (s: int)
    ensures 0 <= s < 60
  {
    Local(t) % 60
  }

  /** t.Nanosecond(). */
  function Nanosecond(t: Time): Nanos {
    t.nsec
  }

  /** t.UTC(): the same instant, read in UTC. */
  function UTC(t: Time): (u: Time)
    ensures u.sec == t.sec && u.nsec == t.nsec && u.offset == 0
  {
    t.(offset := 0)
  }

  /** Hour, minute, second and nanosecond all read 0 in the value's own location. */
  predicate IsMidnight(t: Time) {
    Hour(t) == 0 && Minute(t) == 0 && Second(t) == 0 && Nanosecond(t) == 0
  }

  /** Euclidean division by 3600 and by 60 is determined by quotient and remainder. */
  lemma DivMod3600(x: int, q: int, r: int)
    requires 0 <= r < 3600 && x == q * 3600 + r
    ensures x / 3600 == q && x % 3600 == r
  {
  }

  lemma DivMod60(x: int, q: int, r: int)
    requires 0 <= r < 60 && x == q * 60 + r
    ensures x / 60 == q && x % 60 == r
  {
  }

  /** The wall-clock test is the same as "the local time is a whole number of days". */
  lemma MidnightIffDayBoundary(t: Time)
    ensures IsMidnight(t) <==> Local(t) % 86400 == 0 && t.nsec == 0
  {
    var x := Local(t);
    var c := x % 86400;
    var d := x / 86400;
    var h := c / 3600;
    var r := c % 3600;
    var m := r / 60;
    var s := r % 60;
    assert x == 86400 * d + c;
    assert c == 3600 * h + r;
    assert r == 60 * m + s;
    DivMod3600(x, 24 * d + h, r);
    DivMod60(x, 1440 * d + 60 * h + m, s);
    assert Hour(t) == h && Minute(t) == m && Second(t) == s;
  }

  /** A local reading of exactly 0 seconds and 0 nanoseconds is midnight. */
  lemma LocalZeroIsMidnight(t: Time)
    requires Local(t) == 0 && t.nsec == 0
    ensures IsMidnight(t)
  {
  }

  /** The zero time reads as midnight in UTC, so the zero test has to come first. */
  lemma ZeroIsMidnightInUTC(t: Time)
    requires IsZero(t)
    ensures IsMidnight(UTC(t))
  {
    var u := UTC(t);
    assert Local(u) == 0;
    LocalZeroIsMidnight(u);
  }
}
