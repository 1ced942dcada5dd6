/**
  The template helpers' integer time: a count of one-millisecond ticks since
  1970-01-01 00:00 UTC, leap seconds excluded, and its conversions from Unix
  nanoseconds and to a wall-clock instant.
 */
module TickTime {
  import opened GoInt

  /** `minimumTick`, the time resolution, is one millisecond; in nanoseconds. */
  const MinimumTick: int := 1_000_000

  /** `nanosPerTick`: `minimumTick / time.Nanosecond`. */
  const NanosPerTick: int := MinimumTick / 1

  const NanosPerSecond: int := 1_000_000_000

  /** `second`: how many ticks make a second, `time.Second / minimumTick`. */
  const Second: int := NanosPerSecond / MinimumTick

  /** Go's `Time`: milliseconds since the epoch, held in an `int64`. */
  newtype Time = int64

  /**
    `TimeFromUnixNano(t)`: the tick count of `t` nanoseconds, truncated toward
    zero, so a partial millisecond before or after the epoch is dropped.
   */
  function TimeFromUnixNano(t: int64): (r: Time)
    ensures 0 <= t ==> 0 <= t as int - r as int * NanosPerTick < NanosPerTick
    ensures t < 0 ==> -NanosPerTick < t as int - r as int * NanosPerTick <= 0
  {
    Quot(t as int, NanosPerTick) as Time
  }

  /** The two arguments `Time.Time()` hands to `time.Unix`: seconds and nanoseconds. */
  datatype UnixArgs = UnixArgs(sec: int64, nsec: int64)

  /**
    The arguments `Time.Time()` passes to `time.Unix`: the whole seconds of `t`
    and the rest in nanoseconds, both truncated as Go divides.
   */
  function UnixArgsOf(t: Time): (u: UnixArgs)
    ensures u.sec as int * NanosPerSecond + u.nsec as int == t as int * NanosPerTick
    ensures -NanosPerSecond < u.nsec as int < NanosPerSecond
    ensures 0 <= t ==> 0 <= u.nsec
    ensures t <= 0 ==> u.nsec <= 0
  {
    assert Second == 1000 && NanosPerTick == 1_000_000;
    var sec := Quot(t as int, Second);
    var rem := Rem(t as int, Second);
    var nsec := rem * NanosPerTick;
    assert t as int == 1000 * sec + rem;
    assert t as int * 1_000_000 == sec * 1_000_000_000 + rem * 1_000_000;
    UnixArgs(sec as int64, nsec as int64)
  }

  /** A wall-clock instant as Go's `time.Time` keeps it: seconds and a nanosecond part in [0, 1e9). */
  datatype Instant = Instant(sec: int, nsec: int)

  /**
    `time.Unix(sec, nsec)` from Go's standard library: the same instant with the
    nanoseconds brought into [0, 1e9) by moving whole seconds.
   */
  function Unix(sec: int64, nsec: int64): (i: Instant)
    ensures i.sec * NanosPerSecond + i.nsec == sec as int * NanosPerSecond + nsec as int
    ensures 0 <= i.nsec < NanosPerSecond
  {
    if nsec < 0 || nsec as int >= NanosPerSecond then
      var n := Quot(nsec as int, NanosPerSecond);
      var s, ns := sec as int + n, nsec as int - n * NanosPerSecond;
      if ns < 0 then Instant(s - 1, ns + NanosPerSecond) else Instant(s, ns)
    else
      Instant(sec as int, nsec as int)
  }

  /** Nanoseconds since the epoch at an instant. */
  function UnixNano(i: Instant): int {
    i.sec * NanosPerSecond + i.nsec
  }

  /** `Time.Time()`: the instant `t` milliseconds after the epoch. */
  function TimeOf(t: Time): (i: Instant)
    ensures UnixNano(i) == t as int * NanosPerTick
    ensures 0 <= i.nsec < NanosPerSecond
  {
    var u := UnixArgsOf(t);
    Unix(u.sec, u.nsec)
  }

  /**
    Converting a tick count to wall-clock time and the result back to ticks
    gives the tick count back: the conversion loses nothing.
   */
  lemma TimeRoundTrip(t: Time)
    ensures Quot(UnixNano(TimeOf(t)), NanosPerTick) == t as int
    ensures var u := UnixArgsOf(t); Quot(u.sec as int * NanosPerSecond + u.nsec as int, NanosPerTick) == t as int
  {
  }

  /** The same round trip through `TimeFromUnixNano`, when the nanosecond count fits in an `int64`. */
  lemma TimeFromUnixNanoOfTime(t: Time)
    requires t as int * NanosPerTick < 0x8000_0000_0000_0000
    requires t as int * NanosPerTick >= -0x8000_0000_0000_0000
    ensures TimeFromUnixNano((t as int * NanosPerTick) as int64) == t
  {
  }

  /**
    The instant `humanizeTimestamp` renders for `ns` nanoseconds
    (`TimeFromUnixNano(ns).Time()`): `ns` cut to a whole millisecond toward
    zero, so it lies less than a millisecond from `ns`, on the epoch's side.
   */
  function TimestampInstant(ns: int64): (i: Instant)
    ensures Rem(UnixNano(i), NanosPerTick) == 0
    ensures 0 <= ns ==> 0 <= ns as int - UnixNano(i) < NanosPerTick
    ensures ns < 0 ==> -NanosPerTick < ns as int - UnixNano(i) <= 0
    ensures 0 <= i.nsec < NanosPerSecond
  {
    var t := TimeFromUnixNano(ns);
    var i := TimeOf(t);
    assert UnixNano(i) == t as int * NanosPerTick;
    QuotOfMultiple(t as int, NanosPerTick);
    i
  }
}
