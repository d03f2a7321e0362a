/** Instants and clock times. The server runs in UTC, so the local-time
    `Date` constructor and luxon's default zone both read as UTC here. */
module Clock {

  /** Seconds since 1970-01-01T00:00:00Z; milliseconds are not modelled. */
  type Instant = int

  const SecondsPerMinute: int := 60
  const SecondsPerHour: int := 3600
  const SecondsPerDay: int := 86400
  const MinutesPerDay: int := 1440

  /** Africa/Johannesburg keeps UTC+02:00 all year. */
  const JohannesburgOffset: int := 7200

  /** A time of day as the `{ hour, minute }` pairs the services build. */
  datatype DayTime = DayTime(hour: int, minute: int)

  predicate IsClockTime(t: DayTime) {
    0 <= t.hour < 24 && 0 <= t.minute < 60
  }

  /** A time of day that a clock can show. */
  type ClockTime = t: DayTime | IsClockTime(t) witness DayTime(0, 0)

  function MinuteOfDay(t: DayTime): int {
    t.hour * 60 + t.minute
  }

  /** `Date.getUTCDay()`: 0 is Sunday; 1970-01-01 was a Thursday (4). */
  function UtcWeekday(t: Instant): (d: int)
    ensures 0 <= d < 7
  {
    (t / 86400 + 4) % 7
  }

  /** Midnight UTC of the day `t` falls in. */
  function UtcDayStart(t: Instant): (r: Instant)
    ensures r <= t < r + SecondsPerDay
    ensures r % 86400 == 0
  {
    t - t % 86400
  }

  /** `getUTCHours()` and `getUTCMinutes()` of `t`. */
  function UtcClock(t: Instant): (c: DayTime)
    ensures IsClockTime(c)
    ensures UtcDayStart(t) + MinuteOfDay(c) * 60 + t % 60 == t
  {
    var s := t % 86400;
    ClockDecomposition(t);
    DayTime(s / 3600, (s % 3600) / 60)
  }

  /** The seconds of the day split into hours, minutes and seconds. */
  lemma ClockDecomposition(t: Instant)
    ensures var s := t % 86400;
      && s == (s / 3600) * 3600 + ((s % 3600) / 60) * 60 + t % 60
      && 0 <= s / 3600 < 24
      && 0 <= (s % 3600) / 60 < 60
  {
    var s := t % 86400;
    var h, x := s / 3600, s % 3600;
    var m, sec := x / 60, x % 60;
    assert s == h * 3600 + x;
    assert x == m * 60 + sec;
    var q := t / 86400;
    assert t == q * 86400 + s;
    assert t == (q * 1440 + h * 60 + m) * 60 + sec;
    ModOfMultiplePlus(t, q * 1440 + h * 60 + m, sec);
  }

  lemma ModOfMultiplePlus(a: int, q: int, r: int)
    requires a == q * 60 + r && 0 <= r < 60
    ensures a % 60 == r
  {
  }

  function AddMinutes(t: Instant, minutes: int): Instant {
    t + minutes * 60
  }

  /** The instant of `t` with the clock set to `hour:minute`, keeping the UTC
      date and the seconds (luxon `DateTime.set({ hour, minute })`). */
  function SetClock(t: Instant, c: DayTime): (r: Instant)
    requires IsClockTime(c)
    ensures UtcDayStart(r) == UtcDayStart(t)
    ensures UtcClock(r) == c
    ensures r % 60 == t % 60
    ensures r == UtcDayStart(t) + MinuteOfDay(c) * 60 + t % 60
  {
    var r := UtcDayStart(t) + MinuteOfDay(c) * 60 + t % 60;
    SetClockParts(t, c, r);
    r
  }

  /** The clock of `day start + clock time + seconds` reads back as given. */
  lemma SetClockParts(t: Instant, c: DayTime, r: Instant)
    requires IsClockTime(c)
    requires r == UtcDayStart(t) + MinuteOfDay(c) * 60 + t % 60
    ensures UtcDayStart(r) == UtcDayStart(t)
    ensures UtcClock(r) == c
    ensures r % 60 == t % 60
  {
    var sec := t % 60;
    var inDay := MinuteOfDay(c) * 60 + sec;
    DivModDay(r, t / 86400, inDay);
    DivModHour(inDay, c.hour, c.minute * 60 + sec);
    ModOfMultiplePlus(c.minute * 60 + sec, c.minute, sec);
    DivOfMultiplePlus(c.minute * 60 + sec, c.minute, sec);
    ModOfMultiplePlus(r, (t / 86400) * 1440 + MinuteOfDay(c), sec);
  }

  /** A UTC midnight is a whole number of minutes, and so is the next one. */
  lemma MidnightFacts(t: Instant)
    requires t % 86400 == 0
    ensures (t + 86400) % 86400 == 0 && (t + 86400) % 60 == 0
  {
    var q := t / 86400;
    DivModDay(t + 86400, q + 1, 0);
    ModOfMultiplePlus(t + 86400, (q + 1) * 1440, 0);
  }

  lemma DivModDay(x: int, q: int, rem: int)
    requires x == q * 86400 + rem && 0 <= rem < 86400
    ensures x / 86400 == q && x % 86400 == rem
  {
  }

  lemma DivModHour(x: int, q: int, rem: int)
    requires x == q * 3600 + rem && 0 <= rem < 3600
    ensures x / 3600 == q && x % 3600 == rem
  {
  }

  lemma DivOfMultiplePlus(a: int, q: int, r: int)
    requires a == q * 60 + r && 0 <= r < 60
    ensures a / 60 == q
  {
  }

  /** luxon `setZone('Africa/Johannesburg').startOf('day')`, as a UTC instant. */
  function JohannesburgDayStart(t: Instant): (r: Instant)
    ensures r <= t < r + SecondsPerDay
    ensures (r + JohannesburgOffset) % 86400 == 0
  {
    UtcDayStart(t + JohannesburgOffset) - JohannesburgOffset
  }

  /** The calendar day number of `t` in Johannesburg. */
  function JohannesburgDay(t: Instant): int {
    (t + JohannesburgOffset) / 86400
  }

  /** `tstzrange(a, b, '()') && tstzrange(c, d, '()')`: two open ranges share an
      instant; an empty range shares none. */
  predicate OpenRangesOverlap(a: Instant, b: Instant, c: Instant, d: Instant) {
    a < b && c < d && a < d && c < b
  }
}
