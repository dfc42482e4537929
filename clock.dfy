/** Time as the agenda code uses it. An instant is a whole number of minutes
    since 1970-01-01T00:00Z. The browser's local wall clock differs from UTC by
    the timezone offset, which JavaScript's `getTimezoneOffset` reports as
    UTC minus local time, in minutes. Day, hour and weekday of a wall-clock
    value are derived by floor division, as the `Date` getters do. */
module Clock {

  /** The local wall-clock reading of a UTC instant. */
  function LocalWall(instant: int, tzOffset: int): int {
    instant - tzOffset
  }

  /** The UTC instant whose local wall-clock reading is `wall`. */
  function InstantOf(wall: int, tzOffset: int): (instant: int)
    ensures LocalWall(instant, tzOffset) == wall
  {
    wall + tzOffset
  }

  /** The calendar-day number (days since 1970-01-01) of a wall-clock value. */
  function DayNumber(wall: int): int {
    wall / 1440
  }

  /** Midnight of the day holding `wall` (`setHours(0, 0, 0, 0)`). */
  function Midnight(wall: int): (m: int)
    ensures DayNumber(m) == DayNumber(wall)
    ensures m <= wall < m + 1440
    ensures m % 1440 == 0
  {
    DayNumber(wall) * 1440
  }

  /** `getHours()`. */
  function HourOf(wall: int): (h: int)
    ensures 0 <= h < 24
  {
    (wall % 1440) / 60
  }

  /** `getMinutes()`. */
  function MinuteOf(wall: int): (m: int)
    ensures 0 <= m < 60
  {
    wall % 60
  }

  /** `getDay()`: 0 is Sunday, 1 Monday, ..., 6 Saturday; 1970-01-01 was a Thursday. */
  function Weekday(wall: int): (d: int)
    ensures 0 <= d < 7
  {
    (DayNumber(wall) + 4) % 7
  }

  /** Day number and time of day are the quotient and remainder of a wall-clock
      value by the length of a day. */
  lemma DayParts(day: int, t: int)
    requires 0 <= t < 1440
    ensures (day * 1440 + t) / 1440 == day && (day * 1440 + t) % 1440 == t
  {
  }

  lemma HourParts(k: int, b: int)
    requires 0 <= b < 60
    ensures (k * 60 + b) / 60 == k && (k * 60 + b) % 60 == b
  {
  }

  /** The wall-clock value `minutes` into day number `day` reads as that day, hour and minute. */
  lemma WallOfDay(day: int, minutes: int)
    requires 0 <= minutes < 1440
    ensures DayNumber(day * 1440 + minutes) == day
    ensures HourOf(day * 1440 + minutes) == minutes / 60
    ensures MinuteOf(day * 1440 + minutes) == minutes % 60
  {
    DayParts(day, minutes);
    var h, m := minutes / 60, minutes % 60;
    assert day * 1440 + minutes == (day * 24 + h) * 60 + m;
    HourParts(day * 24 + h, m);
  }

  /** Adding whole days moves the day number by that many days and keeps the hour. */
  lemma AddDays(wall: int, n: int)
    ensures DayNumber(wall + n * 1440) == DayNumber(wall) + n
    ensures HourOf(wall + n * 1440) == HourOf(wall)
    ensures MinuteOf(wall + n * 1440) == MinuteOf(wall)
    ensures Weekday(wall + n * 1440) == (Weekday(wall) + n) % 7
  {
    var q, r := wall / 1440, wall % 1440;
    assert wall == q * 1440 + r;
    assert wall + n * 1440 == (q + n) * 1440 + r;
    WallOfDay(q, r);
    WallOfDay(q + n, r);
    WeekdayShift(q, n);
  }

  lemma WeekdayShift(q: int, n: int)
    ensures (q + n + 4) % 7 == ((q + 4) % 7 + n) % 7
  {
    var a := (q + 4) / 7;
    assert q + n + 4 == a * 7 + ((q + 4) % 7 + n);
    assert (a * 7 + ((q + 4) % 7 + n)) % 7 == ((q + 4) % 7 + n) % 7;
  }

  /** A whole number of weeks later is the same weekday. */
  lemma WeekdayAfterWeeks(wall: int, weeks: int)
    ensures Weekday(wall + weeks * (7 * 1440)) == Weekday(wall)
  {
    assert weeks * (7 * 1440) == (7 * weeks) * 1440;
    AddDays(wall, 7 * weeks);
    var w := Weekday(wall);
    assert (w + 7 * weeks) % 7 == w;
  }

  /** A time of day added to a midnight is read back as that hour and minute of the same day. */
  lemma AtTimeOfDay(midnight: int, minutes: int)
    requires midnight % 1440 == 0 && 0 <= minutes < 1440
    ensures DayNumber(midnight + minutes) == DayNumber(midnight)
    ensures HourOf(midnight + minutes) == minutes / 60
    ensures MinuteOf(midnight + minutes) == minutes % 60
  {
    var q := midnight / 1440;
    assert midnight == q * 1440;
    WallOfDay(q, minutes);
    WallOfDay(q, 0);
  }

  /** The wall clock reads hour and minute as the time of day split at 60. */
  lemma WallDecomposition(wall: int)
    ensures wall == Midnight(wall) + HourOf(wall) * 60 + MinuteOf(wall)
  {
    var q, t := wall / 1440, wall % 1440;
    assert wall == q * 1440 + t;
    WallOfDay(q, t);
  }
}
