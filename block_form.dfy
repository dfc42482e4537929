/** The form that blocks a stretch of a doctor's agenda: its half-hour time
    list, the defaults it fills in when opened, and `handleSubmit`, which reads
    the "YYYY-MM-DD" and "HH:MM" fields as a local date and time, as
    `new Date(year, month - 1, day, hour, minute)` does, and refuses anything
    that is not a non-empty interval. */
module BlockForm {
  import opened Base
  import opened Clock
  import Booking

  /** "HH:MM" for a number of minutes after midnight. */
  function ClockLabel(minutes: nat): string {
    TwoDigits(minutes / 60) + ":" + TwoDigits(minutes % 60)
  }

  /** The minutes after midnight an "HH:MM" label stands for. */
  function TimeOfDay(time: string): Option<int> {
    var hm := ParseTime(time);
    if hm.0.Some? && hm.1.Some? then Some(hm.0.value * 60 + hm.1.value) else None
  }

  lemma ClockLabelTimeOfDay(minutes: nat)
    ensures TimeOfDay(ClockLabel(minutes)) == Some(minutes as int)
  {
    ParseClockLabel(minutes / 60, minutes % 60);
  }

  const GridLength: nat := 23

  /** The list [f(0), ..., f(n - 1)], built by appending. */
  function Tabulate<T>(f: nat -> T, n: nat): (s: seq<T>)
    ensures |s| == n
  {
    if n == 0 then [] else Tabulate(f, n - 1) + [f(n - 1)]
  }

  lemma {:induction false} TabulateEntry<T>(f: nat -> T, n: nat, k: nat)
    requires k < n
    ensures Tabulate(f, n)[k] == f(k)
  {
    if k < n - 1 {
      TabulateEntry(f, n - 1, k);
    }
  }

  /** Entry k of the time list: 08:00 plus k half hours. */
  function Slot(k: nat): string {
    ClockLabel(480 + 30 * k)
  }

  /** The first `n` entries of the half-hour time list, from 08:00 on. */
  function Grid(n: nat): (g: seq<string>)
    ensures |g| == n
  {
    Tabulate(Slot, n)
  }

  /** Entry k of the time list reads back as 08:00 plus k half hours. */
  lemma GridEntryTime(n: nat, k: nat)
    requires k < n
    ensures TimeOfDay(Grid(n)[k]) == Some(480 + 30 * k)
  {
    TabulateEntry(Slot, n, k);
    ClockLabelTimeOfDay(480 + 30 * k);
  }

  /** The time list of the form: two entries per hour from 08 to 18, then 19:00. */
  method BuildTimeSlots() returns (slots: seq<string>)
    ensures slots == Grid(GridLength)
  {
    slots := [];
    var i := 8;
    while i < 19
      invariant 8 <= i <= 19
      invariant slots == Grid(2 * (i - 8))
    {
      GridHour(i, |slots|);
      slots := slots + [TwoDigits(i) + ":00", TwoDigits(i) + ":30"];
      i := i + 1;
    }
    LastGridLabel();
    slots := slots + ["19:00"];
  }

  lemma PaddedZero()
    ensures TwoDigits(0) == "00"
  {
  }

  lemma PaddedThirty()
    ensures TwoDigits(30) == "30"
  {
  }

  lemma Nineteen()
    ensures TwoDigits(19) == "19"
  {
  }

  lemma LastGridLabel()
    ensures ClockLabel(480 + 30 * 22) == "19:00"
  {
    OnTheHourLabel(480 + 30 * 22, 19);
    Nineteen();
  }

  /** The time list runs from 08:00 to 19:00 in steps of thirty minutes. */
  lemma TimeSlotValues(k: nat)
    requires k < GridLength
    ensures TimeOfDay(Grid(GridLength)[k]) == Some(480 + 30 * k)
    ensures TimeOfDay(Grid(GridLength)[0]) == Some(8 * 60)
    ensures TimeOfDay(Grid(GridLength)[GridLength - 1]) == Some(19 * 60)
  {
    GridEntryTime(GridLength, k);
    GridEntryTime(GridLength, 0);
    GridEntryTime(GridLength, GridLength - 1);
  }

  /** The two entries the loop adds for hour `h`, at positions 2 * (h - 8) and the next. */
  lemma GridEntries(h: nat, n: nat)
    requires n == 2 * (h - 8)
    ensures ClockLabel(480 + 30 * n) == TwoDigits(h) + ":00"
    ensures ClockLabel(480 + 30 * (n + 1)) == TwoDigits(h) + ":30"
  {
    OnTheHourLabel(480 + 30 * n, h);
    HalfPastLabel(480 + 30 * (n + 1), h);
  }

  lemma GridTwoMore(n: nat, a: string, b: string)
    requires ClockLabel(480 + 30 * n) == a && ClockLabel(480 + 30 * (n + 1)) == b
    ensures Grid(n + 2) == Grid(n) + [a] + [b]
  {
    assert Grid(n + 1) == Grid(n) + [Slot(n)];
    assert Grid(n + 2) == Grid(n + 1) + [Slot(n + 1)];
  }

  lemma GridHour(h: nat, n: nat)
    requires n == 2 * (h - 8)
    ensures Grid(n + 2) == Grid(n) + [TwoDigits(h) + ":00", TwoDigits(h) + ":30"]
  {
    var a, b := TwoDigits(h) + ":00", TwoDigits(h) + ":30";
    GridEntries(h, n);
    GridTwoMore(n, a, b);
    assert Grid(n) + [a] + [b] == Grid(n) + [a, b];
  }

  lemma ClockLabelOf(minutes: nat, h: nat, m: nat)
    requires m < 60 && minutes == h * 60 + m
    ensures ClockLabel(minutes) == TwoDigits(h) + ":" + TwoDigits(m)
  {
    assert minutes / 60 == h && minutes % 60 == m;
  }

  lemma OnTheHourLabel(minutes: nat, h: nat)
    requires minutes == h * 60
    ensures ClockLabel(minutes) == TwoDigits(h) + ":00"
  {
    ClockLabelOf(minutes, h, 0);
    PaddedZero();
  }

  lemma HalfPastLabel(minutes: nat, h: nat)
    requires minutes == h * 60 + 30
    ensures ClockLabel(minutes) == TwoDigits(h) + ":30"
  {
    ClockLabelOf(minutes, h, 30);
    PaddedThirty();
  }

  /** `getFormattedTime`: the two-digit hour, then "00" before half past and "30" after. */
  function FormattedTime(wall: int): string {
    TwoDigits(HourOf(wall)) + ":" + (if MinuteOf(wall) < 30 then "00" else "30")
  }

  /** The time of day of `wall` rounded down to a half hour. */
  function RoundedTimeOfDay(wall: int): (t: nat)
    ensures t % 30 == 0
    ensures t <= wall - Midnight(wall) < t + 30
  {
    WallDecomposition(wall);
    HourOf(wall) * 60 + (if MinuteOf(wall) < 30 then 0 else 30)
  }

  /** The formatted time names the time of day rounded down to a half hour. */
  lemma FormattedTimeRoundsDown(wall: int)
    ensures FormattedTime(wall) == ClockLabel(RoundedTimeOfDay(wall))
  {
    var h := HourOf(wall);
    if MinuteOf(wall) < 30 {
      calc {
        ClockLabel(RoundedTimeOfDay(wall));
        { OnTheHourLabel(RoundedTimeOfDay(wall), h); }
        TwoDigits(h) + ":00";
        TwoDigits(h) + ":" + "00";
      }
    } else {
      calc {
        ClockLabel(RoundedTimeOfDay(wall));
        { HalfPastLabel(RoundedTimeOfDay(wall), h); }
        TwoDigits(h) + ":30";
        TwoDigits(h) + ":" + "30";
      }
    }
  }

  // ---------------------------------------------------------------------------
  // The `Date` constructor on local components.

  /** The largest magnitude of a `Date` time value, 8.64e15 milliseconds, in minutes. */
  const MaxTimeValue: int := 144_000_000_000

  /** The day number (days since 1970-01-01) of a date of the proleptic Gregorian
      calendar, month 1 to 12; the day may run past the month's end. */
  function DaysFromCivil(y: int, m: int, d: int): int
    requires 1 <= m <= 12
  {
    var y' := if m <= 2 then y - 1 else y;
    var era := y' / 400;
    var yoe := y' - era * 400;
    var mp := if m > 2 then m - 3 else m + 9;
    var doy := (153 * mp + 2) / 5 + d - 1;
    var doe := yoe * 365 + yoe / 4 - yoe / 100 + doy;
    era * 146097 + doe - 719468
  }

  lemma EpochDays()
    ensures DaysFromCivil(1970, 1, 1) == 0
    ensures DaysFromCivil(2024, 5, 11) == 19854
  {
  }

  lemma DaysFromCivilBounds(y: int, m: int, d: int)
    requires 1000 <= y <= 9999 && 1 <= m <= 12 && 1 <= d <= 31
    ensures -500_000 <= DaysFromCivil(y, m, d) <= 3_000_000
  {
    var y' := if m <= 2 then y - 1 else y;
    var era := y' / 400;
    assert 2 <= era <= 24;
    var yoe := y' - era * 400;
    assert 0 <= yoe < 400;
    var mp := if m > 2 then m - 3 else m + 9;
    assert 0 <= (153 * mp + 2) / 5 <= 337;
  }

  /** `MakeDay`: a month index outside 0 to 11 carries into the year. */
  function MakeDay(year: int, monthIndex: int, day: int): int {
    DaysFromCivil(year + monthIndex / 12, monthIndex % 12 + 1, 1) + day - 1
  }

  /** Years 0 to 99 mean 1900 to 1999. */
  function FullYear(y: int): (r: int)
    ensures 0 <= y <= 99 ==> r == 1900 + y
    ensures !(0 <= y <= 99) ==> r == y
  {
    if 0 <= y <= 99 then 1900 + y else y
  }

  /** `new Date(year, monthIndex, day, hours, minutes)` on a clock `tzOffset`
      minutes behind UTC: the instant, or None when the result is NaN (a NaN
      component, or a time value past the limit). */
  function LocalDateTime(year: Option<int>, monthIndex: Option<int>, day: Option<int>,
                         hours: Option<int>, minutes: Option<int>, tzOffset: int): (t: Option<int>)
    ensures t.Some? ==> year.Some? && monthIndex.Some? && day.Some? && hours.Some? && minutes.Some?
    ensures t.Some? ==> -MaxTimeValue <= t.value <= MaxTimeValue
  {
    if year.None? || monthIndex.None? || day.None? || hours.None? || minutes.None? then None
    else
      var wall := MakeDay(FullYear(year.value), monthIndex.value, day.value) * 1440
                  + hours.value * 60 + minutes.value;
      var t := InstantOf(wall, tzOffset);
      if -MaxTimeValue <= t <= MaxTimeValue then Some(t) else None
  }

  /** A date field and a time field read as the form reads them. */
  function ParseInstant(date: string, time: string, tzOffset: int): Option<int> {
    var ymd := ParseDate(date);
    var hm := ParseTime(time);
    var monthIndex := if ymd.1.Some? then Some(ymd.1.value - 1) else None;
    LocalDateTime(ymd.0, monthIndex, ymd.2, hm.0, hm.1, tzOffset)
  }

  /** A date in the four-digit years, a time of day and a real-world offset give
      a time value well inside the limit. */
  lemma LocalDateTimeOfValid(y: int, m: int, d: int, h: int, min: int, tzOffset: int)
    requires 1000 <= y <= 9999 && 1 <= m <= 12 && 1 <= d <= 31 && 0 <= h < 24 && 0 <= min < 60
    requires -1440 < tzOffset < 1440
    ensures LocalDateTime(Some(y), Some(m - 1), Some(d), Some(h), Some(min), tzOffset) ==
            Some(InstantOf(DaysFromCivil(y, m, d) * 1440 + h * 60 + min, tzOffset))
  {
    DaysFromCivilBounds(y, m, d);
    MakeDayOfMonth(y, m, d);
  }

  /** A month index 0 to 11 names month 1 to 12 of the same year. */
  lemma MakeDayOfMonth(y: int, m: int, d: int)
    requires 1000 <= y <= 9999 && 1 <= m <= 12
    ensures MakeDay(FullYear(y), m - 1, d) == DaysFromCivil(y, m, d)
  {
    assert (m - 1) / 12 == 0 && (m - 1) % 12 == m - 1;
    assert DaysFromCivil(y, m, 1) + d - 1 == DaysFromCivil(y, m, d);
  }

  lemma ParseInstantOfParts(date: string, time: string, tzOffset: int,
                            y: int, m: int, d: int, h: int, min: int)
    requires ParseDate(date) == (Some(y), Some(m), Some(d))
    requires ParseTime(time) == (Some(h), Some(min))
    ensures ParseInstant(date, time, tzOffset) == LocalDateTime(Some(y), Some(m - 1), Some(d), Some(h), Some(min), tzOffset)
  {
  }

  lemma ClockLabelParses(minutes: nat)
    ensures ParseTime(ClockLabel(minutes)) == (Some(minutes / 60), Some(minutes % 60))
  {
    ParseClockLabel(minutes / 60, minutes % 60);
  }

  /** A four-digit date and a time label are read back as that local date and time. */
  lemma ParseInstantOfLabels(y: nat, m: nat, d: nat, minutes: nat, tzOffset: int)
    requires 1000 <= y <= 9999 && 1 <= m <= 12 && 1 <= d <= 31 && minutes < 1440
    requires -1440 < tzOffset < 1440
    ensures ParseInstant(DateLabel(y, m, d), ClockLabel(minutes), tzOffset) ==
            Some(InstantOf(DaysFromCivil(y, m, d) * 1440 + minutes, tzOffset))
  {
    ParseDateLabel(y, m, d);
    ClockLabelParses(minutes);
    ParseInstantOfParts(DateLabel(y, m, d), ClockLabel(minutes), tzOffset, y, m, d, minutes / 60, minutes % 60);
    LocalDateTimeOfValid(y, m, d, minutes / 60, minutes % 60, tzOffset);
  }

  /** Date and time fields that split into a valid date and time of day are read
      back on the wall clock as that day, hour and minute. */
  lemma ParsedInstantReadsBack(date: string, time: string, tzOffset: int, y: int, m: int, d: int, h: int, min: int)
    requires ParseDate(date) == (Some(y), Some(m), Some(d)) && ParseTime(time) == (Some(h), Some(min))
    requires 1000 <= y <= 9999 && 1 <= m <= 12 && 1 <= d <= 31 && 0 <= h < 24 && 0 <= min < 60
    requires -1440 < tzOffset < 1440
    ensures ParseInstant(date, time, tzOffset).Some?
    ensures var wall := LocalWall(ParseInstant(date, time, tzOffset).value, tzOffset);
            DayNumber(wall) == DaysFromCivil(y, m, d) && HourOf(wall) == h && MinuteOf(wall) == min
  {
    ParseInstantOfParts(date, time, tzOffset, y, m, d, h, min);
    LocalDateTimeOfValid(y, m, d, h, min, tzOffset);
    WallOfDay(DaysFromCivil(y, m, d), h * 60 + min);
    assert (h * 60 + min) / 60 == h && (h * 60 + min) % 60 == min;
  }

  // ---------------------------------------------------------------------------
  // Submitting the form.

  datatype BlockOutcome =
    | Incomplete          // alert: "Por favor, complete todos los campos de fecha y hora."
    | InvalidDate         // alert: "Formato de fecha u hora inválido."
    | EndNotAfterStart    // alert: "La hora de finalización debe ser posterior a la hora de inicio."
    | Sent(request: Booking.BlockRequest)

  /** The outcome of `handleSubmit` for the given fields. */
  function BlockSubmission(doctorId: Option<string>, startDate: string, startTime: string,
                           endDate: string, endTime: string, reason: string, tzOffset: int): (o: BlockOutcome)
    ensures o.Incomplete? <==> doctorId.None? || doctorId.value == "" || startDate == "" || startTime == "" ||
                               endDate == "" || endTime == ""
    ensures o.InvalidDate? <==> !o.Incomplete? &&
                                (ParseInstant(startDate, startTime, tzOffset).None? ||
                                 ParseInstant(endDate, endTime, tzOffset).None?)
    ensures o.Sent? ==> o.request.start == ParseInstant(startDate, startTime, tzOffset) &&
                        o.request.end == ParseInstant(endDate, endTime, tzOffset)
    ensures o.Sent? ==> o.request.start.Some? && o.request.end.Some? && o.request.start.value < o.request.end.value
    ensures o.Sent? ==> o.request.doctorId == doctorId.value && o.request.reason == Some(reason)
  {
    if doctorId.None? || doctorId.value == "" || startDate == "" || startTime == "" || endDate == "" || endTime == "" then
      Incomplete
    else
      var s := ParseInstant(startDate, startTime, tzOffset);
      var e := ParseInstant(endDate, endTime, tzOffset);
      if s.None? || e.None? then InvalidDate
      else if e.value <= s.value then EndNotAfterStart
      else Sent(Booking.BlockRequest(doctorId.value, s, e, Some(reason)))
  }

  /** Whatever the form sends passes the server's field check, and the stored
      block is a non-empty interval. */
  lemma SentBlockStored(doctorId: Option<string>, startDate: string, startTime: string,
                        endDate: string, endTime: string, reason: string, tzOffset: int, newId: string)
    requires BlockSubmission(doctorId, startDate, startTime, endDate, endTime, reason, tzOffset).Sent?
    ensures var req := BlockSubmission(doctorId, startDate, startTime, endDate, endTime, reason, tzOffset).request;
            var r := Booking.Block(req, newId, None);
            r.Ok? && r.value.start < r.value.end
  {
  }

  /** The formatted time splits into the hour and the rounded-down minutes. */
  lemma FormattedTimeParses(wall: int)
    ensures FormattedTime(wall) != ""
    ensures ParseTime(FormattedTime(wall)) == (Some(HourOf(wall)), Some(RoundedTimeOfDay(wall) % 60))
    ensures RoundedTimeOfDay(wall) == HourOf(wall) * 60 + RoundedTimeOfDay(wall) % 60
  {
    var r := RoundedTimeOfDay(wall);
    assert FormattedTime(wall) == ClockLabel(r) by {
      FormattedTimeRoundsDown(wall);
    }
    assert ParseTime(ClockLabel(r)) == (Some(r / 60), Some(r % 60)) by {
      ClockLabelParses(r);
    }
    assert r / 60 == HourOf(wall);
  }

  /** A date field holding a valid day, with a formatted time, is read as that
      day at the rounded-down time. */
  lemma DefaultFieldInstant(date: string, wall: int, tzOffset: int, y: int, m: int, d: int)
    requires ParseDate(date) == (Some(y), Some(m), Some(d))
    requires 1000 <= y <= 9999 && 1 <= m <= 12 && 1 <= d <= 31
    requires -1440 < tzOffset < 1440
    ensures FormattedTime(wall) != ""
    ensures ParseInstant(date, FormattedTime(wall), tzOffset) ==
            Some(InstantOf(DaysFromCivil(y, m, d) * 1440 + RoundedTimeOfDay(wall), tzOffset))
  {
    var r := RoundedTimeOfDay(wall) % 60;
    FormattedTimeParses(wall);
    ParseInstantOfParts(date, FormattedTime(wall), tzOffset, y, m, d, HourOf(wall), r);
    LocalDateTimeOfValid(y, m, d, HourOf(wall), r, tzOffset);
  }

  /** An hour later, the rounded time of day is an hour later, except in the last
      hour of the day, where it wraps to just after midnight. */
  lemma RoundedHourLater(wall: int)
    ensures HourOf(wall) < 23 ==> RoundedTimeOfDay(wall + 60) == RoundedTimeOfDay(wall) + 60
    ensures HourOf(wall) == 23 ==> RoundedTimeOfDay(wall + 60) == RoundedTimeOfDay(wall) - 23 * 60
  {
    var day, t := wall / 1440, wall % 1440;
    assert wall == day * 1440 + t;
    if t < 1380 {
      WallOfDay(day, t);
      WallOfDay(day, t + 60);
      assert wall + 60 == day * 1440 + (t + 60);
    } else {
      WallOfDay(day, t);
      WallOfDay(day + 1, t - 1380);
      assert wall + 60 == (day + 1) * 1440 + (t - 1380);
    }
  }

  /** What the fields filled in on opening submit to, when both date fields hold
      the valid day y-m-d: a one-hour block from the current time rounded down to
      a half hour on that day, except in the last hour of the local day, where
      the end time wraps to 00:xx and the form is refused. */
  lemma OpenedDefaultsSubmission(now: int, tzOffset: int, date: string, y: int, m: int, d: int,
                                 doctorId: string, reason: string)
    requires ParseDate(date) == (Some(y), Some(m), Some(d))
    requires 1000 <= y <= 9999 && 1 <= m <= 12 && 1 <= d <= 31 && doctorId != ""
    requires -1440 < tzOffset < 1440
    ensures var local := LocalWall(now, tzOffset);
            var o := BlockSubmission(Some(doctorId), date, FormattedTime(local), date, FormattedTime(local + 60),
                                     reason, tzOffset);
            var start := InstantOf(DaysFromCivil(y, m, d) * 1440 + RoundedTimeOfDay(local), tzOffset);
            (HourOf(local) < 23 ==>
               o == Sent(Booking.BlockRequest(doctorId, Some(start), Some(start + 60), Some(reason)))) &&
            (HourOf(local) == 23 ==> o.EndNotAfterStart?)
  {
    var local := LocalWall(now, tzOffset);
    var day := DaysFromCivil(y, m, d);
    var start := InstantOf(day * 1440 + RoundedTimeOfDay(local), tzOffset);
    var end := InstantOf(day * 1440 + RoundedTimeOfDay(local + 60), tzOffset);
    OpenedFieldsSubmission(date, local, tzOffset, y, m, d, doctorId, reason);
    if HourOf(local) < 23 {
      assert end == start + 60 by { RoundedHourLater(local); }
    } else {
      assert end < start by { RoundedHourLater(local); }
    }
  }

  /** Both opened time fields, on the date field's day, read back as that day at
      the rounded times of `local` and of an hour later. */
  lemma OpenedFieldsParse(date: string, local: int, tzOffset: int, y: int, m: int, d: int)
    requires ParseDate(date) == (Some(y), Some(m), Some(d))
    requires 1000 <= y <= 9999 && 1 <= m <= 12 && 1 <= d <= 31
    requires -1440 < tzOffset < 1440
    ensures FormattedTime(local) != "" && FormattedTime(local + 60) != ""
    ensures var day := DaysFromCivil(y, m, d);
            ParseInstant(date, FormattedTime(local), tzOffset) ==
              Some(InstantOf(day * 1440 + RoundedTimeOfDay(local), tzOffset)) &&
            ParseInstant(date, FormattedTime(local + 60), tzOffset) ==
              Some(InstantOf(day * 1440 + RoundedTimeOfDay(local + 60), tzOffset))
  {
    DefaultFieldInstant(date, local, tzOffset, y, m, d);
    DefaultFieldInstant(date, local + 60, tzOffset, y, m, d);
  }

  /** The fields as opened, with both dates on y-m-d, parse to the rounded
      times of `local` and of an hour later on that day. */
  lemma OpenedFieldsSubmission(date: string, local: int, tzOffset: int, y: int, m: int, d: int,
                               doctorId: string, reason: string)
    requires ParseDate(date) == (Some(y), Some(m), Some(d))
    requires 1000 <= y <= 9999 && 1 <= m <= 12 && 1 <= d <= 31 && doctorId != ""
    requires -1440 < tzOffset < 1440
    ensures var day := DaysFromCivil(y, m, d);
            var start := InstantOf(day * 1440 + RoundedTimeOfDay(local), tzOffset);
            var end := InstantOf(day * 1440 + RoundedTimeOfDay(local + 60), tzOffset);
            BlockSubmission(Some(doctorId), date, FormattedTime(local), date, FormattedTime(local + 60),
                            reason, tzOffset) ==
              if end <= start then EndNotAfterStart
              else Sent(Booking.BlockRequest(doctorId, Some(start), Some(end), Some(reason)))
  {
    var day := DaysFromCivil(y, m, d);
    var start := InstantOf(day * 1440 + RoundedTimeOfDay(local), tzOffset);
    var end := InstantOf(day * 1440 + RoundedTimeOfDay(local + 60), tzOffset);
    OpenedFieldsParse(date, local, tzOffset, y, m, d);
    assert date != "";
    SubmissionOfInstants(Some(doctorId), date, FormattedTime(local), date, FormattedTime(local + 60),
                         reason, tzOffset, start, end);
  }

  lemma SubmissionOfInstants(doctorId: Option<string>, startDate: string, startTime: string,
                             endDate: string, endTime: string, reason: string, tzOffset: int, start: int, end: int)
    requires doctorId.Some? && doctorId.value != ""
    requires startDate != "" && startTime != "" && endDate != "" && endTime != ""
    requires ParseInstant(startDate, startTime, tzOffset) == Some(start)
    requires ParseInstant(endDate, endTime, tzOffset) == Some(end)
    ensures BlockSubmission(doctorId, startDate, startTime, endDate, endTime, reason, tzOffset) ==
            if end <= start then EndNotAfterStart
            else Sent(Booking.BlockRequest(doctorId.value, Some(start), Some(end), Some(reason)))
  {
  }

  /** What the form submits when sent untouched after opening on `date`. */
  function OpenedSubmission(now: int, tzOffset: int, date: string, doctorId: string): BlockOutcome {
    var local := LocalWall(now, tzOffset);
    BlockSubmission(Some(doctorId), date, FormattedTime(local), date, FormattedTime(local + 60), "", tzOffset)
  }

  /** Where the default block starts relative to `now`: as many days away as the
      day in the date fields is from the local day, less the minutes the time
      was rounded down by; it lasts an hour. */
  lemma DefaultStartOffset(now: int, tzOffset: int, date: string, y: int, m: int, d: int, doctorId: string)
    requires ParseDate(date) == (Some(y), Some(m), Some(d))
    requires 1000 <= y <= 9999 && 1 <= m <= 12 && 1 <= d <= 31 && doctorId != ""
    requires -1440 < tzOffset < 1440
    requires HourOf(LocalWall(now, tzOffset)) < 23
    ensures var local := LocalWall(now, tzOffset);
            var start := InstantOf(DaysFromCivil(y, m, d) * 1440 + RoundedTimeOfDay(local), tzOffset);
            OpenedSubmission(now, tzOffset, date, doctorId) ==
              Sent(Booking.BlockRequest(doctorId, Some(start), Some(start + 60), Some(""))) &&
            start - now ==
              (DaysFromCivil(y, m, d) - DayNumber(local)) * 1440 - (local - Midnight(local) - RoundedTimeOfDay(local))
  {
    OpenedDefaultsSubmission(now, tzOffset, date, y, m, d, doctorId, "");
    StartFromNow(now, tzOffset, DaysFromCivil(y, m, d), RoundedTimeOfDay(LocalWall(now, tzOffset)));
  }

  /** How far a wall-clock time on day `day` lies from `now`, in days and minutes. */
  lemma StartFromNow(now: int, tzOffset: int, day: int, minutes: int)
    ensures var local := LocalWall(now, tzOffset);
            InstantOf(day * 1440 + minutes, tzOffset) - now ==
              (day - DayNumber(local)) * 1440 - (local - Midnight(local) - minutes)
  {
  }

  /** Rounding down to a half hour loses less than thirty minutes. */
  lemma RoundingLoss(wall: int)
    ensures 0 <= wall - Midnight(wall) - RoundedTimeOfDay(wall) < 30
  {
  }

  /** As opened, the date fields hold the UTC calendar day of `now`. The sent
      start then lies as many days away from `now` as the UTC day is away from
      the local day. */
  lemma DefaultStartOnUtcDay(now: int, tzOffset: int, date: string, y: int, m: int, d: int, doctorId: string)
    requires ParseDate(date) == (Some(y), Some(m), Some(d))
    requires 1000 <= y <= 9999 && 1 <= m <= 12 && 1 <= d <= 31 && doctorId != ""
    requires -1440 < tzOffset < 1440
    requires DaysFromCivil(y, m, d) == DayNumber(now)
    requires HourOf(LocalWall(now, tzOffset)) < 23
    ensures var local := LocalWall(now, tzOffset);
            var start := now + (DayNumber(now) - DayNumber(local)) * 1440 - (local - Midnight(local) - RoundedTimeOfDay(local));
            OpenedSubmission(now, tzOffset, date, doctorId) ==
              Sent(Booking.BlockRequest(doctorId, Some(start), Some(start + 60), Some("")))
  {
    DefaultStartOffset(now, tzOffset, date, y, m, d, doctorId);
  }

  /** Mexico City (UTC-06:00, `getTimezoneOffset() == 360`) at 19:10 on
      2024-05-10, which is 01:10 on 2024-05-11 in UTC: the date fields get
      "2024-05-11" and the default block starts at 19:00 on 2024-05-11, almost a
      day later. */
  lemma DefaultStartEveningInMexico()
    ensures var now := 19854 * 1440 + 70;
            OpenedSubmission(now, 360, DateLabel(2024, 5, 11), "d1") ==
              Sent(Booking.BlockRequest("d1", Some(now + 1430), Some(now + 1490), Some("")))
  {
    var now := 19854 * 1440 + 70;
    EpochDays();
    ParseDateLabel(2024, 5, 11);
    WallOfDay(19854, 70);
    WallOfDay(19853, 1150);
    assert LocalWall(now, 360) == 19853 * 1440 + 1150;
    DefaultStartOnUtcDay(now, 360, DateLabel(2024, 5, 11), 2024, 5, 11, "d1");
  }

  /** With the local calendar day in the date fields, the default block starts at
      the current time rounded down to a half hour and lasts an hour. */
  lemma DefaultStartOnLocalDay(now: int, tzOffset: int, date: string, y: int, m: int, d: int, doctorId: string)
    requires ParseDate(date) == (Some(y), Some(m), Some(d))
    requires 1000 <= y <= 9999 && 1 <= m <= 12 && 1 <= d <= 31 && doctorId != ""
    requires -1440 < tzOffset < 1440
    requires DaysFromCivil(y, m, d) == DayNumber(LocalWall(now, tzOffset))
    requires HourOf(LocalWall(now, tzOffset)) < 23
    ensures var local := LocalWall(now, tzOffset);
            var start := InstantOf(DaysFromCivil(y, m, d) * 1440 + RoundedTimeOfDay(local), tzOffset);
            OpenedSubmission(now, tzOffset, date, doctorId) ==
              Sent(Booking.BlockRequest(doctorId, Some(start), Some(start + 60), Some(""))) &&
            now - 30 < start <= now
  {
    RoundingLoss(LocalWall(now, tzOffset));
    DefaultStartOffset(now, tzOffset, date, y, m, d, doctorId);
  }

  class FormState {
    var startDate: string
    var startTime: string
    var endDate: string
    var endTime: string
    var reason: string
    var isLoading: bool

    constructor ()
      ensures startDate == "" && startTime == "" && endDate == "" && endTime == "" && reason == "" && !isLoading
    {
      startDate, startTime, endDate, endTime, reason, isLoading := "", "", "", "", "", false;
    }

    /** The effect that runs when the form opens. `date` is the "YYYY-MM-DD"
        text both date fields get: the form writes the UTC calendar day of `now`
        there (the prefix of `now.toISOString()`; see `DefaultStartOnUtcDay`),
        where the local day was meant (see `DefaultStartOnLocalDay`). */
    method Open(now: int, tzOffset: int, date: string)
      modifies this
      ensures startDate == date && endDate == date
      ensures startTime == FormattedTime(LocalWall(now, tzOffset))
      ensures endTime == FormattedTime(LocalWall(now + 60, tzOffset))
      ensures reason == "" && !isLoading
    {
      var oneHourLater := now + 60;
      startDate := date;
      startTime := FormattedTime(LocalWall(now, tzOffset));
      endDate := date;
      endTime := FormattedTime(LocalWall(oneHourLater, tzOffset));
      reason := "";
      isLoading := false;
    }

    /** `handleSubmit` up to the server call. */
    method HandleSubmit(currentDoctorId: Option<string>, tzOffset: int) returns (o: BlockOutcome)
      modifies this`isLoading
      ensures o == BlockSubmission(currentDoctorId, startDate, startTime, endDate, endTime, reason, tzOffset)
      ensures isLoading == if o.Incomplete? then old(isLoading) else o.Sent?
    {
      if currentDoctorId.None? || currentDoctorId.value == "" || startDate == "" || startTime == "" ||
         endDate == "" || endTime == "" {
        return Incomplete;
      }
      isLoading := true;

      var start := ParseInstant(startDate, startTime, tzOffset);
      var end := ParseInstant(endDate, endTime, tzOffset);
      if start.None? || end.None? {
        isLoading := false;
        return InvalidDate;
      }
      if end.value <= start.value {
        isLoading := false;
        return EndNotAfterStart;
      }
      o := Sent(Booking.BlockRequest(currentDoctorId.value, start, end, Some(reason)));
    }

    /** The server action answered: the form is usable again. */
    method ServerAnswered()
      modifies this`isLoading
      ensures !isLoading
    {
      isLoading := false;
    }
  }
}
