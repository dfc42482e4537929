/** The weekly agenda page: which week is shown, which range is loaded, how
    the loaded events are bucketed into the 7 x 11 grid of day columns and
    hourly slots, and when a slot may be clicked to book. Dates are local
    wall-clock values (see `Clock`); the page holds its current date as a UTC
    instant, as a JavaScript `Date` does. */
module Agenda {
  import opened Base
  import opened Clock
  import opened Sorting
  import opened WeekQuery

  /** The day columns, Monday first. */
  const DaysOfWeek: seq<string> := ["Lunes", "Martes", "Miércoles", "Jueves", "Viernes", "Sábado", "Domingo"]

  /** The hourly row labels, "08:00" through "18:00". */
  function TimeSlots(): (slots: seq<string>)
    ensures |slots| == 11
  {
    seq(11, i requires 0 <= i < 11 => TwoDigits(i + 8) + ":00")
  }

  /** The hour a slot label stands for: `time.split(':').map(Number)[0]`. */
  function SlotHour(time: string): Option<int> {
    ParseTime(time).0
  }

  /** Row i of the grid is the hour 8 + i: 08:00 first, 18:00 last. */
  lemma TimeSlotHours(i: int)
    requires 0 <= i < 11
    ensures SlotHour(TimeSlots()[i]) == Some(8 + i)
  {
    assert TwoDigits(0) == "00";
    assert TimeSlots()[i] == TwoDigits(i + 8) + ":" + TwoDigits(0);
    ParseClockLabel(i + 8, 0);
  }

  /** `getStartOfWeek`: steps back `day - 1` days, or 6 days from a Sunday,
      keeping the time of day. */
  function StartOfWeek(date: int): (monday: int)
    ensures Weekday(monday) == 1
    ensures HourOf(monday) == HourOf(date) && MinuteOf(monday) == MinuteOf(date)
    ensures (date - monday) % 1440 == 0
    ensures 0 <= date - monday < (7 * 1440)
    ensures DayNumber(date) - DayNumber(monday) == (Weekday(date) + 6) % 7
  {
    var day := Weekday(date);
    var diff := -day + (if day == 0 then -6 else 1);
    BackToMonday(date, diff);
    date + diff * 1440
  }

  lemma BackToMonday(date: int, diff: int)
    requires diff == -Weekday(date) + (if Weekday(date) == 0 then -6 else 1)
    ensures Weekday(date + diff * 1440) == 1
    ensures HourOf(date + diff * 1440) == HourOf(date) && MinuteOf(date + diff * 1440) == MinuteOf(date)
    ensures 0 <= -diff < 7
    ensures DayNumber(date) - DayNumber(date + diff * 1440) == (Weekday(date) + 6) % 7
  {
    AddDays(date, diff);
    var w := Weekday(date);
    if w == 0 {
      assert (w + diff) % 7 == 1;
    } else {
      assert w + diff == 1;
    }
  }

  /** Moving the current date by a week moves the week shown by exactly one week. */
  lemma StartOfWeekShift(date: int, weeks: int)
    ensures StartOfWeek(date + weeks * (7 * 1440)) == StartOfWeek(date) + weeks * (7 * 1440)
  {
    WeekdayAfterWeeks(date, weeks);
  }

  /** Every date of a week (Monday to Sunday) has that week's Monday as its start. */
  lemma StartOfWeekSameWeek(monday: int, d: int)
    requires Weekday(monday) == 1 && monday % 1440 == 0
    requires monday <= d < monday + (7 * 1440)
    ensures Midnight(StartOfWeek(d)) == monday
  {
    var k := DayNumber(d) - DayNumber(monday);
    assert 0 <= k < 7;
    AddDays(monday, k);
    assert DayNumber(monday) * 1440 == monday;
    assert Weekday(d) == (1 + k) % 7;
  }

  /** The instants `fetchCalendarEvents` asks for: from Monday 00:00 of the shown
      week, local time, to the Monday 00:00 seven days later. */
  function WeekRange(currentDate: int, tzOffset: int): (range: (int, int))
    ensures range.1 - range.0 == (7 * 1440)
    ensures var monday := LocalWall(range.0, tzOffset);
            Weekday(monday) == 1 && monday % 1440 == 0
    ensures range.0 <= currentDate < range.1
  {
    var start := Midnight(StartOfWeek(LocalWall(currentDate, tzOffset)));
    AddDays(start, 0);
    (InstantOf(start, tzOffset), InstantOf(start, tzOffset) + (7 * 1440))
  }

  /** The wall-clock date of column `dayIndex` (`startOfWeek.getDate() + dayIndex`). */
  function SlotDate(currentWall: int, dayIndex: int): int {
    StartOfWeek(currentWall) + dayIndex * 1440
  }

  /** An event sits in a slot when it starts on the slot's calendar day within
      the slot's hour; its minutes and its end are not looked at. */
  predicate InSlot(e: CalendarEvent, tzOffset: int, slotDate: int, hour: Option<int>) {
    var wall := LocalWall(e.start, tzOffset);
    DayNumber(wall) == DayNumber(slotDate) && hour == Some(HourOf(wall))
  }

  function EventsInSlot(events: seq<CalendarEvent>, tzOffset: int, slotDate: int, hour: Option<int>): (r: seq<CalendarEvent>)
    ensures forall e :: e in r <==> e in events && InSlot(e, tzOffset, slotDate, hour)
    ensures |r| <= |events|
  {
    if events == [] then []
    else
      var rest := EventsInSlot(events[1..], tzOffset, slotDate, hour);
      assert forall e :: e in events <==> e == events[0] || e in events[1..];
      if InSlot(events[0], tzOffset, slotDate, hour) then [events[0]] + rest else rest
  }

  /** `getEventsForSlot`: the slot's appointments followed by its blocked times,
      stably sorted by start. */
  function EventsForSlot(appointments: seq<CalendarEvent>, blockedTimes: seq<CalendarEvent>,
                         tzOffset: int, currentWall: int, dayIndex: int, time: string): (r: seq<CalendarEvent>)
    ensures SortedBy(r, StartOf)
  {
    var slotDate, hour := SlotDate(currentWall, dayIndex), SlotHour(time);
    SortBy(EventsInSlot(appointments, tzOffset, slotDate, hour) + EventsInSlot(blockedTimes, tzOffset, slotDate, hour),
           StartOf)
  }

  /** A slot lists exactly the loaded events that start in it, each as often as
      it was loaded. */
  lemma EventsForSlotContents(appointments: seq<CalendarEvent>, blockedTimes: seq<CalendarEvent>,
                              tzOffset: int, currentWall: int, dayIndex: int, time: string)
    ensures var r := EventsForSlot(appointments, blockedTimes, tzOffset, currentWall, dayIndex, time);
            var slotDate, hour := SlotDate(currentWall, dayIndex), SlotHour(time);
            multiset(r) ==
              multiset(EventsInSlot(appointments, tzOffset, slotDate, hour)) +
              multiset(EventsInSlot(blockedTimes, tzOffset, slotDate, hour)) &&
            forall e :: e in r <==> (e in appointments || e in blockedTimes) && InSlot(e, tzOffset, slotDate, hour)
  {
    var slotDate, hour := SlotDate(currentWall, dayIndex), SlotHour(time);
    var apps := EventsInSlot(appointments, tzOffset, slotDate, hour);
    var blocks := EventsInSlot(blockedTimes, tzOffset, slotDate, hour);
    var r := SortBy(apps + blocks, StartOf);
    forall e
      ensures e in r <==> e in apps + blocks
    {
      SortByMembers(apps + blocks, StartOf, e);
    }
  }

  /** `slotEvents.some(event => event.type === 'blocked')`. */
  predicate SlotBlocked(events: seq<CalendarEvent>) {
    exists e :: e in events && e.BlockedEvent?
  }

  /** A click books only when the slot is not blocked and holds no appointment
      (`slotEvents.filter(e => e.type === 'appointment').length === 0`). */
  predicate SlotClickable(events: seq<CalendarEvent>) {
    !SlotBlocked(events) && forall e :: e in events ==> !e.AppointmentEvent?
  }

  /** Appointments come from the appointment list and blocks from the block list. */
  ghost predicate Tagged(appointments: seq<CalendarEvent>, blockedTimes: seq<CalendarEvent>) {
    (forall e :: e in appointments ==> e.AppointmentEvent?) &&
    (forall e :: e in blockedTimes ==> e.BlockedEvent?)
  }

  /** A slot is shown blocked exactly when some blocked time starts in it. */
  lemma SlotBlockedIff(appointments: seq<CalendarEvent>, blockedTimes: seq<CalendarEvent>,
                       tzOffset: int, currentWall: int, dayIndex: int, time: string)
    requires Tagged(appointments, blockedTimes)
    ensures SlotBlocked(EventsForSlot(appointments, blockedTimes, tzOffset, currentWall, dayIndex, time)) <==>
            exists b :: b in blockedTimes && InSlot(b, tzOffset, SlotDate(currentWall, dayIndex), SlotHour(time))
  {
    EventsForSlotContents(appointments, blockedTimes, tzOffset, currentWall, dayIndex, time);
  }

  /** A slot opens the booking form exactly when no appointment and no blocked
      time starts in it. */
  lemma SlotClickableIff(appointments: seq<CalendarEvent>, blockedTimes: seq<CalendarEvent>,
                         tzOffset: int, currentWall: int, dayIndex: int, time: string)
    requires Tagged(appointments, blockedTimes)
    ensures SlotClickable(EventsForSlot(appointments, blockedTimes, tzOffset, currentWall, dayIndex, time)) <==>
            forall e :: e in appointments + blockedTimes ==>
              !InSlot(e, tzOffset, SlotDate(currentWall, dayIndex), SlotHour(time))
  {
    EventsForSlotContents(appointments, blockedTimes, tzOffset, currentWall, dayIndex, time);
  }

  /** A block marks only the slot of the hour it starts in: every other hour of
      its day stays open, even those the block runs through. */
  lemma BlockMarksOnlyItsStartSlot(block: CalendarEvent, tzOffset: int, currentWall: int, dayIndex: int, time: string)
    requires block.BlockedEvent?
    requires SlotHour(time) != Some(HourOf(LocalWall(block.start, tzOffset)))
    ensures !SlotBlocked(EventsForSlot([], [block], tzOffset, currentWall, dayIndex, time))
    ensures SlotClickable(EventsForSlot([], [block], tzOffset, currentWall, dayIndex, time))
  {
    SlotBlockedIff([], [block], tzOffset, currentWall, dayIndex, time);
    SlotClickableIff([], [block], tzOffset, currentWall, dayIndex, time);
    assert [] + [block] == [block];
  }

  /** The slot of a block's starting hour on its own day is marked blocked. */
  lemma BlockMarksItsStartSlot(block: CalendarEvent, tzOffset: int, currentWall: int, dayIndex: int, time: string)
    requires block.BlockedEvent?
    requires DayNumber(LocalWall(block.start, tzOffset)) == DayNumber(SlotDate(currentWall, dayIndex))
    requires SlotHour(time) == Some(HourOf(LocalWall(block.start, tzOffset)))
    ensures SlotBlocked(EventsForSlot([], [block], tzOffset, currentWall, dayIndex, time))
  {
    SlotBlockedIff([], [block], tzOffset, currentWall, dayIndex, time);
    assert block in [block];
  }

  /** Column i of the grid is the weekday named `DaysOfWeek[i]`: Monday first,
      Sunday (getDay 0) last. */
  lemma ColumnWeekdays(currentWall: int, dayIndex: int)
    requires 0 <= dayIndex < 7
    ensures Weekday(SlotDate(currentWall, dayIndex)) == (dayIndex + 1) % 7
    ensures DayNumber(SlotDate(currentWall, dayIndex)) == DayNumber(StartOfWeek(currentWall)) + dayIndex
  {
    AddDays(StartOfWeek(currentWall), dayIndex);
  }

  // ---------------------------------------------------------------------------

  class AgendaPage {
    /** `currentDate`, as the UTC instant a `Date` holds. */
    var currentDate: int
    var appointments: seq<CalendarEvent>
    var blockedTimes: seq<CalendarEvent>
    var isAppointmentModalOpen: bool
    var isBlockTimeModalOpen: bool
    /** The wall-clock date and the label of the slot picked for booking. */
    var selectedSlotDate: Option<int>
    var selectedSlotTime: Option<string>
    /** The browser's `getTimezoneOffset()`. */
    const tzOffset: int

    ghost predicate Valid()
      reads this
    {
      Tagged(appointments, blockedTimes)
    }

    constructor (now: int, offset: int)
      ensures Valid()
      ensures currentDate == now && tzOffset == offset
      ensures appointments == [] && blockedTimes == []
      ensures !isAppointmentModalOpen && !isBlockTimeModalOpen && selectedSlotDate == None && selectedSlotTime == None
    {
      currentDate := now;
      tzOffset := offset;
      appointments := [];
      blockedTimes := [];
      isAppointmentModalOpen := false;
      isBlockTimeModalOpen := false;
      selectedSlotDate := None;
      selectedSlotTime := None;
    }

    function CurrentWall(): int
      reads this`currentDate
    {
      LocalWall(currentDate, tzOffset)
    }

    function SlotEvents(dayIndex: int, time: string): seq<CalendarEvent>
      reads this`currentDate, this`appointments, this`blockedTimes
    {
      EventsForSlot(appointments, blockedTimes, tzOffset, CurrentWall(), dayIndex, time)
    }

    method PreviousWeek()
      modifies this`currentDate
      ensures currentDate == old(currentDate) - (7 * 1440)
      ensures StartOfWeek(CurrentWall()) == StartOfWeek(old(CurrentWall())) - (7 * 1440)
    {
      StartOfWeekShift(CurrentWall(), -1);
      currentDate := currentDate - (7 * 1440);
    }

    method NextWeek()
      modifies this`currentDate
      ensures currentDate == old(currentDate) + (7 * 1440)
      ensures StartOfWeek(CurrentWall()) == StartOfWeek(old(CurrentWall())) + (7 * 1440)
    {
      StartOfWeekShift(CurrentWall(), 1);
      currentDate := currentDate + (7 * 1440);
    }

    /** `fetchCalendarEvents`: loads the shown week, or empties both lists when
        the load reports an error. */
    method FetchCalendarEvents(appointmentTable: seq<AppointmentRow>, appointmentFault: Option<string>,
                               blockTable: seq<BlockedRow>, blockFault: Option<string>)
      modifies this`appointments, this`blockedTimes
      ensures Valid()
      ensures var range := WeekRange(currentDate, tzOffset);
              var w := GetAppointmentsForWeek(range.0, range.1, appointmentTable, appointmentFault, blockTable, blockFault);
              if w.error.Some? then appointments == [] && blockedTimes == []
              else appointments == w.appointments && blockedTimes == w.blockedTimes
    {
      var range := WeekRange(currentDate, tzOffset);
      var result := GetAppointmentsForWeek(range.0, range.1, appointmentTable, appointmentFault, blockTable, blockFault);
      WeekEventsTagged(range.0, range.1, appointmentTable, appointmentFault, blockTable, blockFault);
      if result.error.Some? {
        appointments := [];
        blockedTimes := [];
      } else {
        appointments := result.appointments;
        blockedTimes := result.blockedTimes;
      }
    }

    /** A click on a slot opens the booking form for it only when the slot is
        clickable; otherwise nothing changes. */
    method ClickSlot(dayIndex: int, time: string)
      modifies this`isAppointmentModalOpen, this`selectedSlotDate, this`selectedSlotTime
      ensures old(SlotClickable(SlotEvents(dayIndex, time))) ==>
                isAppointmentModalOpen &&
                selectedSlotDate == Some(SlotDate(old(CurrentWall()), dayIndex)) && selectedSlotTime == Some(time)
      ensures !old(SlotClickable(SlotEvents(dayIndex, time))) ==>
                isAppointmentModalOpen == old(isAppointmentModalOpen) &&
                selectedSlotDate == old(selectedSlotDate) && selectedSlotTime == old(selectedSlotTime)
    {
      if SlotClickable(SlotEvents(dayIndex, time)) {
        selectedSlotDate := Some(SlotDate(CurrentWall(), dayIndex));
        selectedSlotTime := Some(time);
        isAppointmentModalOpen := true;
      }
    }

    method CloseAppointmentModal()
      modifies this`isAppointmentModalOpen, this`selectedSlotDate, this`selectedSlotTime
      ensures !isAppointmentModalOpen && selectedSlotDate == None && selectedSlotTime == None
    {
      isAppointmentModalOpen := false;
      selectedSlotDate := None;
      selectedSlotTime := None;
    }

    /** The "Bloquear Horario" button: the block form opens whatever the grid shows. */
    method OpenBlockTimeModal()
      modifies this`isBlockTimeModalOpen
      ensures isBlockTimeModalOpen
    {
      isBlockTimeModalOpen := true;
    }

    method CloseBlockTimeModal()
      modifies this`isBlockTimeModalOpen
      ensures !isBlockTimeModalOpen
    {
      isBlockTimeModalOpen := false;
    }

    /** `handleEventCreated`: after either form saved, both forms close, the slot
        selection is cleared and the shown week is loaded again. */
    method EventCreated(appointmentTable: seq<AppointmentRow>, appointmentFault: Option<string>,
                        blockTable: seq<BlockedRow>, blockFault: Option<string>)
      modifies this`isAppointmentModalOpen, this`selectedSlotDate, this`selectedSlotTime, this`isBlockTimeModalOpen,
               this`appointments, this`blockedTimes
      ensures !isAppointmentModalOpen && !isBlockTimeModalOpen && selectedSlotDate == None && selectedSlotTime == None
      ensures Valid()
      ensures var range := WeekRange(currentDate, tzOffset);
              var w := GetAppointmentsForWeek(range.0, range.1, appointmentTable, appointmentFault, blockTable, blockFault);
              if w.error.Some? then appointments == [] && blockedTimes == []
              else appointments == w.appointments && blockedTimes == w.blockedTimes
    {
      CloseAppointmentModal();
      CloseBlockTimeModal();
      FetchCalendarEvents(appointmentTable, appointmentFault, blockTable, blockFault);
    }
  }
}
