/** `getAppointmentsForWeek`: the two range queries that load a week of the
    agenda, the normalisation of their joined relations and the tagging of each
    row with its kind. The store's tables are given as sequences of joined rows;
    whether each query fails is an argument. */
module WeekQuery {
  import opened Base
  import opened Sorting

  /** A joined relation as the store may return it: absent (null), a single
      object, or an array of objects, depending on the shape of the query. */
  datatype Relation<T> = Missing | One(value: T) | Many(items: seq<T>)

  datatype PatientRef = PatientRef(id: string, firstName: Option<string>, lastName: Option<string>)
  datatype DoctorRef = DoctorRef(id: string, fullName: Option<string>)

  datatype AppointmentRow = AppointmentRow(
    id: string,
    start: int,
    end: int,
    serviceDescription: Option<string>,
    status: Option<string>,
    notes: Option<string>,
    patient: Relation<PatientRef>,
    doctor: Relation<DoctorRef>)

  datatype BlockedRow = BlockedRow(
    id: string,
    start: int,
    end: int,
    reason: Option<string>,
    doctor: Relation<DoctorRef>)

  /** A calendar event: the appointment or blocked-time row with its relations
      reduced to one optional value; the constructor is the `type` tag. */
  datatype CalendarEvent =
    | AppointmentEvent(
        id: string, start: int, end: int,
        serviceDescription: Option<string>, status: Option<string>, notes: Option<string>,
        patient: Option<PatientRef>, doctor: Option<DoctorRef>)
    | BlockedEvent(
        id: string, start: int, end: int,
        reason: Option<string>, doctor: Option<DoctorRef>)

  function StartOf(e: CalendarEvent): int {
    e.start
  }

  /** `x && Array.isArray(x) ? (x[0] || null) : x`. */
  function Single<T>(r: Relation<T>): (o: Option<T>)
    ensures r.Missing? ==> o.None?
    ensures r.One? ==> o == Some(r.value)
    ensures r.Many? ==> o == if |r.items| > 0 then Some(r.items[0]) else None
  {
    match r
    case Missing => None
    case One(v) => Some(v)
    case Many(items) => if |items| > 0 then Some(items[0]) else None
  }

  /** Downstream code cannot tell a single joined object from a one-element array. */
  lemma SingleIgnoresShape<T>(x: T, more: seq<T>)
    ensures Single(One(x)) == Single(Many([x] + more)) == Some(x)
    ensures Single(Relation<T>.Many([])) == Single(Relation<T>.Missing) == None
  {
  }

  function ToAppointmentEvent(row: AppointmentRow): (e: CalendarEvent)
    ensures e.AppointmentEvent?
    ensures e.id == row.id && e.start == row.start && e.end == row.end
    ensures e.serviceDescription == row.serviceDescription && e.status == row.status && e.notes == row.notes
    ensures e.patient == Single(row.patient) && e.doctor == Single(row.doctor)
  {
    AppointmentEvent(row.id, row.start, row.end, row.serviceDescription, row.status, row.notes,
                     Single(row.patient), Single(row.doctor))
  }

  function ToBlockedEvent(row: BlockedRow): (e: CalendarEvent)
    ensures e.BlockedEvent?
    ensures e.id == row.id && e.start == row.start && e.end == row.end && e.reason == row.reason
    ensures e.doctor == Single(row.doctor)
  {
    BlockedEvent(row.id, row.start, row.end, row.reason, Single(row.doctor))
  }

  /** `.gte('start_time', startDate).lt('start_time', endDate)`. */
  predicate StartsIn(start: int, startDate: int, endDate: int) {
    startDate <= start < endDate
  }

  /** The range filter of either query, over the rows' start times. */
  function StartingIn<R(!new)>(rows: seq<R>, start: R -> int, startDate: int, endDate: int): (r: seq<R>)
    ensures forall x :: x in r <==> x in rows && StartsIn(start(x), startDate, endDate)
    ensures |r| <= |rows|
  {
    if rows == [] then []
    else
      var rest := StartingIn(rows[1..], start, startDate, endDate);
      assert forall x :: x in rows <==> x == rows[0] || x in rows[1..];
      if StartsIn(start(rows[0]), startDate, endDate) then [rows[0]] + rest else rest
  }

  function AppointmentStart(row: AppointmentRow): int { row.start }

  function BlockStart(row: BlockedRow): int { row.start }

  /** The appointment query: range filter, then ascending start time. */
  function SelectAppointments(rows: seq<AppointmentRow>, startDate: int, endDate: int): seq<AppointmentRow> {
    SortBy(StartingIn(rows, AppointmentStart, startDate, endDate), (x: AppointmentRow) => x.start)
  }

  /** `(data || []).map(...)` over a query that may have failed. */
  function AppointmentEvents(rows: seq<AppointmentRow>): (r: seq<CalendarEvent>)
    ensures |r| == |rows|
    ensures forall i :: 0 <= i < |rows| ==> r[i] == ToAppointmentEvent(rows[i])
  {
    seq(|rows|, i requires 0 <= i < |rows| => ToAppointmentEvent(rows[i]))
  }

  function BlockedEvents(rows: seq<BlockedRow>): (r: seq<CalendarEvent>)
    ensures |r| == |rows|
    ensures forall i :: 0 <= i < |rows| ==> r[i] == ToBlockedEvent(rows[i])
  {
    seq(|rows|, i requires 0 <= i < |rows| => ToBlockedEvent(rows[i]))
  }

  datatype WeekEvents = WeekEvents(
    appointments: seq<CalendarEvent>,
    blockedTimes: seq<CalendarEvent>,
    error: Option<string>)

  /** Both queries always run; a failed one contributes no rows, and the error
      reported is the appointment query's if it failed, else the blocked-time
      query's. */
  function GetAppointmentsForWeek(startDate: int, endDate: int,
                                  appointmentTable: seq<AppointmentRow>, appointmentFault: Option<string>,
                                  blockTable: seq<BlockedRow>, blockFault: Option<string>): (w: WeekEvents)
    ensures appointmentFault.Some? ==> w.appointments == []
    ensures blockFault.Some? ==> w.blockedTimes == []
    ensures w.error == if appointmentFault.Some? then appointmentFault else blockFault
    ensures w.error.None? <==> appointmentFault.None? && blockFault.None?
  {
    var appointmentRows := if appointmentFault.Some? then [] else SelectAppointments(appointmentTable, startDate, endDate);
    var blockRows := if blockFault.Some? then [] else StartingIn(blockTable, BlockStart, startDate, endDate);
    WeekEvents(AppointmentEvents(appointmentRows), BlockedEvents(blockRows),
               if appointmentFault.Some? then appointmentFault else blockFault)
  }

  // ---------------------------------------------------------------------------

  /** An appointment is loaded exactly when its start lies in [startDate, endDate),
      whatever its status: cancelled appointments are loaded too. */
  lemma WeekAppointmentsIff(startDate: int, endDate: int,
                            appointmentTable: seq<AppointmentRow>, blockTable: seq<BlockedRow>,
                            blockFault: Option<string>, row: AppointmentRow)
    requires row in appointmentTable
    ensures ToAppointmentEvent(row) in
            GetAppointmentsForWeek(startDate, endDate, appointmentTable, None, blockTable, blockFault).appointments
            <==> StartsIn(row.start, startDate, endDate)
  {
    var selected := SelectAppointments(appointmentTable, startDate, endDate);
    var events := AppointmentEvents(selected);
    SortByMembers(StartingIn(appointmentTable, AppointmentStart, startDate, endDate), (x: AppointmentRow) => x.start, row);
    if ToAppointmentEvent(row) in events {
      var i :| 0 <= i < |events| && events[i] == ToAppointmentEvent(row);
      assert selected[i] in selected;
      SortByMembers(StartingIn(appointmentTable, AppointmentStart, startDate, endDate), (x: AppointmentRow) => x.start, selected[i]);
      assert selected[i].start == events[i].start == row.start;
    }
    if StartsIn(row.start, startDate, endDate) {
      var i :| 0 <= i < |selected| && selected[i] == row;
      assert events[i] == ToAppointmentEvent(row);
    }
  }

  /** Every loaded appointment event comes from a row of the table that starts in range. */
  lemma WeekAppointmentsFromTable(startDate: int, endDate: int,
                                  appointmentTable: seq<AppointmentRow>, blockTable: seq<BlockedRow>,
                                  blockFault: Option<string>, e: CalendarEvent)
    requires e in GetAppointmentsForWeek(startDate, endDate, appointmentTable, None, blockTable, blockFault).appointments
    ensures exists row :: row in appointmentTable && StartsIn(row.start, startDate, endDate) && e == ToAppointmentEvent(row)
  {
    var selected := SelectAppointments(appointmentTable, startDate, endDate);
    var events := AppointmentEvents(selected);
    var i :| 0 <= i < |events| && events[i] == e;
    assert selected[i] in selected;
    SortByMembers(StartingIn(appointmentTable, AppointmentStart, startDate, endDate), (x: AppointmentRow) => x.start, selected[i]);
  }

  /** The loaded appointments are in ascending start order, and there are as many
      as there are rows starting in range. */
  lemma WeekAppointmentsOrdered(startDate: int, endDate: int,
                                appointmentTable: seq<AppointmentRow>, blockTable: seq<BlockedRow>,
                                blockFault: Option<string>)
    ensures var w := GetAppointmentsForWeek(startDate, endDate, appointmentTable, None, blockTable, blockFault);
            SortedBy(w.appointments, StartOf) &&
            |w.appointments| == |StartingIn(appointmentTable, AppointmentStart, startDate, endDate)|
  {
    var selected := SelectAppointments(appointmentTable, startDate, endDate);
    var events := AppointmentEvents(selected);
    assert SortedBy(selected, (x: AppointmentRow) => x.start);
    forall i, j | 0 <= i < j < |events| ensures StartOf(events[i]) <= StartOf(events[j]) {
      assert events[i].start == selected[i].start;
      assert events[j].start == selected[j].start;
    }
  }

  /** A blocked time is loaded exactly when it starts in range, so a block that
      starts before the week is left out even when it runs into the week. */
  lemma WeekBlocksIff(startDate: int, endDate: int,
                      appointmentTable: seq<AppointmentRow>, appointmentFault: Option<string>,
                      blockTable: seq<BlockedRow>, row: BlockedRow)
    requires row in blockTable
    ensures ToBlockedEvent(row) in
            GetAppointmentsForWeek(startDate, endDate, appointmentTable, appointmentFault, blockTable, None).blockedTimes
            <==> StartsIn(row.start, startDate, endDate)
  {
    var selected := StartingIn(blockTable, BlockStart, startDate, endDate);
    var events := BlockedEvents(selected);
    if ToBlockedEvent(row) in events {
      var i :| 0 <= i < |events| && events[i] == ToBlockedEvent(row);
      assert selected[i] in selected;
      assert selected[i].start == events[i].start == row.start;
    }
    if StartsIn(row.start, startDate, endDate) {
      var i :| 0 <= i < |selected| && selected[i] == row;
      assert events[i] == ToBlockedEvent(row);
    }
  }

  /** The blocked-time result does not depend on whether the appointment query
      failed: both queries run. */
  lemma QueriesIndependent(startDate: int, endDate: int,
                           appointmentTable: seq<AppointmentRow>, fault1: Option<string>, fault2: Option<string>,
                           blockTable: seq<BlockedRow>, blockFault: Option<string>)
    ensures GetAppointmentsForWeek(startDate, endDate, appointmentTable, fault1, blockTable, blockFault).blockedTimes ==
            GetAppointmentsForWeek(startDate, endDate, appointmentTable, fault2, blockTable, blockFault).blockedTimes
  {
  }

  /** Every loaded event carries the tag of the table it came from. */
  lemma WeekEventsTagged(startDate: int, endDate: int,
                         appointmentTable: seq<AppointmentRow>, appointmentFault: Option<string>,
                         blockTable: seq<BlockedRow>, blockFault: Option<string>)
    ensures var w := GetAppointmentsForWeek(startDate, endDate, appointmentTable, appointmentFault, blockTable, blockFault);
            (forall e :: e in w.appointments ==> e.AppointmentEvent?) &&
            (forall e :: e in w.blockedTimes ==> e.BlockedEvent?)
  {
  }
}
