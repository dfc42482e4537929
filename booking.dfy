/** The server-side booking actions of the agenda: `createAppointment`, which
    refuses an interval that overlaps a live appointment or a blocked time of
    the same doctor before inserting one `scheduled` row, and
    `createBlockedTime`, which inserts a block without any check.

    The two tables are sequences of rows held by a `Schedule` object. What the
    store decides on its own (whether a query or an insert fails, and the id it
    generates for a new row) is passed in as arguments. */
module Booking {
  import opened Base

  /** The half-open overlap test `existing.start < new.end && existing.end > new.start`,
      written once for both conflict queries. */
  predicate Overlaps(aStart: int, aEnd: int, bStart: int, bEnd: int) {
    aStart < bEnd && aEnd > bStart
  }

  lemma OverlapsSymmetric(aStart: int, aEnd: int, bStart: int, bEnd: int)
    ensures Overlaps(aStart, aEnd, bStart, bEnd) == Overlaps(bStart, bEnd, aStart, aEnd)
  {
  }

  /** Intervals that only touch (one ends where the other starts) never overlap. */
  lemma TouchingIntervalsDoNotOverlap(aStart: int, boundary: int, bEnd: int)
    ensures !Overlaps(aStart, boundary, boundary, bEnd)
    ensures !Overlaps(boundary, bEnd, aStart, boundary)
  {
  }

  /** An interval overlaps itself exactly when it has positive length. */
  lemma OverlapsItselfIffNonEmpty(start: int, end: int)
    ensures Overlaps(start, end, start, end) <==> start < end
  {
  }

  /** An inverted interval (end before start) still overlaps an interval that
      strictly contains the span between its two ends. */
  lemma InvertedIntervalOverlapsCover(start: int, end: int, bStart: int, bEnd: int)
    requires end < start && bStart < end && start < bEnd
    ensures Overlaps(bStart, bEnd, start, end)
  {
  }

  datatype Appointment = Appointment(
    id: string,
    patientId: string,
    doctorId: string,
    start: int,
    end: int,
    serviceDescription: Option<string>,
    notes: Option<string>,
    status: Option<string>)

  datatype BlockedTime = BlockedTime(
    id: string,
    doctorId: string,
    start: int,
    end: int,
    reason: Option<string>)

  /** What `createAppointment` of `src/app/agenda/actions.ts` receives. An empty
      id or a missing timestamp is a missing field; this version of the action
      does not read the recurrence fields the form also sends. */
  datatype AppointmentRequest = AppointmentRequest(
    patientId: string,
    doctorId: string,
    start: Option<int>,
    end: Option<int>,
    serviceDescription: Option<string>,
    notes: Option<string>)

  datatype BlockRequest = BlockRequest(
    doctorId: string,
    start: Option<int>,
    end: Option<int>,
    reason: Option<string>)

  /** What the store does with the three statements of `createAppointment`:
      each may fail with a message. */
  datatype StoreFaults = StoreFaults(
    appointmentQuery: Option<string>,
    blockQuery: Option<string>,
    insert: Option<string>)

  datatype BookingError =
    | MissingFields                        // "Faltan datos requeridos ..."
    | AppointmentQueryFailed(msg: string)  // "Error al verificar citas existentes: ..."
    | DoubleBooked                         // "Ya existe una cita programada ..."
    | BlockQueryFailed(msg: string)        // "Error al verificar tiempos bloqueados: ..."
    | TimeBlocked                          // "El horario seleccionado está bloqueado ..."
    | InsertFailed(msg: string)            // "Error al crear la cita: ..." / "Error al bloquear el tiempo: ..."

  const Scheduled: string := "scheduled"
  const Cancelled: string := "cancelled"

  /** `.neq('status', 'cancelled')` is the SQL comparison `status <> 'cancelled'`,
      which a row whose status is NULL does not satisfy either. */
  predicate IsLive(a: Appointment) {
    a.status.Some? && a.status.value != Cancelled
  }

  predicate AppointmentConflicts(a: Appointment, doctorId: string, start: int, end: int) {
    a.doctorId == doctorId && IsLive(a) && Overlaps(a.start, a.end, start, end)
  }

  predicate BlockConflicts(b: BlockedTime, doctorId: string, start: int, end: int) {
    b.doctorId == doctorId && Overlaps(b.start, b.end, start, end)
  }

  /** The rows returned by the appointment conflict query. */
  function ConflictingAppointments(apps: seq<Appointment>, doctorId: string, start: int, end: int): (r: seq<Appointment>)
    ensures forall a :: a in r <==> a in apps && AppointmentConflicts(a, doctorId, start, end)
    ensures |r| <= |apps|
  {
    if apps == [] then []
    else
      var rest := ConflictingAppointments(apps[1..], doctorId, start, end);
      assert forall a :: a in apps <==> a == apps[0] || a in apps[1..];
      if AppointmentConflicts(apps[0], doctorId, start, end) then [apps[0]] + rest else rest
  }

  /** The rows returned by the blocked-time conflict query. */
  function ConflictingBlocks(blocks: seq<BlockedTime>, doctorId: string, start: int, end: int): (r: seq<BlockedTime>)
    ensures forall b :: b in r <==> b in blocks && BlockConflicts(b, doctorId, start, end)
    ensures |r| <= |blocks|
  {
    if blocks == [] then []
    else
      var rest := ConflictingBlocks(blocks[1..], doctorId, start, end);
      assert forall b :: b in blocks <==> b == blocks[0] || b in blocks[1..];
      if BlockConflicts(blocks[0], doctorId, start, end) then [blocks[0]] + rest else rest
  }

  predicate HasRequiredFields(req: AppointmentRequest) {
    req.patientId != "" && req.doctorId != "" && req.start.Some? && req.end.Some?
  }

  /** The row `createAppointment` inserts for a request that passed its checks. */
  function NewAppointment(req: AppointmentRequest, newId: string): (a: Appointment)
    requires HasRequiredFields(req)
    ensures a.status == Some(Scheduled) && IsLive(a)
    ensures a.patientId == req.patientId && a.doctorId == req.doctorId
    ensures a.start == req.start.value && a.end == req.end.value
    ensures a.serviceDescription == NullIfEmpty(req.serviceDescription)
    ensures a.notes == NullIfEmpty(req.notes)
  {
    Appointment(newId, req.patientId, req.doctorId, req.start.value, req.end.value,
                NullIfEmpty(req.serviceDescription), NullIfEmpty(req.notes), Some(Scheduled))
  }

  /** The outcome of `createAppointment` against the given tables: the checks in
      source order, then the insert. */
  function Book(apps: seq<Appointment>, blocks: seq<BlockedTime>, req: AppointmentRequest,
                newId: string, faults: StoreFaults): Result<Appointment, BookingError>
  {
    if !HasRequiredFields(req) then Err(MissingFields)
    else
      var start, end := req.start.value, req.end.value;
      if faults.appointmentQuery.Some? then Err(AppointmentQueryFailed(faults.appointmentQuery.value))
      else if |ConflictingAppointments(apps, req.doctorId, start, end)| > 0 then Err(DoubleBooked)
      else if faults.blockQuery.Some? then Err(BlockQueryFailed(faults.blockQuery.value))
      else if |ConflictingBlocks(blocks, req.doctorId, start, end)| > 0 then Err(TimeBlocked)
      else if faults.insert.Some? then Err(InsertFailed(faults.insert.value))
      else Ok(NewAppointment(req, newId))
  }

  predicate HasBlockFields(req: BlockRequest) {
    req.doctorId != "" && req.start.Some? && req.end.Some?
  }

  /** The outcome of `createBlockedTime`: no overlap check at all. */
  function Block(req: BlockRequest, newId: string, insertFault: Option<string>): (r: Result<BlockedTime, BookingError>)
    ensures r.Ok? <==> HasBlockFields(req) && insertFault.None?
    ensures !HasBlockFields(req) ==> r == Err(MissingFields)
    ensures r.Ok? ==> r.value == BlockedTime(newId, req.doctorId, req.start.value, req.end.value, NullIfEmpty(req.reason))
  {
    if !HasBlockFields(req) then Err(MissingFields)
    else if insertFault.Some? then Err(InsertFailed(insertFault.value))
    else Ok(BlockedTime(newId, req.doctorId, req.start.value, req.end.value, NullIfEmpty(req.reason)))
  }

  // ---------------------------------------------------------------------------
  // What the booking outcome means.

  /** A request with a missing field is refused before any query runs, whatever
      the tables hold and whatever the store would do. */
  lemma MissingFieldsRefusedFirst(apps: seq<Appointment>, blocks: seq<BlockedTime>, req: AppointmentRequest,
                                  newId: string, faults: StoreFaults)
    requires req.patientId == "" || req.doctorId == "" || req.start.None? || req.end.None?
    ensures Book(apps, blocks, req, newId, faults) == Err(MissingFields)
  {
  }

  /** Double booking is reported exactly when the fields are present, the first
      query succeeds and some live appointment of the same doctor overlaps. */
  lemma DoubleBookedIff(apps: seq<Appointment>, blocks: seq<BlockedTime>, req: AppointmentRequest,
                        newId: string, faults: StoreFaults)
    ensures Book(apps, blocks, req, newId, faults) == Err(DoubleBooked) <==>
      HasRequiredFields(req) && faults.appointmentQuery.None? &&
      exists a :: a in apps && AppointmentConflicts(a, req.doctorId, req.start.value, req.end.value)
  {
    if HasRequiredFields(req) && faults.appointmentQuery.None? {
      var c := ConflictingAppointments(apps, req.doctorId, req.start.value, req.end.value);
      if |c| > 0 {
        assert c[0] in c;
      }
    }
  }

  /** The blocked-time refusal needs the appointment check to have passed: when
      both an appointment and a block conflict, double booking is what is reported. */
  lemma TimeBlockedIff(apps: seq<Appointment>, blocks: seq<BlockedTime>, req: AppointmentRequest,
                       newId: string, faults: StoreFaults)
    ensures Book(apps, blocks, req, newId, faults) == Err(TimeBlocked) <==>
      HasRequiredFields(req) && faults.appointmentQuery.None? && faults.blockQuery.None? &&
      (forall a :: a in apps ==> !AppointmentConflicts(a, req.doctorId, req.start.value, req.end.value)) &&
      exists b :: b in blocks && BlockConflicts(b, req.doctorId, req.start.value, req.end.value)
  {
    if HasRequiredFields(req) {
      var start, end := req.start.value, req.end.value;
      var ca := ConflictingAppointments(apps, req.doctorId, start, end);
      var cb := ConflictingBlocks(blocks, req.doctorId, start, end);
      if |ca| > 0 {
        assert ca[0] in ca;
      }
      if |cb| > 0 {
        assert cb[0] in cb;
      }
    }
  }

  /** A booking succeeds exactly when every field is present, no statement fails
      and nothing of the same doctor overlaps; the row it creates is `scheduled`. */
  lemma BookSucceedsIff(apps: seq<Appointment>, blocks: seq<BlockedTime>, req: AppointmentRequest,
                        newId: string, faults: StoreFaults)
    ensures Book(apps, blocks, req, newId, faults).Ok? <==>
      HasRequiredFields(req) &&
      faults.appointmentQuery.None? && faults.blockQuery.None? && faults.insert.None? &&
      (forall a :: a in apps ==> !AppointmentConflicts(a, req.doctorId, req.start.value, req.end.value)) &&
      (forall b :: b in blocks ==> !BlockConflicts(b, req.doctorId, req.start.value, req.end.value))
    ensures Book(apps, blocks, req, newId, faults).Ok? ==>
      Book(apps, blocks, req, newId, faults).value == NewAppointment(req, newId)
  {
    if HasRequiredFields(req) {
      var start, end := req.start.value, req.end.value;
      var ca := ConflictingAppointments(apps, req.doctorId, start, end);
      var cb := ConflictingBlocks(blocks, req.doctorId, start, end);
      if |ca| > 0 {
        assert ca[0] in ca;
      }
      if |cb| > 0 {
        assert cb[0] in cb;
      }
    }
  }

  /** A failed query is reported as such and never turns into a booking. */
  lemma QueryFailureReported(apps: seq<Appointment>, blocks: seq<BlockedTime>, req: AppointmentRequest,
                             newId: string, faults: StoreFaults)
    requires HasRequiredFields(req)
    ensures faults.appointmentQuery.Some? ==>
      Book(apps, blocks, req, newId, faults) == Err(AppointmentQueryFailed(faults.appointmentQuery.value))
    ensures faults.blockQuery.Some? ==>
      Book(apps, blocks, req, newId, faults).Err?
  {
  }

  // ---------------------------------------------------------------------------
  // The doctor's calendar invariant.

  /** No two live appointments of one doctor overlap. */
  ghost predicate NoDoubleBooking(apps: seq<Appointment>) {
    forall i, j ::
      (0 <= i < j < |apps| && apps[i].doctorId == apps[j].doctorId && IsLive(apps[i]) && IsLive(apps[j])) ==>
      !Overlaps(apps[i].start, apps[i].end, apps[j].start, apps[j].end)
  }

  /** No live appointment overlaps a blocked time of its doctor. */
  ghost predicate NoBookingOverBlock(apps: seq<Appointment>, blocks: seq<BlockedTime>) {
    forall i, j ::
      (0 <= i < |apps| && 0 <= j < |blocks| && apps[i].doctorId == blocks[j].doctorId && IsLive(apps[i])) ==>
      !Overlaps(apps[i].start, apps[i].end, blocks[j].start, blocks[j].end)
  }

  /** A successful booking keeps every doctor free of double bookings. */
  lemma BookPreservesNoDoubleBooking(apps: seq<Appointment>, blocks: seq<BlockedTime>, req: AppointmentRequest,
                                     newId: string, faults: StoreFaults)
    requires NoDoubleBooking(apps)
    requires Book(apps, blocks, req, newId, faults).Ok?
    ensures NoDoubleBooking(apps + [Book(apps, blocks, req, newId, faults).value])
  {
    var a := Book(apps, blocks, req, newId, faults).value;
    BookSucceedsIff(apps, blocks, req, newId, faults);
    var s := apps + [a];
    forall i, j | 0 <= i < j < |s| && s[i].doctorId == s[j].doctorId && IsLive(s[i]) && IsLive(s[j])
      ensures !Overlaps(s[i].start, s[i].end, s[j].start, s[j].end)
    {
      if j == |apps| {
        assert s[i] in apps;
        assert !AppointmentConflicts(s[i], req.doctorId, a.start, a.end);
      }
    }
  }

  /** A successful booking keeps every appointment off its doctor's blocked times. */
  lemma BookPreservesNoBookingOverBlock(apps: seq<Appointment>, blocks: seq<BlockedTime>, req: AppointmentRequest,
                                        newId: string, faults: StoreFaults)
    requires NoBookingOverBlock(apps, blocks)
    requires Book(apps, blocks, req, newId, faults).Ok?
    ensures NoBookingOverBlock(apps + [Book(apps, blocks, req, newId, faults).value], blocks)
  {
    var a := Book(apps, blocks, req, newId, faults).value;
    BookSucceedsIff(apps, blocks, req, newId, faults);
    var s := apps + [a];
    forall i, j | 0 <= i < |s| && 0 <= j < |blocks| && s[i].doctorId == blocks[j].doctorId && IsLive(s[i])
      ensures !Overlaps(s[i].start, s[i].end, blocks[j].start, blocks[j].end)
    {
      if i == |apps| {
        assert blocks[j] in blocks;
        assert !BlockConflicts(blocks[j], req.doctorId, a.start, a.end);
      }
    }
  }

  /** Declaring a block is not checked against appointments, so it can cover one
      that is already booked: the invariant above is the booking side's only. */
  lemma BlockCanCoverBooking()
    ensures var apps := [Appointment("a1", "p1", "d1", 600, 630, None, None, Some(Scheduled))];
            var b := Block(BlockRequest("d1", Some(540), Some(720), None), "b1", None);
            NoBookingOverBlock(apps, []) && b.Ok? && !NoBookingOverBlock(apps, [b.value])
  {
    var apps := [Appointment("a1", "p1", "d1", 600, 630, None, None, Some(Scheduled))];
    var b := Block(BlockRequest("d1", Some(540), Some(720), None), "b1", None);
    assert apps[0].doctorId == [b.value][0].doctorId;
  }

  // ---------------------------------------------------------------------------
  // The concrete booking scenarios of the design (times in minutes of a day).

  /** [10:00, 10:30) booked for D: [10:15, 10:45) is refused as a double booking,
      [10:30, 11:00) is accepted because it only touches. */
  lemma BookingScenarios(newId: string)
    ensures var apps := [Appointment("a1", "p1", "D", 600, 630, None, None, Some(Scheduled))];
            var ok := StoreFaults(None, None, None);
            Book(apps, [], AppointmentRequest("p2", "D", Some(615), Some(645), None, None), newId, ok) == Err(DoubleBooked) &&
            Book(apps, [], AppointmentRequest("p2", "D", Some(630), Some(660), None, None), newId, ok).Ok?
  {
    var apps := [Appointment("a1", "p1", "D", 600, 630, None, None, Some(Scheduled))];
    var ok := StoreFaults(None, None, None);
    var r1 := AppointmentRequest("p2", "D", Some(615), Some(645), None, None);
    var r2 := AppointmentRequest("p2", "D", Some(630), Some(660), None, None);
    assert ConflictingAppointments(apps, "D", 615, 645) == [apps[0]];
    assert ConflictingAppointments(apps, "D", 630, 660) == [];
  }

  /** D blocked over [14:00, 16:00): [15:00, 15:30) is refused for D and accepted
      for another doctor. */
  lemma BlockScenarios(newId: string)
    ensures var blocks := [BlockedTime("b1", "D", 840, 960, None)];
            var ok := StoreFaults(None, None, None);
            Book([], blocks, AppointmentRequest("p", "D", Some(900), Some(930), None, None), newId, ok) == Err(TimeBlocked) &&
            Book([], blocks, AppointmentRequest("p", "E", Some(900), Some(930), None, None), newId, ok).Ok?
  {
    var blocks := [BlockedTime("b1", "D", 840, 960, None)];
    assert ConflictingBlocks(blocks, "D", 900, 930) == [blocks[0]];
    assert ConflictingBlocks(blocks, "E", 900, 930) == [];
  }

  /** A cancelled appointment, or one whose status is NULL, does not hold its slot. */
  lemma NonLiveAppointmentsDoNotConflict(newId: string, status: Option<string>)
    requires status == None || status == Some(Cancelled)
    ensures var apps := [Appointment("a1", "p1", "D", 600, 630, None, None, status)];
            Book(apps, [], AppointmentRequest("p2", "D", Some(600), Some(630), None, None), newId,
                 StoreFaults(None, None, None)).Ok?
  {
    var apps := [Appointment("a1", "p1", "D", 600, 630, None, None, status)];
    assert ConflictingAppointments(apps, "D", 600, 630) == [];
  }

  /** The action does not check that start precedes end: on empty tables an
      inverted interval is stored exactly as given. */
  lemma InvertedIntervalAccepted(newId: string)
    ensures Book([], [], AppointmentRequest("p", "D", Some(630), Some(600), None, None), newId,
                 StoreFaults(None, None, None)) ==
            Ok(Appointment(newId, "p", "D", 630, 600, None, None, Some(Scheduled)))
  {
  }

  // ---------------------------------------------------------------------------
  // The two tables and the actions that append to them.

  class Schedule {
    var appointments: seq<Appointment>
    var blockedTimes: seq<BlockedTime>

    constructor (apps: seq<Appointment>, blocks: seq<BlockedTime>)
      ensures appointments == apps && blockedTimes == blocks
    {
      appointments := apps;
      blockedTimes := blocks;
    }

    ghost predicate Consistent()
      reads this
    {
      NoDoubleBooking(appointments) && NoBookingOverBlock(appointments, blockedTimes)
    }

    /** `createAppointment`: appends exactly one row on success and leaves both
        tables unchanged on every refusal or failure. */
    method CreateAppointment(req: AppointmentRequest, newId: string, faults: StoreFaults)
      returns (r: Result<Appointment, BookingError>)
      modifies this
      ensures r == Book(old(appointments), old(blockedTimes), req, newId, faults)
      ensures appointments == if r.Ok? then old(appointments) + [r.value] else old(appointments)
      ensures blockedTimes == old(blockedTimes)
      ensures old(Consistent()) ==> Consistent()
    {
      if req.patientId == "" || req.doctorId == "" || req.start.None? || req.end.None? {
        return Err(MissingFields);
      }
      var start, end := req.start.value, req.end.value;

      if faults.appointmentQuery.Some? {
        return Err(AppointmentQueryFailed(faults.appointmentQuery.value));
      }
      var overlapping := ConflictingAppointments(appointments, req.doctorId, start, end);
      if |overlapping| > 0 {
        return Err(DoubleBooked);
      }

      if faults.blockQuery.Some? {
        return Err(BlockQueryFailed(faults.blockQuery.value));
      }
      var blocked := ConflictingBlocks(blockedTimes, req.doctorId, start, end);
      if |blocked| > 0 {
        return Err(TimeBlocked);
      }

      if faults.insert.Some? {
        return Err(InsertFailed(faults.insert.value));
      }
      var row := NewAppointment(req, newId);
      if NoDoubleBooking(appointments) {
        BookPreservesNoDoubleBooking(appointments, blockedTimes, req, newId, faults);
      }
      if NoBookingOverBlock(appointments, blockedTimes) {
        BookPreservesNoBookingOverBlock(appointments, blockedTimes, req, newId, faults);
      }
      appointments := appointments + [row];
      r := Ok(row);
    }

    /** `createBlockedTime`: appends one block on success, never touches the
        appointments, and changes nothing on a refusal or failure. */
    method CreateBlockedTime(req: BlockRequest, newId: string, insertFault: Option<string>)
      returns (r: Result<BlockedTime, BookingError>)
      modifies this
      ensures r == Block(req, newId, insertFault)
      ensures blockedTimes == if r.Ok? then old(blockedTimes) + [r.value] else old(blockedTimes)
      ensures appointments == old(appointments)
    {
      if req.doctorId == "" || req.start.None? || req.end.None? {
        return Err(MissingFields);
      }
      if insertFault.Some? {
        return Err(InsertFailed(insertFault.value));
      }
      var row := BlockedTime(newId, req.doctorId, req.start.value, req.end.value, NullIfEmpty(req.reason));
      blockedTimes := blockedTimes + [row];
      r := Ok(row);
    }
  }
}
