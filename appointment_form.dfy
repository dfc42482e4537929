/** The booking form opened from a free agenda slot: its field state, the
    patient picker, and `handleSubmit`, which turns the chosen day, the slot
    label and the duration into the start and end timestamps it sends to
    `createAppointment`. A timestamp is sent as the local wall-clock reading
    followed by a "±HH:MM" offset suffix built from `getTimezoneOffset()`. */
module AppointmentForm {
  import opened Base
  import opened Clock
  import Booking
  import Agenda

  function Abs(x: int): (a: nat)
    ensures a == x || a == -x
  {
    if x < 0 then -x else x
  }

  /** The offset suffix as the form builds it: '+' when the offset is not
      positive, then `|Math.floor(offset / 60)|` and `|offset| % 60`, each padded
      to two digits. Dafny's `/` with a positive divisor is floor division, so
      `tzOffset / 60` is `Math.floor(tzOffset / 60)`. */
  function OffsetSuffix(tzOffset: int): string {
    (if tzOffset <= 0 then "+" else "-") + TwoDigits(Abs(tzOffset / 60)) + ":" + TwoDigits(Abs(tzOffset) % 60)
  }

  /** The suffix with the hours taken from the absolute offset, as intended. */
  function OffsetSuffixFixed(tzOffset: int): string {
    (if tzOffset <= 0 then "+" else "-") + TwoDigits(Abs(tzOffset) / 60) + ":" + TwoDigits(Abs(tzOffset) % 60)
  }

  /** The offset, in minutes ahead of UTC, that a "±HH:MM" suffix denotes when the
      store reads the timestamp. */
  function SuffixValue(suffix: string): Option<int> {
    if |suffix| == 0 || (suffix[0] != '+' && suffix[0] != '-') then None
    else
      var parts := Split(suffix[1..], ':');
      var h, m := NumberAt(parts, 0), NumberAt(parts, 1);
      if |parts| != 2 || h.None? || m.None? then None
      else Some((if suffix[0] == '+' then 1 else -1) * (h.value * 60 + m.value))
  }

  lemma SuffixParts(sign: string, h: nat, m: nat)
    requires sign == "+" || sign == "-"
    ensures SuffixValue(sign + TwoDigits(h) + ":" + TwoDigits(m)) ==
            Some((if sign == "+" then 1 else -1) * (h * 60 + m))
  {
    var s := sign + TwoDigits(h) + ":" + TwoDigits(m);
    assert s[1..] == TwoDigits(h) + ":" + TwoDigits(m);
    SplitClockLabel(h, m);
    NumberOfTwoDigits(h);
    NumberOfTwoDigits(m);
  }

  /** The corrected suffix denotes exactly the browser's offset
      (`getTimezoneOffset` counts minutes behind UTC, the suffix minutes ahead). */
  lemma OffsetSuffixFixedRoundTrip(tzOffset: int)
    ensures SuffixValue(OffsetSuffixFixed(tzOffset)) == Some(-tzOffset)
  {
    SuffixParts(if tzOffset <= 0 then "+" else "-", Abs(tzOffset) / 60, Abs(tzOffset) % 60);
  }

  /** The suffix as written denotes the offset one hour further ahead than the
      browser's whenever the zone is ahead of UTC by a non-whole number of hours;
      otherwise it is the corrected suffix. */
  lemma OffsetSuffixAsWritten(tzOffset: int)
    ensures tzOffset >= 0 || tzOffset % 60 == 0 ==> OffsetSuffix(tzOffset) == OffsetSuffixFixed(tzOffset)
    ensures tzOffset < 0 && tzOffset % 60 != 0 ==> SuffixValue(OffsetSuffix(tzOffset)) == Some(-tzOffset + 60)
  {
    if tzOffset < 0 && tzOffset % 60 != 0 {
      assert Abs(tzOffset / 60) == Abs(tzOffset) / 60 + 1;
      SuffixParts("+", Abs(tzOffset / 60), Abs(tzOffset) % 60);
    } else if tzOffset < 0 {
      assert Abs(tzOffset / 60) == Abs(tzOffset) / 60;
    }
  }

  /** India (UTC+05:30, `getTimezoneOffset() == -330`) gets "+06:30". */
  lemma OffsetSuffixIndia()
    ensures OffsetSuffix(-330) == "+06:30"
    ensures OffsetSuffixFixed(-330) == "+05:30"
    ensures SuffixValue(OffsetSuffix(-330)) == Some(390)
  {
    assert TwoDigits(6) == "06" && TwoDigits(5) == "05" && TwoDigits(30) == "30";
    OffsetSuffixAsWritten(-330);
  }

  // ---------------------------------------------------------------------------

  /** What `handleSubmit` passes to `createAppointment`. The two timestamps are
      wall-clock readings that share the offset suffix. */
  datatype Payload = Payload(
    patientId: string,
    doctorId: string,
    startWall: int,
    endWall: int,
    suffix: string,
    serviceDescription: string,
    notes: string,
    isRecurring: bool,
    recurrenceRule: Option<string>)

  /** The browser's own check of the form before it fires `onSubmit`: the service
      input is `required`, and the duration input is `required`, `min="30"` and
      `step="30"` (so 30, 60, 90, ...). */
  predicate BrowserAccepts(serviceDescription: string, duration: int) {
    serviceDescription != "" && duration >= 30 && (duration - 30) % 30 == 0
  }

  datatype SubmitOutcome =
    | Refused            // the browser blocks the submission; `handleSubmit` does not run
    | MissingSelection   // alert: "Por favor, complete todos los campos requeridos."
    | Crashed            // the slot label does not parse, so `toISOString` throws
    | NoDoctor           // alert: "No se pudo identificar al doctor ..."
    | Sent(payload: Payload)

  /** The outcome of `handleSubmit` for the given form state and selection. */
  function Submission(patientId: string, serviceDescription: string, duration: int, notes: string,
                      isRecurring: bool, recurrenceRule: string,
                      selectedDate: Option<int>, selectedTime: Option<string>,
                      currentDoctorId: Option<string>, tzOffset: int): (o: SubmitOutcome)
    ensures o.Refused? <==> !BrowserAccepts(serviceDescription, duration)
    ensures o.Sent? ==> o.payload.serviceDescription == serviceDescription != "" && o.payload.endWall - o.payload.startWall >= 30
    ensures o.Sent? ==> patientId != "" && selectedDate.Some? && selectedTime.Some? && selectedTime.value != ""
    ensures o.Sent? ==> currentDoctorId.Some? && currentDoctorId.value != "" && o.payload.doctorId == currentDoctorId.value
    ensures o.Sent? ==> o.payload.endWall - o.payload.startWall == duration
    ensures o.Sent? ==> o.payload.recurrenceRule == if isRecurring then Some(recurrenceRule) else None
    ensures o.Crashed? <==> BrowserAccepts(serviceDescription, duration) && patientId != "" && selectedDate.Some? && selectedTime.Some? && selectedTime.value != "" &&
                            (ParseTime(selectedTime.value).0.None? || ParseTime(selectedTime.value).1.None?)
    ensures o.Sent? ==> DayNumber(o.payload.startWall - ParseTime(selectedTime.value).0.value * 60
                                                   - ParseTime(selectedTime.value).1.value) == DayNumber(selectedDate.value)
  {
    if !BrowserAccepts(serviceDescription, duration) then Refused
    else if selectedDate.None? || selectedTime.None? || selectedTime.value == "" || patientId == "" then MissingSelection
    else
      var hm := ParseTime(selectedTime.value);
      if hm.0.None? || hm.1.None? then Crashed
      else
        var localWall := Midnight(selectedDate.value) + hm.0.value * 60 + hm.1.value;
        var suffix := OffsetSuffixFixed(tzOffset);
        var startWall := localWall;
        var endWall := localWall + duration;
        if currentDoctorId.None? || currentDoctorId.value == "" then NoDoctor
        else
          Sent(Payload(patientId, currentDoctorId.value, startWall, endWall, suffix,
                       serviceDescription, notes, isRecurring,
                       if isRecurring then Some(recurrenceRule) else None))
  }

  /** How the server action reads the payload: each timestamp is the instant its
      wall-clock reading denotes under the suffix. This is the
      `createAppointment` of `src/app/agenda/actions.ts`, which drops the
      recurrence fields. */
  function ToRequest(p: Payload): (req: Booking.AppointmentRequest)
    requires SuffixValue(p.suffix).Some?
    ensures req.start.Some? && req.end.Some?
    ensures req.end.value - req.start.value == p.endWall - p.startWall
  {
    var v := SuffixValue(p.suffix).value;
    Booking.AppointmentRequest(p.patientId, p.doctorId, Some(p.startWall - v), Some(p.endWall - v),
                               Some(p.serviceDescription), Some(p.notes))
  }

  /** A slot label of the agenda grid never makes the submit crash, and the sent
      start is that hour, on the chosen day, on the minute. */
  lemma GridSlotSubmission(patientId: string, serviceDescription: string, duration: int, notes: string,
                           isRecurring: bool, recurrenceRule: string, selectedDate: int, i: int,
                           doctorId: string, tzOffset: int)
    requires 0 <= i < 11 && patientId != "" && doctorId != ""
    requires BrowserAccepts(serviceDescription, duration)
    ensures var o := Submission(patientId, serviceDescription, duration, notes, isRecurring, recurrenceRule,
                                Some(selectedDate), Some(Agenda.TimeSlots()[i]), Some(doctorId), tzOffset);
            o.Sent? &&
            DayNumber(o.payload.startWall) == DayNumber(selectedDate) &&
            HourOf(o.payload.startWall) == 8 + i && MinuteOf(o.payload.startWall) == 0
  {
    var slot := Agenda.TimeSlots()[i];
    assert TwoDigits(0) == "00";
    assert slot == TwoDigits(i + 8) + ":" + TwoDigits(0);
    ParseClockLabel(i + 8, 0);
    assert ParseTime(slot) == (Some(i + 8), Some(0));
    var o := Submission(patientId, serviceDescription, duration, notes, isRecurring, recurrenceRule,
                        Some(selectedDate), Some(slot), Some(doctorId), tzOffset);
    assert o.payload.startWall == Midnight(selectedDate) + (i + 8) * 60;
    AtTimeOfDay(Midnight(selectedDate), (i + 8) * 60);
  }

  /** The server books exactly the chosen local wall-clock instant, for exactly
      `duration` minutes, whatever the browser's offset. */
  lemma SentRequestInterval(patientId: string, serviceDescription: string, duration: int, notes: string,
                            isRecurring: bool, recurrenceRule: string,
                            selectedDate: Option<int>, selectedTime: Option<string>,
                            currentDoctorId: Option<string>, tzOffset: int)
    requires Submission(patientId, serviceDescription, duration, notes, isRecurring, recurrenceRule,
                        selectedDate, selectedTime, currentDoctorId, tzOffset).Sent?
    ensures var p := Submission(patientId, serviceDescription, duration, notes, isRecurring, recurrenceRule,
                                selectedDate, selectedTime, currentDoctorId, tzOffset).payload;
            SuffixValue(p.suffix).Some? &&
            ToRequest(p).start.value == InstantOf(p.startWall, tzOffset) &&
            ToRequest(p).end.value == InstantOf(p.startWall + duration, tzOffset)
  {
    OffsetSuffixFixedRoundTrip(tzOffset);
  }

  /** The payload as the form builds it, with the floor suffix: the server books
      the chosen local instant, except in zones ahead of UTC by a fractional
      hour, where it books an hour earlier. */
  lemma SentRequestIntervalAsWritten(p: Payload, tzOffset: int)
    requires p.suffix == OffsetSuffix(tzOffset)
    ensures SuffixValue(p.suffix).Some?
    ensures var shift := if tzOffset < 0 && tzOffset % 60 != 0 then 60 else 0;
            ToRequest(p).start.value == InstantOf(p.startWall, tzOffset) - shift &&
            ToRequest(p).end.value == InstantOf(p.endWall, tzOffset) - shift &&
            LocalWall(ToRequest(p).start.value, tzOffset) == p.startWall - shift
  {
    OffsetSuffixAsWritten(tzOffset);
    OffsetSuffixFixedRoundTrip(tzOffset);
  }

  /** The request that `createAppointment` of `src/app/agenda/actions.ts`
      reads does not depend on the recurrence fields the form sends. */
  lemma RecurrenceIgnoredByServer(p: Payload, isRecurring: bool, rule: Option<string>)
    requires SuffixValue(p.suffix).Some?
    ensures ToRequest(p.(isRecurring := isRecurring, recurrenceRule := rule)) == ToRequest(p)
  {
  }

  // ---------------------------------------------------------------------------

  datatype PatientOption = PatientOption(id: string, firstName: Option<string>, lastName: Option<string>)

  function OrEmpty(s: Option<string>): string {
    if s.Some? then s.value else ""
  }

  /** `${first_name || ''} ${last_name || ''}`. */
  function DisplayName(p: PatientOption): (name: string)
    ensures name == OrEmpty(p.firstName) + " " + OrEmpty(p.lastName)
    ensures |name| == |OrEmpty(p.firstName)| + 1 + |OrEmpty(p.lastName)|
  {
    OrEmpty(p.firstName) + " " + OrEmpty(p.lastName)
  }

  const DefaultDuration: int := 30
  const DefaultRule: string := "weekly"
  const SearchLimit: nat := 10

  class FormState {
    var patientId: string
    var serviceDescription: string
    var duration: int
    var notes: string
    var isRecurring: bool
    var recurrenceRule: string
    var searchTerm: string
    var selectedPatientName: string
    var patients: seq<PatientOption>
    var isLoading: bool

    /** Every field at its initial value. */
    predicate IsReset()
      reads this
    {
      patientId == "" && serviceDescription == "" && duration == DefaultDuration && notes == "" &&
      !isRecurring && recurrenceRule == DefaultRule && searchTerm == "" && selectedPatientName == "" &&
      patients == [] && !isLoading
    }

    constructor ()
      ensures IsReset()
    {
      patientId, serviceDescription, duration, notes := "", "", DefaultDuration, "";
      isRecurring, recurrenceRule := false, DefaultRule;
      searchTerm, selectedPatientName, patients, isLoading := "", "", [], false;
    }

    /** The effect that runs when the modal closes. */
    method ResetOnClose()
      modifies this
      ensures IsReset()
    {
      patientId := "";
      serviceDescription := "";
      duration := DefaultDuration;
      notes := "";
      isRecurring := false;
      recurrenceRule := DefaultRule;
      searchTerm := "";
      selectedPatientName := "";
      patients := [];
      isLoading := false;
    }

    /** `handlePatientSelect`. */
    method SelectPatient(p: PatientOption)
      modifies this`patientId, this`selectedPatientName, this`searchTerm, this`patients
      ensures patientId == p.id
      ensures selectedPatientName == searchTerm == DisplayName(p)
      ensures patients == []
    {
      patientId := p.id;
      selectedPatientName := DisplayName(p);
      searchTerm := DisplayName(p);
      patients := [];
    }

    /** Typing in the search box: a selected patient is dropped as soon as the
        text differs from its name. */
    method TypeSearch(value: string)
      modifies this`searchTerm, this`patientId, this`selectedPatientName
      ensures searchTerm == value
      ensures if old(patientId) != "" && value != old(selectedPatientName)
              then patientId == "" && selectedPatientName == ""
              else patientId == old(patientId) && selectedPatientName == old(selectedPatientName)
    {
      searchTerm := value;
      if patientId != "" && value != selectedPatientName {
        patientId := "";
        selectedPatientName := "";
      }
    }

    /** The "Limpiar selección" link. */
    method ClearSelection()
      modifies this`patientId, this`searchTerm, this`selectedPatientName
      ensures patientId == "" && searchTerm == "" && selectedPatientName == ""
    {
      patientId := "";
      searchTerm := "";
      selectedPatientName := "";
    }

    /** The search box is read-only while it shows the selected patient. */
    predicate SearchLocked()
      reads this`patientId, this`searchTerm, this`selectedPatientName
    {
      patientId != "" && searchTerm == selectedPatientName
    }

    /** The effect that runs when the search text changes: more than two
        characters search the store (`found` is its answer, empty on an error),
        at most ten results are kept; otherwise the list is emptied. */
    method SearchEffect(found: seq<PatientOption>)
      modifies this`patients
      ensures |searchTerm| > 2 ==> patients == if |found| <= SearchLimit then found else found[..SearchLimit]
      ensures |searchTerm| <= 2 ==> patients == []
      ensures |patients| <= SearchLimit
    {
      if |searchTerm| > 2 {
        patients := if |found| <= SearchLimit then found else found[..SearchLimit];
      } else {
        patients := [];
      }
    }

    /** The form's submission up to the server call: nothing is sent unless the
        browser accepts the inputs, a day, a time and a patient are chosen and a
        doctor is known. */
    method HandleSubmit(selectedDate: Option<int>, selectedTime: Option<string>,
                        currentDoctorId: Option<string>, tzOffset: int)
      returns (o: SubmitOutcome)
      modifies this`isLoading
      ensures o == Submission(patientId, serviceDescription, duration, notes, isRecurring, recurrenceRule,
                              selectedDate, selectedTime, currentDoctorId, tzOffset)
      ensures isLoading == if o.Refused? || o.MissingSelection? then old(isLoading) else !o.NoDoctor?
    {
      if !BrowserAccepts(serviceDescription, duration) {
        return Refused;
      }
      if selectedDate.None? || selectedTime.None? || selectedTime.value == "" || patientId == "" {
        return MissingSelection;
      }
      isLoading := true;

      var hm := ParseTime(selectedTime.value);
      if hm.0.None? || hm.1.None? {
        return Crashed;
      }
      var localDate := Midnight(selectedDate.value);
      localDate := localDate + hm.0.value * 60 + hm.1.value;

      var suffix := OffsetSuffixFixed(tzOffset);
      var startWall := localDate;
      var endWall := localDate + duration;

      if currentDoctorId.None? || currentDoctorId.value == "" {
        isLoading := false;
        return NoDoctor;
      }

      o := Sent(Payload(patientId, currentDoctorId.value, startWall, endWall, suffix,
                        serviceDescription, notes, isRecurring,
                        if isRecurring then Some(recurrenceRule) else None));
    }

    /** The server action answered (with success or an error): the form is usable again. */
    method ServerAnswered()
      modifies this`isLoading
      ensures !isLoading
    {
      isLoading := false;
    }
  }
}
