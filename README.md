# Dentist practice scheduling core, modelled in Dafny

This project models the scheduling core of a small orthodontic practice's web application:

- **Booking** (`booking.dfy`, `src/app/agenda/actions.ts`): the server actions `createAppointment` and `createBlockedTime`.
  - A booking is refused when it overlaps a live appointment or a blocked time of the same doctor.
  - A block is inserted without any check.
  - The two tables are sequences held by a `Schedule` object.
- **Week query** (`week_query.dfy`, `src/lib/supabase/client.ts`): `getAppointmentsForWeek`, the two range queries that load a week of events.
- **Agenda page** (`agenda.dfy`, `src/app/agenda/page.tsx`):
  - the start of the week and the range that is loaded;
  - how events are placed in the 7 × 11 grid of days and hours;
  - when a slot may be clicked to book;
  - the page state (`AgendaPage`).
- **Booking form** (`appointment_form.dfy`, `AppointmentFormModal.tsx`): the form state, and the way the chosen day, slot and duration become the timestamps it sends.
- **Block form** (`block_form.dfy`, `BlockTimeModal.tsx`):
  - its half-hour time list;
  - the defaults it fills in when opened;
  - how it reads its date and time fields;
  - the checks it makes before sending.
- **Patients** (`patients.dfy`, `src/app/pacientes/actions.ts`): `addPatient`, `updatePatient` and the soft `deletePatient`, over a patient table keyed by id (`PatientStore`).
- **Reminders** (`reminders.dfy`, the `send-reminders` edge function):
  - which appointments get a WhatsApp reminder;
  - the recipient number;
  - what the reply reports.
- **Revenue report** (`service_report.dfy`, `ServiceBreakdownReport.tsx`): payments grouped and summed by service, and one pie slice per service.
- **Shared modules**:
  - `base.dfy`: optional values and results, and the JavaScript string and number behaviour the code relies on (`padStart`, `split`, `Number`, `toLowerCase`);
  - `clock.dfy`: the `Date` getters on a wall clock;
  - `sorting.dfy`: a stable sort by a numeric key.

Conventions:

- Time is a whole number of minutes since 1970-01-01T00:00Z.
- The browser's local wall clock is that instant minus the time zone offset (`getTimezoneOffset()`), which is an input.
- Everything the store, the clock, the environment or the network decides is an argument: whether a statement fails, generated ids, the current time, credentials, gateway answers.

## Model

| member | source | states |
|---|---|---|
| Base.NullIfEmpty | src/app/agenda/actions.ts:79-80 | `x \|\| null`: a missing or empty string is stored as null, anything else unchanged |
| Base.TwoDigitsIsPadded | src/app/agenda/page.tsx:64 | the two-digit rendering equals `String(n).padStart(2, '0')` for every n |
| Base.DigitsValueOfDecimalString | src/components/agenda/BlockTimeModal.tsx:85 | `Number(String(n)) == n`: a decimal rendering reads back as its value |
| Base.NumberOf | src/components/agenda/BlockTimeModal.tsx:85-86 | `Number(part)` is a number exactly when the part is a run of decimal digits (the empty string included, as `Number("") == 0`), and then it is not negative |
| Base.NumberOfTwoDigits | src/components/agenda/BlockTimeModal.tsx:86 | a padded number reads back as the number |
| Base.ParseClockLabel | src/app/agenda/page.tsx:173 | an "HH:MM" label splits on ':' and reads back as its hour and minute |
| Base.ParseDateLabel | src/components/agenda/BlockTimeModal.tsx:85 | a "YYYY-MM-DD" label splits on '-' and reads back as its year, month and day |
| Base.Lower | src/app/pacientes/actions.ts:57 | lower-casing keeps the length and maps each character to its lower-case form |
| Base.LowerIdempotent | src/app/pacientes/actions.ts:57 | lower-casing twice is lower-casing once |
| Clock.InstantOf | src/app/agenda/page.tsx:76 | the UTC instant whose local reading is the given wall-clock time |
| Clock.Midnight | src/app/agenda/page.tsx:68 | `setHours(0, 0, 0, 0)`: same day, at most the time, a multiple of a day |
| Clock.WallOfDay | src/components/agenda/BlockTimeModal.tsx:87 | the wall time `minutes` after midnight of a day has that day, hour and minute |
| Clock.AddDays | src/app/agenda/page.tsx:124-138 | `setDate(getDate() + n)` moves the day by n and the weekday by n mod 7, keeping hour and minute |
| Clock.WeekdayAfterWeeks | src/app/agenda/page.tsx:124-138 | whole weeks do not change the weekday |
| Clock.AtTimeOfDay | src/components/agenda/AppointmentFormModal.tsx:117-118 | `setHours(h, m)` on a midnight gives that day at h:m |
| Clock.WallDecomposition | src/components/agenda/BlockTimeModal.tsx:41-46 | a wall time is its midnight plus its hours and minutes |
| Sorting.Insert | src/app/agenda/page.tsx:193 | inserting into a sorted list keeps it sorted and adds exactly the new element |
| Sorting.SortBy | src/app/agenda/page.tsx:193 | the result is sorted by start and is a permutation of the input |
| Sorting.InsertWithKey | src/app/agenda/page.tsx:193 | insertion places the new element before the elements that share its key, which is what makes `SortBy` stable |
| Sorting.SortByIsStable | src/app/agenda/page.tsx:193 | elements with equal start keep their relative order (a stable `Array.prototype.sort`) |
| Sorting.SortByMembers | src/app/agenda/page.tsx:193 | an element is in the sorted list iff it is in the input |
| Booking.OverlapsSymmetric | src/app/agenda/actions.ts:33-40 | the overlap test does not depend on which interval is the existing one |
| Booking.TouchingIntervalsDoNotOverlap | src/app/agenda/actions.ts:39-40 | intervals that only touch never conflict |
| Booking.OverlapsItselfIffNonEmpty | src/app/agenda/actions.ts:39-40 | an interval overlaps itself iff it has positive length |
| Booking.InvertedIntervalOverlapsCover | src/app/agenda/actions.ts:39-40 | an inverted interval still conflicts with an interval that covers the span between its ends |
| Booking.ConflictingAppointments | src/app/agenda/actions.ts:35-41 | returns exactly the live, overlapping appointments of the same doctor |
| Booking.ConflictingBlocks | src/app/agenda/actions.ts:56-61 | returns exactly the overlapping blocked times of the same doctor |
| Booking.NewAppointment | src/app/agenda/actions.ts:72-82 | the inserted row is 'scheduled', copies the request, and stores empty service and notes as null |
| Booking.Block | src/app/agenda/actions.ts:113-131 | a block is stored iff doctor, start and end are present and the insert succeeds; no overlap check |
| Booking.MissingFieldsRefusedFirst | src/app/agenda/actions.ts:27-29 | a missing field is refused before any query, whatever the tables and the store do |
| Booking.DoubleBookedIff | src/app/agenda/actions.ts:35-50 | double booking is reported iff the fields are present, the first query succeeds and a live appointment of the doctor overlaps |
| Booking.TimeBlockedIff | src/app/agenda/actions.ts:48-70 | "blocked" is reported iff no appointment conflicts, both queries succeed and a block of the doctor overlaps |
| Booking.BookSucceedsIff | src/app/agenda/actions.ts:27-92 | a booking succeeds iff the fields are present, no statement fails and nothing of the doctor overlaps; the row is the new scheduled appointment |
| Booking.QueryFailureReported | src/app/agenda/actions.ts:43-66 | a failed conflict query is reported and never becomes a booking |
| Booking.BookPreservesNoDoubleBooking | src/app/agenda/actions.ts:31-50 | a successful booking keeps every doctor free of overlapping live appointments |
| Booking.BookPreservesNoBookingOverBlock | src/app/agenda/actions.ts:52-70 | a successful booking keeps live appointments off their doctor's blocked times |
| Booking.BlockCanCoverBooking | src/app/agenda/actions.ts:117-131 | a block may be stored over an existing appointment |
| Booking.BookingScenarios | src/app/agenda/actions.ts:33-50 | [10:15, 10:45) is refused next to [10:00, 10:30); [10:30, 11:00) is accepted |
| Booking.BlockScenarios | src/app/agenda/actions.ts:52-70 | a block refuses bookings of its doctor only |
| Booking.NonLiveAppointmentsDoNotConflict | src/app/agenda/actions.ts:41 | a cancelled appointment, or one whose status is null, does not hold its slot |
| Booking.InvertedIntervalAccepted | src/app/agenda/actions.ts:27-84 | end before start is not refused; the interval is stored as given |
| Booking.Schedule.CreateAppointment | src/app/agenda/actions.ts:15-93 | the result is the booking outcome; exactly one row is appended on success and nothing changes otherwise; keeps the calendar invariants |
| Booking.Schedule.CreateBlockedTime | src/app/agenda/actions.ts:103-140 | appends one block on success, never touches appointments |
| WeekQuery.Single | src/lib/supabase/client.ts:37-38 | a joined relation becomes its object, its first element, or null |
| WeekQuery.SingleIgnoresShape | src/lib/supabase/client.ts:37-38 | an object and a one-element array give the same value; an empty array gives null |
| WeekQuery.ToAppointmentEvent | src/lib/supabase/client.ts:36-40 | an appointment row keeps its fields and is tagged 'appointment' |
| WeekQuery.ToBlockedEvent | src/lib/supabase/client.ts:59-62 | a blocked-time row keeps its fields and is tagged 'blocked' |
| WeekQuery.StartingIn | src/lib/supabase/client.ts:27-28 | keeps exactly the rows starting in [startDate, endDate), the filter of both the appointment query and the blocked-time query (lines 52-53) |
| WeekQuery.AppointmentEvents | src/lib/supabase/client.ts:36-40 | one event per row, in order |
| WeekQuery.BlockedEvents | src/lib/supabase/client.ts:59-62 | one event per row, in order |
| WeekQuery.GetAppointmentsForWeek | src/lib/supabase/client.ts:11-71 | a failed query contributes no rows; the error is the appointment error, else the block error |
| WeekQuery.WeekAppointmentsIff | src/lib/supabase/client.ts:15-40 | an appointment is loaded iff it starts in the range (when the query succeeds) |
| WeekQuery.WeekAppointmentsFromTable | src/lib/supabase/client.ts:15-40 | every loaded appointment comes from a table row starting in range |
| WeekQuery.WeekAppointmentsOrdered | src/lib/supabase/client.ts:27-29 | loaded appointments are in ascending start order |
| WeekQuery.WeekBlocksIff | src/lib/supabase/client.ts:43-62 | a block is loaded iff it starts in range, so one that starts earlier and runs into the week is not |
| WeekQuery.QueriesIndependent | src/lib/supabase/client.ts:31-57 | the blocks loaded do not depend on the appointment query's failure |
| WeekQuery.WeekEventsTagged | src/lib/supabase/client.ts:39-61 | every loaded event carries its table's tag |
| Agenda.TimeSlots | src/app/agenda/page.tsx:64 | eleven hourly labels |
| Agenda.TimeSlotHours | src/app/agenda/page.tsx:64 | row i is the hour 8 + i, so 08:00 through 18:00 |
| Agenda.StartOfWeek | src/app/agenda/page.tsx:44-49 | a Monday at the same time of day, 0 to 6 days back, as many days back as the weekday is past Monday |
| Agenda.BackToMonday | src/app/agenda/page.tsx:46-48 | the `getDate() - day + (day === 0 ? -6 : 1)` step lands on a Monday within the last week |
| Agenda.StartOfWeekShift | src/app/agenda/page.tsx:124-138 | moving the date by whole weeks moves the week start by the same weeks |
| Agenda.StartOfWeekSameWeek | src/app/agenda/page.tsx:44-49 | every day of a week has that week's Monday as its start |
| Agenda.WeekRange | src/app/agenda/page.tsx:66-76 | the range is Monday 00:00 local to seven days later, and contains the current date |
| Agenda.EventsForSlot | src/app/agenda/page.tsx:169-194 | the slot's events are sorted by start |
| Agenda.EventsForSlotContents | src/app/agenda/page.tsx:169-193 | a slot lists exactly the loaded events starting on its day and hour, each as often as loaded |
| Agenda.SlotBlockedIff | src/app/agenda/page.tsx:244-245 | a slot shows blocked iff some blocked time starts in it |
| Agenda.SlotClickableIff | src/app/agenda/page.tsx:252-255 | a click books iff no appointment and no blocked time starts in the slot |
| Agenda.BlockMarksOnlyItsStartSlot | src/app/agenda/page.tsx:183-191 | later hours covered by a block stay open |
| Agenda.BlockMarksItsStartSlot | src/app/agenda/page.tsx:183-191 | the slot of a block's starting hour shows blocked |
| Agenda.ColumnWeekdays | src/app/agenda/page.tsx:140-147 | column i is the weekday after Monday by i, Sunday last |
| Agenda.EventsInSlot | src/app/agenda/page.tsx:175-191 | keeps exactly the events that start on the slot's day and hour |
| Agenda.AgendaPage.constructor | src/app/agenda/page.tsx:52-61 | the page starts on the current date, with nothing loaded or open |
| Agenda.AgendaPage.PreviousWeek | src/app/agenda/page.tsx:124-130 | the date and the shown week move back exactly a week |
| Agenda.AgendaPage.NextWeek | src/app/agenda/page.tsx:132-138 | the date and the shown week move forward exactly a week |
| Agenda.AgendaPage.FetchCalendarEvents | src/app/agenda/page.tsx:66-92 | loads the shown week's events, or empties both lists on an error |
| Agenda.AgendaPage.ClickSlot | src/app/agenda/page.tsx:252-256 | opens the booking form for the slot's date and time iff the slot is clickable, else changes nothing |
| Agenda.AgendaPage.CloseAppointmentModal | src/app/agenda/page.tsx:149-153 | closes the form and clears the selection |
| Agenda.AgendaPage.OpenBlockTimeModal | src/app/agenda/page.tsx:155-157 | opens the block form |
| Agenda.AgendaPage.CloseBlockTimeModal | src/app/agenda/page.tsx:159-161 | closes the block form |
| Agenda.AgendaPage.EventCreated | src/app/agenda/page.tsx:163-167 | closes both forms, clears the selection and reloads the week |
| AppointmentForm.OffsetSuffixFixed | src/components/agenda/AppointmentFormModal.tsx:121-125 | the "±HH:MM" suffix built from the absolute offset |
| AppointmentForm.OffsetSuffixFixedRoundTrip | src/components/agenda/AppointmentFormModal.tsx:120-128 | the corrected suffix denotes exactly the browser's offset |
| AppointmentForm.OffsetSuffixAsWritten | src/components/agenda/AppointmentFormModal.tsx:121-125 | the suffix as written is correct except for zones ahead of UTC by a fractional hour, which are off by one hour |
| AppointmentForm.OffsetSuffixIndia | src/components/agenda/AppointmentFormModal.tsx:122 | offset −330 gives "+06:30" as written, "+05:30" corrected |
| AppointmentForm.Submission | src/components/agenda/AppointmentFormModal.tsx:108-148 | refused by the browser iff the service is empty or the duration is not 30, 60, 90, ... (`required`, `min`, `step`, lines 226-246); otherwise sends only with date, time, patient and doctor; the interval is `duration` long on the chosen day; recurrence only when checked; an unreadable time label crashes; the suffix is the corrected one (see Findings) |
| AppointmentForm.ToRequest | src/components/agenda/AppointmentFormModal.tsx:139-150 | the server reads both timestamps under the suffix; the interval length is preserved |
| AppointmentForm.GridSlotSubmission | src/components/agenda/AppointmentFormModal.tsx:116-118 | a grid slot label never crashes, and the start is that hour on the chosen day |
| AppointmentForm.SentRequestInterval | src/components/agenda/AppointmentFormModal.tsx:116-131 | with the corrected suffix the server books exactly the chosen local instant for `duration` minutes |
| AppointmentForm.SentRequestIntervalAsWritten | src/components/agenda/AppointmentFormModal.tsx:120-131 | with the suffix the form writes, the server books the chosen local instant, except in zones ahead of UTC by a fractional hour, where both ends are an hour early |
| AppointmentForm.RecurrenceIgnoredByServer | src/app/agenda/actions.ts:6-25 | the request read by this version of `createAppointment` does not depend on the recurrence fields |
| AppointmentForm.DisplayName | src/components/agenda/AppointmentFormModal.tsx:165 | first name, a space, last name, with missing names empty |
| AppointmentForm.FormState.constructor | src/components/agenda/AppointmentFormModal.tsx:53-62 | every field starts at its initial value |
| AppointmentForm.FormState.ResetOnClose | src/components/agenda/AppointmentFormModal.tsx:66-80 | closing resets every field |
| AppointmentForm.FormState.SelectPatient | src/components/agenda/AppointmentFormModal.tsx:163-168 | picks the patient, shows its name in the search box, empties the results |
| AppointmentForm.FormState.TypeSearch | src/components/agenda/AppointmentFormModal.tsx:195-201 | typing drops a selected patient as soon as the text differs from its name |
| AppointmentForm.FormState.ClearSelection | src/components/agenda/AppointmentFormModal.tsx:206-208 | clears the patient, its name and the search text |
| AppointmentForm.FormState.SearchEffect | src/components/agenda/AppointmentFormModal.tsx:82-106 | more than two characters search (at most ten results); otherwise the list is empty |
| AppointmentForm.FormState.HandleSubmit | src/components/agenda/AppointmentFormModal.tsx:108-137 | the outcome is the submission, browser check included, with the corrected suffix; loading is set while the request is out |
| AppointmentForm.FormState.ServerAnswered | src/components/agenda/AppointmentFormModal.tsx:152 | loading ends when the server answers |
| BlockForm.ClockLabelTimeOfDay | src/components/agenda/BlockTimeModal.tsx:86 | an "HH:MM" label reads back as its minutes after midnight |
| BlockForm.Tabulate | src/components/agenda/BlockTimeModal.tsx:56-61 | a list built by appending has the requested length |
| BlockForm.TabulateEntry | src/components/agenda/BlockTimeModal.tsx:56-61 | entry k of the built list is the k-th value |
| BlockForm.BuildTimeSlots | src/components/agenda/BlockTimeModal.tsx:56-61 | the loop builds the 23-entry half-hour list |
| BlockForm.TimeSlotValues | src/components/agenda/BlockTimeModal.tsx:56-61 | entry k is 08:00 plus k half hours, first 08:00, last 19:00 |
| BlockForm.RoundedTimeOfDay | src/components/agenda/BlockTimeModal.tsx:44-45 | the time of day rounded down to a half hour |
| BlockForm.FormattedTimeRoundsDown | src/components/agenda/BlockTimeModal.tsx:41-47 | `getFormattedTime` names the time rounded down to a half hour |
| BlockForm.FormattedTimeParses | src/components/agenda/BlockTimeModal.tsx:41-47 | the formatted time reads back as its hour and the rounded minute |
| BlockForm.RoundingLoss | src/components/agenda/BlockTimeModal.tsx:44-45 | rounding down to a half hour loses less than 30 minutes |
| BlockForm.FullYear | src/components/agenda/BlockTimeModal.tsx:87 | years 0 to 99 mean 1900 to 1999 |
| BlockForm.LocalDateTime | src/components/agenda/BlockTimeModal.tsx:87 | `new Date(y, m - 1, d, h, min)` is NaN on a NaN part or past the time-value limit |
| BlockForm.LocalDateTimeOfValid | src/components/agenda/BlockTimeModal.tsx:87 | a valid date and time give that local instant |
| BlockForm.MakeDayOfMonth | src/components/agenda/BlockTimeModal.tsx:87 | the month index `m - 1` of the constructor names calendar month m of a four-digit year |
| BlockForm.ParseInstantOfLabels | src/components/agenda/BlockTimeModal.tsx:85-91 | a date label and a time label read back as that local instant |
| BlockForm.ParsedInstantReadsBack | src/components/agenda/BlockTimeModal.tsx:85-91 | fields naming a valid day and time are read as that day, hour and minute |
| BlockForm.BlockSubmission | src/components/agenda/BlockTimeModal.tsx:76-110 | incomplete iff a field or the doctor is missing; invalid iff a field pair does not parse; otherwise sent iff end is after start |
| BlockForm.SubmissionOfInstants | src/components/agenda/BlockTimeModal.tsx:93-110 | fields that parse to two instants are refused iff the end is not after the start, and are sent as those instants otherwise |
| BlockForm.SentBlockStored | src/components/agenda/BlockTimeModal.tsx:99-110 | whatever the form sends is stored by the server as a non-empty interval |
| BlockForm.DefaultFieldInstant | src/components/agenda/BlockTimeModal.tsx:67-70 | a date field with the formatted time reads as that day at the rounded time |
| BlockForm.RoundedHourLater | src/components/agenda/BlockTimeModal.tsx:66-70 | an hour later rounds an hour later, except in the day's last hour, where it wraps |
| BlockForm.OpenedDefaultsSubmission | src/components/agenda/BlockTimeModal.tsx:63-74 | the opened fields submit a one-hour block, or are refused in the day's last hour |
| BlockForm.OpenedFieldsSubmission | src/components/agenda/BlockTimeModal.tsx:67-70 | the opened fields parse to the rounded times of now and an hour later |
| BlockForm.DefaultStartOffset | src/components/agenda/BlockTimeModal.tsx:63-74 | the default start lies as many days from now as the date field's day is from the local day, less the rounding |
| BlockForm.StartFromNow | src/components/agenda/BlockTimeModal.tsx:67-70 | the instant of a day and time lies the day difference times 1440 minutes from now, less the time of day already past |
| BlockForm.DefaultStartOnUtcDay | src/components/agenda/BlockTimeModal.tsx:40-70 | with the UTC day in the date fields, the start is off by the difference between the UTC and local days |
| BlockForm.DefaultStartEveningInMexico | src/components/agenda/BlockTimeModal.tsx:40-70 | at 19:10 in Mexico City the default block starts 1430 minutes after now |
| BlockForm.DefaultStartOnLocalDay | src/components/agenda/BlockTimeModal.tsx:63-74 | with the local day, the default block starts within the last 30 minutes and lasts an hour |
| BlockForm.FormState.Open | src/components/agenda/BlockTimeModal.tsx:63-74 | opening fills the date fields, the rounded times of now and an hour later, an empty reason |
| BlockForm.FormState.HandleSubmit | src/components/agenda/BlockTimeModal.tsx:76-103 | the outcome is the block submission; loading stays on only while a request is out |
| BlockForm.FormState.ServerAnswered | src/components/agenda/BlockTimeModal.tsx:112 | loading ends when the server answers |
| Patients.NormalEmail | src/app/pacientes/actions.ts:57 | null iff the e-mail is missing or empty, otherwise lower-cased |
| Patients.Normalize | src/app/pacientes/actions.ts:52-61 | names copied, empty optional fields null, e-mail lower-cased |
| Patients.SoftDeleted | src/app/pacientes/actions.ts:164-167 | the soft delete keeps every row id |
| Patients.AddSucceedsIff | src/app/pacientes/actions.ts:47-73 | added iff both names are given and the insert succeeds; the row is well formed, not deleted, e-mail lower-cased |
| Patients.UpdateSucceedsIff | src/app/pacientes/actions.ts:103-131 | id checked first, then names; a missing row is a failed update; the row keeps its deletion stamp and gets `updated_at` |
| Patients.NormalizeIdempotent | src/app/pacientes/actions.ts:110-119 | saving a stored row through the form writes the same fields |
| Patients.SaveUnchangedRow | src/app/pacientes/actions.ts:103-131 | in a well-formed table, saving a row through the edit form unchanged succeeds and only stamps `updated_at` |
| Patients.ResaveChangesOnlyTimestamp | src/app/pacientes/actions.ts:110-126 | a second save of an updated row changes only `updated_at` |
| Patients.SoftDeleteHidesOnlyThatRow | src/app/pacientes/actions.ts:164-167 | soft delete keeps every row, stamps only that one, and hides exactly it from the list |
| Patients.UpdateKeepsVisibility | src/app/pacientes/actions.ts:121-126 | an update never changes whether a patient is listed |
| Patients.PatientStore.constructor | src/app/pacientes/actions.ts:63-73 | a store over a well-formed table: every row under its own id, optional fields null rather than empty, e-mails lower-case |
| Patients.PatientStore.AddPatient | src/app/pacientes/actions.ts:18-81 | inserts one row on success and nothing otherwise; keeps the table well formed |
| Patients.PatientStore.UpdatePatient | src/app/pacientes/actions.ts:83-138 | rewrites only row `id` on success, nothing otherwise; keeps the table well formed |
| Patients.PatientStore.DeletePatient | src/app/pacientes/actions.ts:140-179 | stamps `deleted_at` on row `id` and keeps it; an unknown id is no error; keeps the table well formed |
| Reminders.Candidates | supabase/functions/send-reminders/index.ts:14-34 | keeps exactly the rows starting in [now, now + 24 h] whose status is set and not 'cancelled' |
| Reminders.WithConsent | supabase/functions/send-reminders/index.ts:52-55 | keeps exactly the rows with a patient whose consent is exactly true |
| Reminders.WithConsentAppend | supabase/functions/send-reminders/index.ts:52-55 | the consent filter keeps the order |
| Reminders.Recipient | supabase/functions/send-reminders/index.ts:87 | "whatsapp:+" followed by a number that ends with the stored phone |
| Reminders.RecipientCountryCode | supabase/functions/send-reminders/index.ts:87 | a number without '+' gets +52: "X" and "+52X" reach the same recipient |
| Reminders.RecipientInjective | supabase/functions/send-reminders/index.ts:87 | numbers written alike reach the same recipient only when equal |
| Reminders.MessageFor | supabase/functions/send-reminders/index.ts:84-95 | the message goes to the patient's recipient, from the practice number |
| Reminders.Messages | supabase/functions/send-reminders/index.ts:77-82 | at most one message per consented appointment |
| Reminders.MessagesReachExactly | supabase/functions/send-reminders/index.ts:77-95 | every message goes to a row with a phone, and every such row gets its message; all rows get one iff all have phones |
| Reminders.RunOutcomes | supabase/functions/send-reminders/index.ts:36-74 | the checks and their order: query error, no appointments, no consent, missing credentials, processed |
| Reminders.ProcessedCountsConsented | supabase/functions/send-reminders/index.ts:76-121 | the count is the consented appointments, skipped ones included; only consented, reachable patients in the window get messages, and all of them do |
| Reminders.Delivered | supabase/functions/send-reminders/index.ts:97-116 | at most the attempted messages are delivered |
| Reminders.DeliveredIff | supabase/functions/send-reminders/index.ts:97-116 | exactly the accepted messages are delivered; a rejection does not stop the others |
| Reminders.Dispatch | supabase/functions/send-reminders/index.ts:77-119 | the send loop attempts exactly the messages and delivers exactly the accepted ones |
| Reminders.SendReminders | supabase/functions/send-reminders/index.ts:5-133 | the reply is the run's outcome; deliveries happen only when processed |
| ServiceReport.ServiceKey | src/components/reportes/ServiceBreakdownReport.tsx:36 | a missing or empty description is filed as 'Sin descripción' |
| ServiceReport.SliceColor | src/components/reportes/ServiceBreakdownReport.tsx:69-71 | slice colours come from the palette and repeat every six slices |
| ServiceReport.KeysAreTheServices | src/components/reportes/ServiceBreakdownReport.tsx:35-47 | the keys are exactly the payments' services, each once |
| ServiceReport.TotalOfAbsentKey | src/components/reportes/ServiceBreakdownReport.tsx:37-40 | a service no payment carries totals zero |
| ServiceReport.TotalsAddUp | src/components/reportes/ServiceBreakdownReport.tsx:34-42 | the per-service totals add up to the sum of all amounts |
| ServiceReport.Aggregate | src/components/reportes/ServiceBreakdownReport.tsx:34-42 | the `reduce` yields one total per service, equal to the sum of that service's amounts, keys in first-appearance order |
| ServiceReport.ChartData | src/components/reportes/ServiceBreakdownReport.tsx:44-47 | one slice per key |
| ServiceReport.ChartTotalIsSumOver | src/components/reportes/ServiceBreakdownReport.tsx:44-47 | slices worth their keys' totals add up to the sum over those keys |
| ServiceReport.Report | src/components/reportes/ServiceBreakdownReport.tsx:19-71 | "no data" iff there are no payments; otherwise one slice per service with its total and palette colour, adding up to all amounts |

## Left out

- Time zones with daylight saving: the offset is one fixed input per computation. A `Date` crossing a transition is not modelled.
- Seconds and milliseconds: instants are whole minutes (`now` in the reminder window, `toISOString` fractions).
- The ISO timestamp strings exchanged with the store are not parsed; timestamps travel as instants. The appointment form's payload is modelled as a wall-clock reading plus its suffix (`AppointmentForm.ToRequest`).
- BlockForm.FormState.Open: the "YYYY-MM-DD" text the date fields get is an input. Converting an instant back to a calendar date (`toISOString().split('T')[0]`) is not modelled. `DefaultStartOnUtcDay` and `DefaultStartOnLocalDay` state what each choice of date gives.
- BlockForm.LocalDateTime: dates are proved to read back only for the years 1000 to 9999 and offsets under a day.
- Base.NumberOf: `Number(...)` is modelled on strings of decimal digits, which is all the code produces. Signs, spaces, decimals and exponents are treated as NaN.
- Base.Lower: lower-casing covers ASCII letters only.
- Base.TwoDigits: spelled digit by digit below 100. `TwoDigitsIsPadded` proves it equals `padStart(2, '0')` of `toString()`.
- Sorting.SortBy: ties in the store's `order('start_time')` are taken in table order; the store does not promise any order for ties.
- Reminders.MessageBody: the time in the message text comes from a formatter (`format(..., 'h:mm a')` of the Deno standard library), which is passed in as a function and not modelled.
- The Twilio HTTP requests, their authorisation header, `Promise.all` and the HTTP handler are not modelled. A gateway answer is an input (`accepts`).
- The query and insert of `createAppointment` are not atomic. Two concurrent bookings can both pass the checks; the model runs actions one at a time.
- Recurring appointments: the model pairs the booking form with `createAppointment` of `src/app/agenda/actions.ts`, which ignores the recurrence fields. The form itself imports the action of `src/app/(app)/agenda/actions.ts` (`AppointmentFormModal.tsx:25`). That file is not part of this model; it reads `is_recurring` and `recurrence_rule` and inserts up to 12 weekly, bi-weekly or monthly occurrences.
- ServiceReport: amounts are integers (cents), not floating-point numbers, and currency formatting is left out.
- ServiceReport.Aggregate: keys are kept in first-appearance order. JavaScript's `Object.keys` would list integer-like keys (such as "2") first, in numeric order. The source sums into a plain `{}` (`ServiceBreakdownReport.tsx:35-42`), so a description naming an `Object.prototype` member is not a fresh key there. For "constructor" or "toString", the inherited function is truthy, so the reset to 0 is skipped and `+=` yields a string. For "__proto__", the assignment is ignored and those payments vanish from the chart. The model sums every description as an ordinary key.
- AppointmentForm.Submission, AppointmentForm.FormState.HandleSubmit, AppointmentForm.SentRequestInterval: these build the payload with the corrected suffix `OffsetSuffixFixed` from the first Findings row, not the floor suffix the form writes at `AppointmentFormModal.tsx:122`. With the form's suffix, zones ahead of UTC by a fractional hour are booked an hour early. `SentRequestIntervalAsWritten` states that case.
- BlockForm.BlockSubmission: an empty date field is stopped by the browser's `required` (`BlockTimeModal.tsx:150`, `:178`) before the submit handler runs. The model reports it as `Incomplete`, which sends nothing either, without telling the alert apart from the browser's own message.
- Patients.PatientStore.AddPatient: the store generates a fresh id, so the id is an input assumed absent from the table.
- The session, profile lookup and doctor name of the agenda page are inputs (`currentDoctorId`). Rendering, `alert`, `revalidatePath` and `toLocaleDateString` are left out.
- Patient search by name (`ilike`) is an input: the store's answer (`found`).

## Findings

| source | as written | input that shows it | evidently intended | confidence | as-written member | corrected member |
|---|---|---|---|---|---|---|
| src/components/agenda/AppointmentFormModal.tsx:122 | the offset hours are `Math.abs(Math.floor(offset / 60))`, which rounds a negative fractional offset away from zero | `getTimezoneOffset() == -330` (India, UTC+05:30) gives "+06:30", a suffix of +390 minutes, so 10:00 local is stored as 03:30 UTC, which is 09:00 local | hours of the absolute offset, "+05:30" | high, not executed | AppointmentForm.OffsetSuffixIndia | AppointmentForm.OffsetSuffixFixedRoundTrip |
| src/components/agenda/BlockTimeModal.tsx:40 | the date fields get the UTC calendar day (`toISOString`) while the time fields get the local time | Mexico City (offset 360) at 19:10 on 2024-05-10: the date is 2024-05-11 and the default block starts 23 h 50 min later | the local calendar day, so the block starts at the current half hour | high, not executed | BlockForm.DefaultStartEveningInMexico | BlockForm.DefaultStartOnLocalDay |
