/** The patient record actions: `addPatient`, `updatePatient` and the soft
    `deletePatient`, over a patients table keyed by id. Names are required,
    the optional fields are stored as NULL when missing or empty, and the
    e-mail address is stored lower-cased. Deleting only stamps `deleted_at`;
    the patient list hides such rows.

    What the store decides on its own (whether a statement fails, the id it
    generates, the clock it stamps with) is passed in as arguments. */
module Patients {
  import opened Base

  /** `PatientFormData`: the names, and the optional fields as sent (a missing
      field is None). */
  datatype PatientForm = PatientForm(
    firstName: string,
    lastName: string,
    dateOfBirth: Option<string>,
    phoneNumber: Option<string>,
    email: Option<string>,
    address: Option<string>,
    orthodonticStageNotes: Option<string>)

  /** A row of the patients table. Times are minutes since the epoch. */
  datatype Patient = Patient(
    id: string,
    firstName: string,
    lastName: string,
    dateOfBirth: Option<string>,
    phoneNumber: Option<string>,
    email: Option<string>,
    address: Option<string>,
    orthodonticStageNotes: Option<string>,
    updatedAt: Option<int>,
    deletedAt: Option<int>)

  datatype PatientError =
    | NamesRequired             // "Nombre y Apellidos son obligatorios."
    | IdRequired                // "ID del paciente es requerido para ..."
    | InsertFailed(msg: string) // "Error de base de datos: ..."
    | UpdateFailed(msg: string) // "Error de base de datos al actualizar: ..."
    | DeleteFailed(msg: string) // "Error de base de datos al eliminar: ..."

  /** The store's complaint when `.single()` finds no row to return. */
  const NoRowMessage: string := "JSON object requested, multiple (or no) rows returned"

  /** `formData.email?.toLowerCase() || null`. */
  function NormalEmail(email: Option<string>): (r: Option<string>)
    ensures r.None? <==> email.None? || email.value == ""
    ensures r.Some? ==> r.value == Lower(email.value)
  {
    if email.None? then None else NullIfEmpty(Some(Lower(email.value)))
  }

  /** The checked and normalised form: the payload both `addPatient` and
      `updatePatient` write, less the id and the time stamps. */
  datatype Fields = Fields(
    firstName: string,
    lastName: string,
    dateOfBirth: Option<string>,
    phoneNumber: Option<string>,
    email: Option<string>,
    address: Option<string>,
    orthodonticStageNotes: Option<string>)

  predicate HasNames(form: PatientForm) {
    form.firstName != "" && form.lastName != ""
  }

  function Normalize(form: PatientForm): (f: Fields)
    ensures f.firstName == form.firstName && f.lastName == form.lastName
    ensures f.dateOfBirth == NullIfEmpty(form.dateOfBirth)
    ensures f.phoneNumber == NullIfEmpty(form.phoneNumber)
    ensures f.email == NormalEmail(form.email)
    ensures f.address == NullIfEmpty(form.address)
    ensures f.orthodonticStageNotes == NullIfEmpty(form.orthodonticStageNotes)
  {
    Fields(form.firstName, form.lastName, NullIfEmpty(form.dateOfBirth), NullIfEmpty(form.phoneNumber),
           NormalEmail(form.email), NullIfEmpty(form.address), NullIfEmpty(form.orthodonticStageNotes))
  }

  /** The row a payload becomes. */
  function RowOf(id: string, f: Fields, updatedAt: Option<int>, deletedAt: Option<int>): Patient {
    Patient(id, f.firstName, f.lastName, f.dateOfBirth, f.phoneNumber, f.email, f.address,
            f.orthodonticStageNotes, updatedAt, deletedAt)
  }

  /** The fields a stored row carries, as the edit form sends them back. */
  function FormOf(p: Patient): PatientForm {
    PatientForm(p.firstName, p.lastName, p.dateOfBirth, p.phoneNumber, p.email, p.address, p.orthodonticStageNotes)
  }

  /** A stored optional field is never the empty string, and a stored e-mail has
      no capital letter. */
  predicate WellFormed(p: Patient) {
    p.firstName != "" && p.lastName != "" &&
    p.dateOfBirth != Some("") && p.phoneNumber != Some("") && p.email != Some("") &&
    p.address != Some("") && p.orthodonticStageNotes != Some("") &&
    (p.email.Some? ==> Lower(p.email.value) == p.email.value)
  }

  /** Every row is filed under its own id and is well formed. */
  predicate TableWellFormed(rows: map<string, Patient>) {
    forall id :: id in rows ==> rows[id].id == id && WellFormed(rows[id])
  }

  // ---------------------------------------------------------------------------
  // The three actions as functions of the table.

  /** The outcome of `addPatient`. */
  function AddOutcome(form: PatientForm, newId: string, fault: Option<string>): (r: Result<Patient, PatientError>)
  {
    if !HasNames(form) then Err(NamesRequired)
    else if fault.Some? then Err(InsertFailed(fault.value))
    else Ok(RowOf(newId, Normalize(form), None, None))
  }

  /** The outcome of `updatePatient`: the row as it is after the update. */
  function UpdateOutcome(rows: map<string, Patient>, id: string, form: PatientForm, now: int, fault: Option<string>)
    : (r: Result<Patient, PatientError>)
  {
    if id == "" then Err(IdRequired)
    else if !HasNames(form) then Err(NamesRequired)
    else if fault.Some? then Err(UpdateFailed(fault.value))
    else if id !in rows then Err(UpdateFailed(NoRowMessage))
    else Ok(RowOf(id, Normalize(form), Some(now), rows[id].deletedAt))
  }

  /** The table after a successful `deletePatient`: the row, if there is one,
      stamped as deleted. */
  function SoftDeleted(rows: map<string, Patient>, id: string, now: int): (r: map<string, Patient>)
    ensures r.Keys == rows.Keys
  {
    if id in rows then rows[id := rows[id].(deletedAt := Some(now))] else rows
  }

  /** The outcome of `deletePatient`. */
  function DeleteOutcome(id: string, fault: Option<string>): Option<PatientError> {
    if id == "" then Some(IdRequired)
    else if fault.Some? then Some(DeleteFailed(fault.value))
    else None
  }

  /** The ids the patient list shows (`.is('deleted_at', null)`). */
  function Visible(rows: map<string, Patient>): set<string> {
    set id | id in rows && rows[id].deletedAt.None?
  }

  // ---------------------------------------------------------------------------
  // What the outcomes mean.

  /** A patient is added exactly when both names are given and the insert
      succeeds; the row holds the normalised form and is not deleted. */
  lemma AddSucceedsIff(form: PatientForm, newId: string, fault: Option<string>)
    ensures AddOutcome(form, newId, fault).Ok? <==> HasNames(form) && fault.None?
    ensures !HasNames(form) ==> AddOutcome(form, newId, fault) == Err(NamesRequired)
    ensures HasNames(form) && fault.Some? ==> AddOutcome(form, newId, fault) == Err(InsertFailed(fault.value))
    ensures AddOutcome(form, newId, fault).Ok? ==>
              var p := AddOutcome(form, newId, fault).value;
              p.id == newId && p.deletedAt.None? && WellFormed(p) &&
              p.firstName == form.firstName && p.lastName == form.lastName &&
              p.email == NormalEmail(form.email) && p.phoneNumber == NullIfEmpty(form.phoneNumber)
  {
    if HasNames(form) && fault.None? {
      var p := AddOutcome(form, newId, fault).value;
      if p.email.Some? {
        LowerIdempotent(form.email.value);
      }
    }
  }

  /** An update needs an id first, then both names; a failed statement, or an id
      with no row, is reported as a failed update. */
  lemma UpdateSucceedsIff(rows: map<string, Patient>, id: string, form: PatientForm, now: int, fault: Option<string>)
    ensures UpdateOutcome(rows, id, form, now, fault).Ok? <==>
              id != "" && HasNames(form) && fault.None? && id in rows
    ensures id == "" ==> UpdateOutcome(rows, id, form, now, fault) == Err(IdRequired)
    ensures id != "" && !HasNames(form) ==> UpdateOutcome(rows, id, form, now, fault) == Err(NamesRequired)
    ensures id != "" && HasNames(form) && id !in rows ==> UpdateOutcome(rows, id, form, now, fault).Err?
    ensures UpdateOutcome(rows, id, form, now, fault).Ok? ==>
              var p := UpdateOutcome(rows, id, form, now, fault).value;
              p.id == id && p.updatedAt == Some(now) && p.deletedAt == rows[id].deletedAt && WellFormed(p)
  {
    if id != "" && HasNames(form) && fault.None? && id in rows {
      var p := UpdateOutcome(rows, id, form, now, fault).value;
      if p.email.Some? {
        LowerIdempotent(form.email.value);
      }
    }
  }

  /** Saving a stored row back through the edit form writes the same fields:
      the normalisation is idempotent. */
  lemma NormalizeIdempotent(p: Patient)
    requires WellFormed(p)
    ensures var f := Normalize(FormOf(p));
            RowOf(p.id, f, p.updatedAt, p.deletedAt) == p
  {
  }

  /** In a table the actions have written, saving any row through the edit form
      unchanged succeeds and changes nothing but its `updated_at`. */
  lemma SaveUnchangedRow(rows: map<string, Patient>, id: string, now: int)
    requires TableWellFormed(rows) && id in rows && id != ""
    ensures UpdateOutcome(rows, id, FormOf(rows[id]), now, None) == Ok(rows[id].(updatedAt := Some(now)))
  {
    NormalizeIdempotent(rows[id]);
  }

  /** The normalised payload of any form, once stored, is well formed, so a
      second save of it changes nothing but the time stamp. */
  lemma {:induction false} ResaveChangesOnlyTimestamp(rows: map<string, Patient>, id: string, form: PatientForm,
                                                      now: int, later: int)
    requires UpdateOutcome(rows, id, form, now, None).Ok?
    ensures var p := UpdateOutcome(rows, id, form, now, None).value;
            var q := UpdateOutcome(rows[id := p], id, FormOf(p), later, None);
            q.Ok? && q.value == p.(updatedAt := Some(later))
  {
    var p := UpdateOutcome(rows, id, form, now, None).value;
    UpdateSucceedsIff(rows, id, form, now, None);
    NormalizeIdempotent(p);
  }

  /** Soft delete keeps every row, stamps only the given one, and hides exactly
      it from the patient list. */
  lemma SoftDeleteHidesOnlyThatRow(rows: map<string, Patient>, id: string, now: int)
    ensures var r := SoftDeleted(rows, id, now);
            r.Keys == rows.Keys &&
            (forall k :: k in rows && k != id ==> r[k] == rows[k]) &&
            (id in rows ==> r[id] == rows[id].(deletedAt := Some(now))) &&
            Visible(r) == Visible(rows) - {id}
  {
  }

  /** An update never changes whether a patient is listed. */
  lemma UpdateKeepsVisibility(rows: map<string, Patient>, id: string, form: PatientForm, now: int)
    requires UpdateOutcome(rows, id, form, now, None).Ok?
    ensures Visible(rows[id := UpdateOutcome(rows, id, form, now, None).value]) == Visible(rows)
  {
  }

  // ---------------------------------------------------------------------------
  // The table and the actions that change it.

  class PatientStore {
    var rows: map<string, Patient>

    /** A store over a table whose rows the actions could have written. */
    constructor (initial: map<string, Patient>)
      requires TableWellFormed(initial)
      ensures rows == initial && Valid()
    {
      rows := initial;
    }

    ghost predicate Valid()
      reads this
    {
      TableWellFormed(rows)
    }

    /** `addPatient`: inserts one row on success and nothing otherwise. The store
        hands out a fresh id. */
    method AddPatient(form: PatientForm, newId: string, fault: Option<string>)
      returns (r: Result<Patient, PatientError>)
      requires Valid() && newId !in rows
      modifies this
      ensures r == AddOutcome(form, newId, fault)
      ensures rows == if r.Ok? then old(rows)[newId := r.value] else old(rows)
      ensures Valid()
    {
      if form.firstName == "" || form.lastName == "" {
        return Err(NamesRequired);
      }
      var payload := Normalize(form);
      if fault.Some? {
        return Err(InsertFailed(fault.value));
      }
      AddSucceedsIff(form, newId, fault);
      var row := RowOf(newId, payload, None, None);
      rows := rows[newId := row];
      r := Ok(row);
    }

    /** `updatePatient`: rewrites the fields of row `id` and stamps `updated_at`;
        every other row, and the row's deletion stamp, stay as they were. */
    method UpdatePatient(id: string, form: PatientForm, now: int, fault: Option<string>)
      returns (r: Result<Patient, PatientError>)
      requires Valid()
      modifies this
      ensures r == UpdateOutcome(old(rows), id, form, now, fault)
      ensures rows == if r.Ok? then old(rows)[id := r.value] else old(rows)
      ensures Valid()
    {
      if id == "" {
        return Err(IdRequired);
      }
      if form.firstName == "" || form.lastName == "" {
        return Err(NamesRequired);
      }
      var payload := Normalize(form);
      if fault.Some? {
        return Err(UpdateFailed(fault.value));
      }
      if id !in rows {
        return Err(UpdateFailed(NoRowMessage));
      }
      UpdateSucceedsIff(rows, id, form, now, fault);
      var row := RowOf(id, payload, Some(now), rows[id].deletedAt);
      rows := rows[id := row];
      r := Ok(row);
    }

    /** `deletePatient`: stamps `deleted_at` on row `id` and keeps it; an id with
        no row is not an error and changes nothing. */
    method DeletePatient(id: string, now: int, fault: Option<string>) returns (err: Option<PatientError>)
      requires Valid()
      modifies this
      ensures err == DeleteOutcome(id, fault)
      ensures rows == if err.None? then SoftDeleted(old(rows), id, now) else old(rows)
      ensures Valid()
    {
      if id == "" {
        return Some(IdRequired);
      }
      if fault.Some? {
        return Some(DeleteFailed(fault.value));
      }
      if id in rows {
        rows := rows[id := rows[id].(deletedAt := Some(now))];
      }
      err := None;
    }

    /** The patient list. */
    function ListedIds(): set<string>
      reads this
    {
      Visible(rows)
    }
  }
}
