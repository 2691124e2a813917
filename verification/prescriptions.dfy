/** Prescription endpoints (backend/app/api/v1/endpoints/prescriptions.py).
    Like appointments, ownership compares `patient_id`/`doctor_id` with the
    caller's user id. */
module Prescriptions {
  import opened Wrappers
  import opened Http
  import opened Users
  import opened Dependencies
  import Roles
  import Keys

  /** A row of `prescriptions`; `date_issued` is a timestamp in seconds. */
  datatype Prescription = Prescription(
    patientId: int,
    doctorId: int,
    dateIssued: int,
    medications: Option<string>,
    notes: Option<string>)

  /** `PrescriptionCreate`. */
  datatype PrescriptionCreate = PrescriptionCreate(
    patientId: int,
    doctorId: int,
    medications: string,
    notes: Option<string>)

  /** `PrescriptionUpdate`: only the medication text and the notes. */
  datatype PrescriptionUpdate = PrescriptionUpdate(
    medications: Patch<Option<string>>,
    notes: Patch<Option<string>>)

  const ListRoles: set<string> := {Roles.Admin, Roles.Doctor, Roles.HospitalAdmin, Roles.Patient}
  const CreateRoles: set<string> := {Roles.Doctor}
  const UpdateRoles: set<string> := {Roles.Doctor, Roles.HospitalAdmin}

  /** The rows the general listing selects for the caller: a patient's own,
      a doctor's own, or every row for the other permitted roles. */
  predicate Selects(user: User, p: Prescription)
  {
    && (user.role == Roles.Patient ==> p.patientId == user.id)
    && (user.role == Roles.Doctor ==> p.doctorId == user.id)
  }

  /** Whether a list of rows passes `List[PrescriptionRead]` validation:
      `medications` is a required string there, while the column is nullable. */
  predicate Readable(rows: map<int, Prescription>)
  {
    forall k :: k in rows ==> rows[k].medications.Some?
  }

  /** `list_prescriptions`: scoped like the appointment list. A selected row
      without medication text makes the reply fail validation: a 500. */
  function ListPrescriptions(user: User, table: map<int, Prescription>): (r: Result<map<int, Prescription>, Status>)
    ensures r.Failure? ==> r.error in {Forbidden, InternalError}
    ensures r.Failure? && r.error == Forbidden <==> user.role !in ListRoles
    ensures r.Failure? && r.error == InternalError <==>
      user.role in ListRoles && exists k :: k in table && Selects(user, table[k]) && table[k].medications.None?
    ensures r.Success? ==> Readable(r.value)
    ensures r.Success? ==> forall k :: k in table ==> (k in r.value <==> Selects(user, table[k]))
    ensures r.Success? ==> forall k :: k in r.value ==> k in table && r.value[k] == table[k]
    ensures r.Success? && user.role == Roles.Patient ==>
      forall k :: k in table ==> (k in r.value <==> table[k].patientId == user.id)
    ensures r.Success? && user.role == Roles.Doctor ==>
      forall k :: k in table ==> (k in r.value <==> table[k].doctorId == user.id)
    ensures r.Success? && user.role in {Roles.Admin, Roles.HospitalAdmin} ==> r.value == table
  {
    var _ :- RequireRoles(user, ListRoles);
    var rows := Keys.Where(table, (p: Prescription) => Selects(user, p));
    if Readable(rows) then Success(rows) else Failure(InternalError)
  }

  /** `create_prescription`: doctors only; the issue time is the server's clock. */
  function CreatePrescription(user: User, table: map<int, Prescription>, req: PrescriptionCreate, now: int)
    : (r: Result<Keys.Stored<Prescription>, Status>)
    ensures r.Success? <==> user.role == Roles.Doctor
    ensures r.Failure? ==> r.error == Forbidden
    ensures r.Success? ==> r.value.id !in table && r.value.table == table[r.value.id := r.value.row]
    ensures r.Success? ==>
      && r.value.row.dateIssued == now
      && r.value.row.patientId == req.patientId
      && r.value.row.doctorId == req.doctorId
      && r.value.row.medications == Some(req.medications)
      && r.value.row.notes == req.notes
  {
    var _ :- RequireRoles(user, CreateRoles);
    var id := Keys.NextId(table.Keys);
    var row := Prescription(req.patientId, req.doctorId, now, Some(req.medications), req.notes);
    Success(Keys.Stored(table[id := row], id, row))
  }

  /** A new prescription may be updated by the doctor who wrote it, and is in
      their listing whenever that listing can be sent, exactly when the body
      names that doctor: the doctor id is taken from the body, not from the
      caller. The new row has medication text, so creating it never turns a
      listing that could be sent into a 500. */
  lemma CreatedOwnedIffOwnDoctor(user: User, table: map<int, Prescription>, req: PrescriptionCreate, now: int,
                                 update: PrescriptionUpdate)
    requires CreatePrescription(user, table, req, now).Success?
    ensures var s := CreatePrescription(user, table, req, now).value;
      && (UpdatePrescription(user, s.table, s.id, update) != Failure(Forbidden) <==> req.doctorId == user.id)
      && (ListPrescriptions(user, s.table).Success? <==> ListPrescriptions(user, table).Success?)
      && (ListPrescriptions(user, s.table).Success? ==>
            (s.id in ListPrescriptions(user, s.table).value <==> req.doctorId == user.id))
  {
    var s := CreatePrescription(user, table, req, now).value;
    if ListPrescriptions(user, table).Failure? {
      var k :| k in table && Selects(user, table[k]) && table[k].medications.None?;
      assert k in s.table && s.table[k] == table[k];
    }
    if ListPrescriptions(user, s.table).Failure? {
      var k :| k in s.table && Selects(user, s.table[k]) && s.table[k].medications.None?;
      assert k != s.id && k in table;
    }
  }

  /** `update_prescription`: 404 first, then a doctor may touch only their own
      prescriptions; hospital admins any. Patients fail the gate. When the
      updated row has no medication text, the reply cannot be serialised
      (`PrescriptionRead.medications` is a required string): a 500. */
  function UpdatePrescription(user: User, table: map<int, Prescription>, id: int, update: PrescriptionUpdate)
    : (r: Result<Keys.Stored<Prescription>, Status>)
    ensures r.Failure? && r.error == Forbidden <==>
      user.role !in UpdateRoles || (id in table && user.role == Roles.Doctor && table[id].doctorId != user.id)
    ensures r.Failure? && r.error == NotFound <==> user.role in UpdateRoles && id !in table
    ensures r.Failure? && r.error == InternalError <==>
      && user.role in UpdateRoles && id in table
      && !(user.role == Roles.Doctor && table[id].doctorId != user.id)
      && (update.medications == Set(None) || (update.medications.Unset? && table[id].medications.None?))
    ensures r.Failure? ==> r.error in {Forbidden, NotFound, InternalError}
    ensures r.Success? ==> r.value.id == id && id in table && r.value.table == table[id := r.value.row]
    ensures r.Success? ==> r.value.row.medications.Some?
    ensures r.Success? ==>
      && r.value.row.patientId == table[id].patientId
      && r.value.row.doctorId == table[id].doctorId
      && r.value.row.dateIssued == table[id].dateIssued
      && (update.medications.Unset? ==> r.value.row.medications == table[id].medications)
      && (update.medications.Set? ==> r.value.row.medications == update.medications.value)
      && (update.notes.Unset? ==> r.value.row.notes == table[id].notes)
      && (update.notes.Set? ==> r.value.row.notes == update.notes.value)
  {
    var _ :- RequireRoles(user, UpdateRoles);
    if id !in table then Failure(NotFound)
    else if user.role == Roles.Doctor && table[id].doctorId != user.id then Failure(Forbidden)
    else if update.medications.ApplyTo(table[id].medications).None? then Failure(InternalError)
    else
      var old_ := table[id];
      var row := old_.(medications := update.medications.ApplyTo(old_.medications),
                       notes := update.notes.ApplyTo(old_.notes));
      Success(Keys.Stored(table[id := row], id, row))
  }

  /** `get_patient_prescriptions`: a patient may ask only for their own id; the
      answer is every prescription for the requested patient id, and a 500
      when one of them has no medication text. */
  function GetPatientPrescriptions(user: User, table: map<int, Prescription>, patientId: int)
    : (r: Result<map<int, Prescription>, Status>)
    ensures r.Failure? ==> r.error in {Forbidden, InternalError}
    ensures r.Failure? && r.error == Forbidden <==>
      user.role !in ListRoles || (user.role == Roles.Patient && user.id != patientId)
    ensures r.Failure? && r.error == InternalError <==>
      && user.role in ListRoles && !(user.role == Roles.Patient && user.id != patientId)
      && exists k :: k in table && table[k].patientId == patientId && table[k].medications.None?
    ensures r.Success? ==> Readable(r.value)
    ensures r.Success? ==> forall k :: k in r.value <==> k in table && table[k].patientId == patientId
    ensures r.Success? ==> forall k :: k in r.value ==> r.value[k] == table[k]
  {
    var _ :- RequireRoles(user, ListRoles);
    if user.role == Roles.Patient && user.id != patientId then Failure(Forbidden)
    else
      var rows := Keys.Where(table, (p: Prescription) => p.patientId == patientId);
      if Readable(rows) then Success(rows) else Failure(InternalError)
  }

  /** For a patient, asking for their own prescriptions by id gives the same
      rows as the general listing. */
  lemma OwnPrescriptionsAgreeWithListing(user: User, table: map<int, Prescription>)
    requires user.role == Roles.Patient
    ensures GetPatientPrescriptions(user, table, user.id) == ListPrescriptions(user, table)
  {
    assert Keys.Where(table, (p: Prescription) => p.patientId == user.id)
        == Keys.Where(table, (p: Prescription) => Selects(user, p));
  }

  /** For a doctor, the prescriptions whose update is not refused with 403 are
      exactly the ones their listing selects, and shows whenever it can be
      sent. */
  lemma DoctorMayUpdateIffListed(user: User, table: map<int, Prescription>, id: int, update: PrescriptionUpdate)
    requires user.role == Roles.Doctor
    requires id in table
    ensures UpdatePrescription(user, table, id, update) != Failure(Forbidden) <==> Selects(user, table[id])
    ensures ListPrescriptions(user, table).Success? ==>
      (UpdatePrescription(user, table, id, update) != Failure(Forbidden) <==> id in ListPrescriptions(user, table).value)
  {
  }

  /** The table `update_prescription` leaves behind. The changes are committed
      before the reply is validated, so an update that nulls the medication
      text is stored although the caller receives a 500. */
  function UpdatePrescriptionCommitted(user: User, table: map<int, Prescription>, id: int, update: PrescriptionUpdate)
    : (t: map<int, Prescription>)
    ensures UpdatePrescription(user, table, id, update).Success? ==> t == UpdatePrescription(user, table, id, update).value.table
    ensures (UpdatePrescription(user, table, id, update).Failure?
             && UpdatePrescription(user, table, id, update).error != InternalError) ==> t == table
    ensures UpdatePrescription(user, table, id, update) == Failure(InternalError) ==>
      && id in table && t.Keys == table.Keys
      && t[id] == table[id].(medications := None, notes := update.notes.ApplyTo(table[id].notes))
      && forall k :: k in table && k != id ==> t[k] == table[k]
  {
    if user.role in UpdateRoles && id in table && !(user.role == Roles.Doctor && table[id].doctorId != user.id) then
      table[id := table[id].(medications := update.medications.ApplyTo(table[id].medications),
                             notes := update.notes.ApplyTo(table[id].notes))]
    else table
  }

  /** A hospital admin who sends `"medications": null` gets a 500, but the null
      is stored: from then on every listing that selects the row, and the
      patient's own prescription list, answers 500 as well. */
  lemma NulledRowBreaksListings(admin: User, table: map<int, Prescription>, id: int, update: PrescriptionUpdate,
                                reader: User)
    requires admin.role == Roles.HospitalAdmin
    requires id in table && update.medications == Set(None)
    requires reader.role in ListRoles && Selects(reader, table[id])
    ensures UpdatePrescription(admin, table, id, update) == Failure(InternalError)
    ensures var t := UpdatePrescriptionCommitted(admin, table, id, update);
      && ListPrescriptions(reader, t) == Failure(InternalError)
      && GetPatientPrescriptions(admin, t, table[id].patientId) == Failure(InternalError)
  {
    var t := UpdatePrescriptionCommitted(admin, table, id, update);
    assert id in t && Selects(reader, t[id]) && t[id].medications.None?;
  }
}
