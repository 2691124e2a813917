/** Patient endpoints (backend/app/api/v1/endpoints/patients.py). Ownership
    here compares the row's `user_id` with the caller's user id. */
module Patients {
  import opened Wrappers
  import opened Http
  import opened Users
  import opened Dependencies
  import Roles
  import Keys

  /** A row of `patients`. */
  datatype Patient = Patient(
    userId: int,
    medicalHistory: Option<string>,
    address: Option<string>,
    phone: Option<string>,
    emergencyContact: Option<string>)

  /** `PatientUpdate`: every profile field optional; `user_id` is not part of it. */
  datatype PatientUpdate = PatientUpdate(
    medicalHistory: Patch<Option<string>>,
    address: Patch<Option<string>>,
    phone: Patch<Option<string>>,
    emergencyContact: Patch<Option<string>>)

  const ListRoles: set<string> := {Roles.Admin, Roles.Doctor, Roles.HospitalAdmin}
  const GetRoles: set<string> := {Roles.Admin, Roles.Doctor, Roles.HospitalAdmin, Roles.Patient}
  const UpdateRoles: set<string> := {Roles.Admin, Roles.HospitalAdmin, Roles.Patient}
  const HistoryRoles: set<string> := {Roles.Doctor, Roles.HospitalAdmin}

  /** The ownership rule shared by read and update: only a patient caller is
      restricted, and then to the row carrying their own user id. */
  predicate MayAccess(user: User, p: Patient)
  {
    user.role == Roles.Patient ==> p.userId == user.id
  }

  /** `list_patients`: the whole table, to staff roles only. */
  function ListPatients(user: User, table: map<int, Patient>): (r: Result<map<int, Patient>, Status>)
    ensures r.Success? <==> user.role in ListRoles
    ensures r.Failure? ==> r.error == Forbidden
    ensures r.Success? ==> r.value == table
  {
    var _ :- RequireRoles(user, ListRoles);
    Success(table)
  }

  /** `get_patient`: 404 before the ownership check. */
  function GetPatient(user: User, table: map<int, Patient>, id: int): (r: Result<Patient, Status>)
    ensures r.Failure? && r.error == NotFound <==> user.role in GetRoles && id !in table
    ensures r.Failure? && r.error == Forbidden <==>
      user.role !in GetRoles || (id in table && !MayAccess(user, table[id]))
    ensures r.Failure? ==> r.error in {Forbidden, NotFound}
    ensures r.Success? ==> id in table && r.value == table[id]
  {
    var _ :- RequireRoles(user, GetRoles);
    if id !in table then Failure(NotFound)
    else if !MayAccess(user, table[id]) then Failure(Forbidden)
    else Success(table[id])
  }

  /** The row after a partial update: fields left out of the request keep
      their stored value, the others (an explicit null included) are replaced. */
  function Patched(p: Patient, u: PatientUpdate): (q: Patient)
    ensures q.userId == p.userId
    ensures u.medicalHistory.Unset? ==> q.medicalHistory == p.medicalHistory
    ensures u.medicalHistory.Set? ==> q.medicalHistory == u.medicalHistory.value
    ensures u.address.Unset? ==> q.address == p.address
    ensures u.address.Set? ==> q.address == u.address.value
    ensures u.phone.Unset? ==> q.phone == p.phone
    ensures u.phone.Set? ==> q.phone == u.phone.value
    ensures u.emergencyContact.Unset? ==> q.emergencyContact == p.emergencyContact
    ensures u.emergencyContact.Set? ==> q.emergencyContact == u.emergencyContact.value
  {
    p.(medicalHistory := u.medicalHistory.ApplyTo(p.medicalHistory),
       address := u.address.ApplyTo(p.address),
       phone := u.phone.ApplyTo(p.phone),
       emergencyContact := u.emergencyContact.ApplyTo(p.emergencyContact))
  }

  /** `update_patient`: same 404 and ownership order as `get_patient`, then a
      partial update; doctors fail the gate. */
  function UpdatePatient(user: User, table: map<int, Patient>, id: int, update: PatientUpdate)
    : (r: Result<Keys.Stored<Patient>, Status>)
    ensures r.Failure? && r.error == NotFound <==> user.role in UpdateRoles && id !in table
    ensures r.Failure? && r.error == Forbidden <==>
      user.role !in UpdateRoles || (id in table && !MayAccess(user, table[id]))
    ensures r.Failure? ==> r.error in {Forbidden, NotFound}
    ensures r.Success? ==> id in table && r.value.id == id && r.value.table == table[id := r.value.row]
    ensures r.Success? ==> r.value.row == Patched(table[id], update)
  {
    var _ :- RequireRoles(user, UpdateRoles);
    if id !in table then Failure(NotFound)
    else if !MayAccess(user, table[id]) then Failure(Forbidden)
    else
      var row := Patched(table[id], update);
      Success(Keys.Stored(table[id := row], id, row))
  }

  /** Python truthiness of an optional string: present and non-empty. */
  predicate Truthy(s: Option<string>)
  {
    s.Some? && s.value != ""
  }

  /** `add_medical_history`: doctors and hospital admins, 404 on an unknown id,
      no ownership check. Only `medical_history` can change, and only when the
      supplied value is truthy; otherwise the row comes back as stored. */
  function AddMedicalHistory(user: User, table: map<int, Patient>, id: int, update: PatientUpdate)
    : (r: Result<Keys.Stored<Patient>, Status>)
    ensures r.Failure? && r.error == Forbidden <==> user.role !in HistoryRoles
    ensures r.Failure? && r.error == NotFound <==> user.role in HistoryRoles && id !in table
    ensures r.Failure? ==> r.error in {Forbidden, NotFound}
    ensures r.Success? ==> id in table && r.value.id == id && r.value.table == table[id := r.value.row]
    ensures r.Success? ==> r.value.row.(medicalHistory := table[id].medicalHistory) == table[id]
    ensures r.Success? && Truthy(update.medicalHistory.ApplyTo(None)) ==>
      r.value.row.medicalHistory == update.medicalHistory.value
    ensures r.Success? && !Truthy(update.medicalHistory.ApplyTo(None)) ==>
      r.value.row == table[id] && r.value.table == table
  {
    var _ :- RequireRoles(user, HistoryRoles);
    if id !in table then Failure(NotFound)
    else
      var supplied := update.medicalHistory.ApplyTo(None);
      var row := if Truthy(supplied) then table[id].(medicalHistory := supplied) else table[id];
      Success(Keys.Stored(table[id := row], id, row))
  }

  /** For a patient caller, reading and updating their record are refused or
      allowed alike: the two endpoints share the lookup and ownership rule. */
  lemma PatientReadIffUpdate(user: User, table: map<int, Patient>, id: int, update: PatientUpdate)
    requires user.role == Roles.Patient
    ensures GetPatient(user, table, id).Success? <==> UpdatePatient(user, table, id, update).Success?
    ensures GetPatient(user, table, id).Failure? ==>
      UpdatePatient(user, table, id, update).error == GetPatient(user, table, id).error
  {
  }

  /** A hospital admin adding a truthy history entry gets exactly what an
      update carrying only that field would have stored. */
  lemma HistoryIsNarrowUpdate(user: User, table: map<int, Patient>, id: int, history: string)
    requires user.role == Roles.HospitalAdmin
    requires history != ""
    ensures var u := PatientUpdate(Set(Some(history)), Unset, Unset, Unset);
      AddMedicalHistory(user, table, id, u) == UpdatePatient(user, table, id, u)
  {
  }

  /** Adding the same history entry twice leaves the table as after the first. */
  lemma HistoryIdempotent(user: User, table: map<int, Patient>, id: int, update: PatientUpdate)
    requires AddMedicalHistory(user, table, id, update).Success?
    ensures var once := AddMedicalHistory(user, table, id, update).value.table;
      AddMedicalHistory(user, once, id, update).Success? &&
      AddMedicalHistory(user, once, id, update).value.table == once
  {
    var once := AddMedicalHistory(user, table, id, update).value.table;
    assert once[id := once[id]] == once;
  }

  /** An update that sets no field stores the row unchanged. */
  lemma EmptyUpdateChangesNothing(user: User, table: map<int, Patient>, id: int)
    requires UpdatePatient(user, table, id, PatientUpdate(Unset, Unset, Unset, Unset)).Success?
    ensures UpdatePatient(user, table, id, PatientUpdate(Unset, Unset, Unset, Unset)).value.table == table
  {
    assert table[id := table[id]] == table;
  }
}
