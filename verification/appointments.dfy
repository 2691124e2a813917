/** Appointment endpoints (backend/app/api/v1/endpoints/appointments.py). The
    ownership checks compare the row's `patient_id`/`doctor_id` with the
    caller's user id. */
module Appointments {
  import opened Wrappers
  import opened Http
  import opened Users
  import opened Dependencies
  import Roles
  import Keys

  /** A row of `appointments`; `scheduled_time` is a timestamp in seconds. */
  datatype Appointment = Appointment(
    patientId: int,
    doctorId: int,
    scheduledTime: int,
    status: Option<string>,
    notes: Option<string>)

  /** `AppointmentCreate`; `status` is "scheduled" when left out or sent as null. */
  datatype AppointmentCreate = AppointmentCreate(
    patientId: int,
    doctorId: int,
    scheduledTime: int,
    status: Patch<Option<string>>,
    notes: Option<string>)

  /** `AppointmentUpdate`: every field optional, and none of them an owner. */
  datatype AppointmentUpdate = AppointmentUpdate(
    scheduledTime: Patch<Option<int>>,
    status: Patch<Option<string>>,
    notes: Patch<Option<string>>)

  const ListRoles: set<string> := {Roles.Admin, Roles.Doctor, Roles.HospitalAdmin, Roles.Patient}
  const CreateRoles: set<string> := {Roles.Patient}
  const UpdateRoles: set<string> := {Roles.Doctor, Roles.Patient, Roles.HospitalAdmin}
  const DeleteRoles: set<string> := {Roles.Admin, Roles.HospitalAdmin, Roles.Patient}

  /** `list_appointments`: patients see their own rows, doctors theirs, the
      other permitted roles everything. */
  function ListAppointments(user: User, table: map<int, Appointment>): (r: Result<map<int, Appointment>, Status>)
    ensures r.Success? <==> user.role in ListRoles
    ensures r.Failure? ==> r.error == Forbidden
    ensures r.Success? ==> forall k :: k in r.value ==> k in table && r.value[k] == table[k]
    ensures r.Success? && user.role == Roles.Patient ==>
      forall k :: k in table ==> (k in r.value <==> table[k].patientId == user.id)
    ensures r.Success? && user.role == Roles.Doctor ==>
      forall k :: k in table ==> (k in r.value <==> table[k].doctorId == user.id)
    ensures r.Success? && user.role in {Roles.Admin, Roles.HospitalAdmin} ==> r.value == table
  {
    var _ :- RequireRoles(user, ListRoles);
    if user.role == Roles.Patient then Success(Keys.Where(table, (a: Appointment) => a.patientId == user.id))
    else if user.role == Roles.Doctor then Success(Keys.Where(table, (a: Appointment) => a.doctorId == user.id))
    else Success(table)
  }

  /** `create_appointment`: patients only; the owners come from the request
      body, not from the caller. */
  function CreateAppointment(user: User, table: map<int, Appointment>, req: AppointmentCreate)
    : (r: Result<Keys.Stored<Appointment>, Status>)
    ensures r.Success? <==> user.role == Roles.Patient
    ensures r.Failure? ==> r.error == Forbidden
    ensures r.Success? ==> r.value.id !in table && r.value.table == table[r.value.id := r.value.row]
    ensures r.Success? ==>
      && r.value.row.patientId == req.patientId
      && r.value.row.doctorId == req.doctorId
      && r.value.row.scheduledTime == req.scheduledTime
      && r.value.row.notes == req.notes
    ensures r.Success? && (req.status.Unset? || req.status == Set(None)) ==> r.value.row.status == Some("scheduled")
    ensures r.Success? && req.status.Set? && req.status.value.Some? ==> r.value.row.status == req.status.value
  {
    var _ :- RequireRoles(user, CreateRoles);
    var id := Keys.NextId(table.Keys);
    var row := Appointment(req.patientId, req.doctorId, req.scheduledTime,
                           Some(Inserted(req.status, "scheduled")), req.notes);
    Success(Keys.Stored(table[id := row], id, row))
  }

  /** A new appointment shows up in its creator's listing exactly when the
      body names the creator as the patient: the owner is taken from the
      body, so a patient can book for somebody else and then not see it. */
  lemma CreatedListedIffOwnPatient(user: User, table: map<int, Appointment>, req: AppointmentCreate)
    requires CreateAppointment(user, table, req).Success?
    ensures var s := CreateAppointment(user, table, req).value;
      && (s.id in ListAppointments(user, s.table).value <==> req.patientId == user.id)
      && (s.id in ListAppointments(user, s.table).value ==> ListAppointments(user, s.table).value[s.id] == s.row)
  {
  }

  /** The caller may act on the row: a patient only on their own, a doctor only
      on their own, every other role on any. */
  function Owns(user: User, a: Appointment): (owns: bool)
    ensures user.role != Roles.Patient && user.role != Roles.Doctor ==> owns
    ensures user.role == Roles.Patient ==> (owns <==> a.patientId == user.id)
    ensures user.role == Roles.Doctor ==> (owns <==> a.doctorId == user.id)
  {
    && (user.role == Roles.Patient ==> a.patientId == user.id)
    && (user.role == Roles.Doctor ==> a.doctorId == user.id)
  }

  /** The row after `setattr` of the fields the request set. */
  function Patched(a: Appointment, u: AppointmentUpdate): (b: Appointment)
    requires u.scheduledTime != Set(None)
    ensures b.patientId == a.patientId && b.doctorId == a.doctorId
    ensures u.scheduledTime.Unset? ==> b.scheduledTime == a.scheduledTime
    ensures u.scheduledTime.Set? ==> u.scheduledTime.value == Some(b.scheduledTime)
    ensures u.status.Unset? ==> b.status == a.status
    ensures u.status.Set? ==> b.status == u.status.value
    ensures u.notes.Unset? ==> b.notes == a.notes
    ensures u.notes.Set? ==> b.notes == u.notes.value
  {
    a.(scheduledTime := if u.scheduledTime.Set? then u.scheduledTime.value.value else a.scheduledTime,
       status := u.status.ApplyTo(a.status),
       notes := u.notes.ApplyTo(a.notes))
  }

  /** `update_appointment`: the role gate, then 404, then ownership, then a
      partial update. Nulling the NOT NULL `scheduled_time` fails at commit. */
  function UpdateAppointment(user: User, table: map<int, Appointment>, id: int, update: AppointmentUpdate)
    : (r: Result<Keys.Stored<Appointment>, Status>)
    ensures r.Failure? && r.error == Forbidden <==>
      user.role !in UpdateRoles || (id in table && !Owns(user, table[id]))
    ensures r.Failure? && r.error == NotFound <==> user.role in UpdateRoles && id !in table
    ensures r.Failure? && r.error == InternalError <==>
      user.role in UpdateRoles && id in table && Owns(user, table[id]) && update.scheduledTime == Set(None)
    ensures r.Failure? ==> r.error in {Forbidden, NotFound, InternalError}
    ensures r.Success? ==> r.value.id == id && id in table && r.value.table == table[id := r.value.row]
    ensures r.Success? ==>
      && r.value.row.patientId == table[id].patientId
      && r.value.row.doctorId == table[id].doctorId
      && (update.scheduledTime.Unset? ==> r.value.row.scheduledTime == table[id].scheduledTime)
      && (update.scheduledTime.Set? ==> Some(r.value.row.scheduledTime) == update.scheduledTime.value)
      && (update.status.Unset? ==> r.value.row.status == table[id].status)
      && (update.status.Set? ==> r.value.row.status == update.status.value)
      && (update.notes.Unset? ==> r.value.row.notes == table[id].notes)
      && (update.notes.Set? ==> r.value.row.notes == update.notes.value)
  {
    var _ :- RequireRoles(user, UpdateRoles);
    if id !in table then Failure(NotFound)
    else if user.role == Roles.Patient && table[id].patientId != user.id then Failure(Forbidden)
    else if user.role == Roles.Doctor && table[id].doctorId != user.id then Failure(Forbidden)
    else if update.scheduledTime == Set(None) then Failure(InternalError)
    else
      var row := Patched(table[id], update);
      Success(Keys.Stored(table[id := row], id, row))
  }

  /** `delete_appointment`: removes exactly the one row. Doctors fail the gate. */
  function DeleteAppointment(user: User, table: map<int, Appointment>, id: int): (r: Result<map<int, Appointment>, Status>)
    ensures r.Failure? && r.error == Forbidden <==>
      user.role !in DeleteRoles || (id in table && user.role == Roles.Patient && table[id].patientId != user.id)
    ensures r.Failure? && r.error == NotFound <==> user.role in DeleteRoles && id !in table
    ensures r.Failure? ==> r.error in {Forbidden, NotFound}
    ensures r.Success? ==> id in table && r.value.Keys == table.Keys - {id}
    ensures r.Success? ==> forall k :: k in r.value ==> r.value[k] == table[k]
    ensures r.Success? ==> |r.value| == |table| - 1
  {
    var _ :- RequireRoles(user, DeleteRoles);
    if id !in table then Failure(NotFound)
    else if user.role == Roles.Patient && table[id].patientId != user.id then Failure(Forbidden)
    else
      assert table.Keys == (table - {id}).Keys + {id};
      Success(table - {id})
  }

  /** For a patient or a doctor, the rows they may update are exactly the rows
      their listing shows. */
  lemma UpdatableIffListed(user: User, table: map<int, Appointment>, id: int, update: AppointmentUpdate)
    requires user.role in {Roles.Patient, Roles.Doctor}
    requires id in table
    requires update.scheduledTime != Set(None)
    ensures UpdateAppointment(user, table, id, update).Success? <==> id in ListAppointments(user, table).value
  {
  }

  /** An update that sets no field leaves the table as it was. */
  lemma EmptyUpdateChangesNothing(user: User, table: map<int, Appointment>, id: int)
    requires UpdateAppointment(user, table, id, AppointmentUpdate(Unset, Unset, Unset)).Success?
    ensures UpdateAppointment(user, table, id, AppointmentUpdate(Unset, Unset, Unset)).value.table == table
  {
    assert Patched(table[id], AppointmentUpdate(Unset, Unset, Unset)) == table[id];
  }

  /** Repeating an update changes nothing more. */
  lemma UpdateIdempotent(user: User, table: map<int, Appointment>, id: int, update: AppointmentUpdate)
    requires UpdateAppointment(user, table, id, update).Success?
    ensures
      var once := UpdateAppointment(user, table, id, update).value.table;
      UpdateAppointment(user, once, id, update) == Success(Keys.Stored(once, id, once[id]))
  {
    var once := UpdateAppointment(user, table, id, update).value.table;
    assert Patched(once[id], update) == once[id];
    assert once[id := once[id]] == once;
  }

  /** After a delete the row is gone for every later update. */
  lemma DeletedRowNotFound(user: User, table: map<int, Appointment>, id: int, other: User, update: AppointmentUpdate)
    requires DeleteAppointment(user, table, id).Success?
    requires other.role in UpdateRoles
    ensures UpdateAppointment(other, DeleteAppointment(user, table, id).value, id, update) == Failure(NotFound)
  {
  }
}
