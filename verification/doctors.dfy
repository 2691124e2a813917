/** Doctor endpoints (backend/app/api/v1/endpoints/doctors.py). Ownership
    compares the row's `user_id` with the caller's user id; the two schedule
    routes are placeholders that read nothing. */
module Doctors {
  import opened Wrappers
  import opened Http
  import opened Users
  import opened Dependencies
  import Roles
  import Keys

  /** A row of `doctors`. */
  datatype Doctor = Doctor(
    userId: int,
    specialization: Option<string>,
    bio: Option<string>,
    phone: Option<string>,
    department: Option<string>)

  /** `DoctorUpdate`: every profile field optional; `user_id` is not part of it. */
  datatype DoctorUpdate = DoctorUpdate(
    specialization: Patch<Option<string>>,
    bio: Patch<Option<string>>,
    phone: Patch<Option<string>>,
    department: Patch<Option<string>>)

  /** The placeholder schedule reply: the path id and a list of slots. */
  datatype Schedule = Schedule(doctorId: int, slots: seq<string>)

  const ListRoles: set<string> := {Roles.Admin, Roles.HospitalAdmin, Roles.Patient}
  const GetRoles: set<string> := {Roles.Admin, Roles.HospitalAdmin, Roles.Patient, Roles.Doctor}
  const UpdateRoles: set<string> := {Roles.Admin, Roles.HospitalAdmin, Roles.Doctor}
  const ScheduleReadRoles: set<string> := {Roles.Admin, Roles.HospitalAdmin, Roles.Doctor}
  const ScheduleWriteRoles: set<string> := {Roles.Doctor, Roles.HospitalAdmin}

  /** Only a doctor caller is restricted, and then to their own row. */
  predicate MayAccess(user: User, d: Doctor)
  {
    user.role == Roles.Doctor ==> d.userId == user.id
  }

  /** `list_doctors`: the whole table; a doctor caller is refused. */
  function ListDoctors(user: User, table: map<int, Doctor>): (r: Result<map<int, Doctor>, Status>)
    ensures r.Success? <==> user.role in ListRoles
    ensures r.Failure? ==> r.error == Forbidden
    ensures r.Success? ==> r.value == table
  {
    var _ :- RequireRoles(user, ListRoles);
    Success(table)
  }

  /** `get_doctor`: 404 before the ownership check. */
  function GetDoctor(user: User, table: map<int, Doctor>, id: int): (r: Result<Doctor, Status>)
    ensures r.Failure? && r.error == NotFound <==> user.role in GetRoles && id !in table
    ensures r.Failure? && r.error == Forbidden <==>
      user.role !in GetRoles || (id in table && !MayAccess(user, table[id]))
    ensures r.Failure? ==> r.error in {Forbidden, NotFound}
    ensures r.Success? ==> id in table && r.value == table[id]
  {
    var _ :- RequireRoles(user, GetRoles);
    if id !in table then Failure(NotFound)
    else if !MayAccess(user, table[id]) then Failure(Forbidden)
    else Success(table[id])
  }

  /** The row after a partial update of the fields present in the request. */
  function Patched(d: Doctor, u: DoctorUpdate): (e: Doctor)
    ensures e.userId == d.userId
    ensures u.specialization.Unset? ==> e.specialization == d.specialization
    ensures u.specialization.Set? ==> e.specialization == u.specialization.value
    ensures u.bio.Unset? ==> e.bio == d.bio
    ensures u.bio.Set? ==> e.bio == u.bio.value
    ensures u.phone.Unset? ==> e.phone == d.phone
    ensures u.phone.Set? ==> e.phone == u.phone.value
    ensures u.department.Unset? ==> e.department == d.department
    ensures u.department.Set? ==> e.department == u.department.value
  {
    d.(specialization := u.specialization.ApplyTo(d.specialization),
       bio := u.bio.ApplyTo(d.bio),
       phone := u.phone.ApplyTo(d.phone),
       department := u.department.ApplyTo(d.department))
  }

  /** `update_doctor`: same lookup and ownership order as `get_doctor`, then a
      partial update; patients fail the gate. */
  function UpdateDoctor(user: User, table: map<int, Doctor>, id: int, update: DoctorUpdate)
    : (r: Result<Keys.Stored<Doctor>, Status>)
    ensures r.Failure? && r.error == NotFound <==> user.role in UpdateRoles && id !in table
    ensures r.Failure? && r.error == Forbidden <==>
      user.role !in UpdateRoles || (id in table && !MayAccess(user, table[id]))
    ensures r.Failure? ==> r.error in {Forbidden, NotFound}
    ensures r.Success? ==> id in table && r.value.id == id && r.value.table == table[id := r.value.row]
    ensures r.Success? ==> r.value.row == Patched(table[id], update)
  {
    var _ :- RequireRoles(user, UpdateRoles);
    if id !in table then Failure(NotFound)
    else if !MayAccess(user, table[id]) then Failure(Forbidden)
    else
      var row := Patched(table[id], update);
      Success(Keys.Stored(table[id := row], id, row))
  }

  /** `get_doctor_schedule`: a placeholder echoing the path id with no slots.
      It takes no table: no lookup, no 404, no ownership check. */
  function GetDoctorSchedule(user: User, doctorId: int): (r: Result<Schedule, Status>)
    ensures r.Success? <==> user.role in ScheduleReadRoles
    ensures r.Failure? ==> r.error == Forbidden
    ensures r.Success? ==> r.value.doctorId == doctorId && |r.value.slots| == 0
  {
    var _ :- RequireRoles(user, ScheduleReadRoles);
    Success(Schedule(doctorId, []))
  }

  /** `update_doctor_schedule`: the same placeholder behind a narrower gate; it
      stores nothing. */
  function UpdateDoctorSchedule(user: User, doctorId: int): (r: Result<Schedule, Status>)
    ensures r.Success? <==> user.role in ScheduleWriteRoles
    ensures r.Failure? ==> r.error == Forbidden
    ensures r.Success? ==> r.value.doctorId == doctorId && |r.value.slots| == 0
  {
    var _ :- RequireRoles(user, ScheduleWriteRoles);
    Success(Schedule(doctorId, []))
  }

  /** A doctor can read another doctor's schedule, or a schedule for an id no
      doctor has, although reading that doctor's profile is refused. */
  lemma ScheduleSkipsProfileChecks(user: User, table: map<int, Doctor>, id: int)
    requires user.role == Roles.Doctor
    requires id !in table || table[id].userId != user.id
    ensures GetDoctorSchedule(user, id).Success?
    ensures GetDoctor(user, table, id).Failure?
  {
  }

  /** After a schedule "update" the schedule read returns the same empty
      reply: nothing was stored. */
  lemma ScheduleUpdateNotStored(user: User, doctorId: int)
    requires UpdateDoctorSchedule(user, doctorId).Success?
    ensures GetDoctorSchedule(user, doctorId) == UpdateDoctorSchedule(user, doctorId)
  {
  }

  /** For a doctor caller, reading and updating a profile are refused or
      allowed alike. */
  lemma DoctorReadIffUpdate(user: User, table: map<int, Doctor>, id: int, update: DoctorUpdate)
    requires user.role == Roles.Doctor
    ensures GetDoctor(user, table, id).Success? <==> UpdateDoctor(user, table, id, update).Success?
  {
  }

  /** Updating twice with the same request stores what the first one stored. */
  lemma UpdateIdempotent(user: User, table: map<int, Doctor>, id: int, update: DoctorUpdate)
    requires UpdateDoctor(user, table, id, update).Success?
    ensures var once := UpdateDoctor(user, table, id, update).value.table;
      UpdateDoctor(user, once, id, update) == UpdateDoctor(user, table, id, update)
  {
    var once := UpdateDoctor(user, table, id, update).value.table;
    assert Patched(once[id], update) == once[id];
    assert once[id := once[id]] == once;
  }
}
