/** Hospital endpoints (backend/app/api/v1/endpoints/hospitals.py). Every route
    admits "admin" and "hospital_admin" and never asks whether the caller
    belongs to the hospital in the path. */
module Hospitals {
  import opened Wrappers
  import opened Http
  import opened Users
  import opened Dependencies
  import Roles
  import Keys

  /** A row of `departments`. */
  datatype Department = Department(name: string, hospitalId: int)

  /** A row of `staff`. */
  datatype Staff = Staff(userId: int, hospitalId: int, departmentId: Option<int>, role: Option<string>)

  /** `DepartmentCreate`: the body carries its own `hospital_id`. */
  datatype DepartmentCreate = DepartmentCreate(name: string, hospitalId: int)

  /** The placeholder report and analytics replies. */
  datatype Reports = Reports(hospitalId: int, reports: seq<string>)
  datatype Analytics = Analytics(hospitalId: int, analytics: map<string, string>)

  const Gate: set<string> := {Roles.Admin, Roles.HospitalAdmin}

  /** `list_departments`: exactly the departments of the hospital in the path. */
  function ListDepartments(user: User, departments: map<int, Department>, hospitalId: int)
    : (r: Result<map<int, Department>, Status>)
    ensures r.Success? <==> user.role in Gate
    ensures r.Failure? ==> r.error == Forbidden
    ensures r.Success? ==> forall k :: k in r.value <==> k in departments && departments[k].hospitalId == hospitalId
    ensures r.Success? ==> forall k :: k in r.value ==> r.value[k] == departments[k]
  {
    var _ :- RequireRoles(user, Gate);
    Success(Keys.Where(departments, (d: Department) => d.hospitalId == hospitalId))
  }

  /** `create_department` as written: the body's fields are spread into the
      constructor and `hospital_id` is passed once more by keyword. Python
      rejects the repeated keyword argument before anything is stored, so
      every request that passes the gate ends in a 500. */
  function CreateDepartmentAsWritten(user: User, departments: map<int, Department>, hospitalId: int, dep: DepartmentCreate)
    : (r: Result<Keys.Stored<Department>, Status>)
    ensures r.Failure?
    ensures r.error == Forbidden <==> user.role !in Gate
    ensures r.error == InternalError <==> user.role in Gate
  {
    var _ :- RequireRoles(user, Gate);
    Failure(InternalError)
  }

  /** `create_department` as evidently intended: the department belongs to the
      hospital in the path, whatever the body says. */
  function CreateDepartment(user: User, departments: map<int, Department>, hospitalId: int, dep: DepartmentCreate)
    : (r: Result<Keys.Stored<Department>, Status>)
    ensures r.Success? <==> user.role in Gate
    ensures r.Failure? ==> r.error == Forbidden
    ensures r.Success? ==> r.value.id !in departments && r.value.table == departments[r.value.id := r.value.row]
    ensures r.Success? ==> r.value.row.name == dep.name && r.value.row.hospitalId == hospitalId
  {
    var _ :- RequireRoles(user, Gate);
    var id := Keys.NextId(departments.Keys);
    var row := Department(dep.name, hospitalId);
    Success(Keys.Stored(departments[id := row], id, row))
  }

  /** `list_staff`: exactly the staff rows of the hospital in the path. */
  function ListStaff(user: User, staff: map<int, Staff>, hospitalId: int): (r: Result<map<int, Staff>, Status>)
    ensures r.Success? <==> user.role in Gate
    ensures r.Failure? ==> r.error == Forbidden
    ensures r.Success? ==> forall k :: k in r.value <==> k in staff && staff[k].hospitalId == hospitalId
    ensures r.Success? ==> forall k :: k in r.value ==> r.value[k] == staff[k]
  {
    var _ :- RequireRoles(user, Gate);
    Success(Keys.Where(staff, (s: Staff) => s.hospitalId == hospitalId))
  }

  /** `get_hospital_reports`: echoes the path id with no reports. */
  function HospitalReports(user: User, hospitalId: int): (r: Result<Reports, Status>)
    ensures r.Success? <==> user.role in Gate
    ensures r.Failure? ==> r.error == Forbidden
    ensures r.Success? ==> r.value.hospitalId == hospitalId && |r.value.reports| == 0
  {
    var _ :- RequireRoles(user, Gate);
    Success(Reports(hospitalId, []))
  }

  /** `get_hospital_analytics`: echoes the path id with empty analytics. */
  function HospitalAnalytics(user: User, hospitalId: int): (r: Result<Analytics, Status>)
    ensures r.Success? <==> user.role in Gate
    ensures r.Failure? ==> r.error == Forbidden
    ensures r.Success? ==> r.value.hospitalId == hospitalId && |r.value.analytics| == 0
  {
    var _ :- RequireRoles(user, Gate);
    Success(Analytics(hospitalId, map[]))
  }

  /** The defect needs no unusual input: a hospital admin creating "Cardiology"
      in hospital 1, with a body that agrees on the hospital, gets a 500 and
      no department. */
  lemma CreateDepartmentAsWrittenFails()
    ensures var admin := User(1, "ha", "ha@example.org", "h", "H A", Roles.HospitalAdmin, true);
      CreateDepartmentAsWritten(admin, map[], 1, DepartmentCreate("Cardiology", 1)) == Failure(InternalError)
  {
  }

  /** With the intended behaviour, a created department shows up in its
      hospital's listing, and nowhere else. */
  lemma CreatedDepartmentListed(user: User, departments: map<int, Department>, hospitalId: int, dep: DepartmentCreate, other: int)
    requires CreateDepartment(user, departments, hospitalId, dep).Success?
    ensures var s := CreateDepartment(user, departments, hospitalId, dep).value;
      s.id in ListDepartments(user, s.table, hospitalId).value &&
      (other != hospitalId ==> s.id !in ListDepartments(user, s.table, other).value)
  {
  }

  /** Neither a hospital admin nor an admin is tied to one hospital: whether a
      route admits the caller does not depend on the hospital id. */
  lemma NotScopedToOwnHospital(user: User, departments: map<int, Department>, staff: map<int, Staff>, h1: int, h2: int)
    ensures ListDepartments(user, departments, h1).Success? == ListDepartments(user, departments, h2).Success?
    ensures ListStaff(user, staff, h1).Success? == ListStaff(user, staff, h2).Success?
    ensures HospitalReports(user, h1).Success? == HospitalReports(user, h2).Success?
    ensures HospitalAnalytics(user, h1).Success? == HospitalAnalytics(user, h2).Success?
  {
  }
}
