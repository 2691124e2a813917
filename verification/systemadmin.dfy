/** System administrator endpoints (backend/app/api/v1/endpoints/system_admin.py).
    Every route admits exactly the role "system_admin"; "admin" is not enough. */
module SystemAdmin {
  import opened Wrappers
  import opened Http
  import opened Users
  import opened Dependencies
  import opened Security
  import Roles

  /** A row of `hospitals`. */
  datatype Hospital = Hospital(name: string, address: Option<string>, info: Option<string>)

  const Gate: set<string> := {Roles.SystemAdmin}
  const DashboardText := "system-wide stats"

  /** `dashboard`: a constant placeholder. */
  function Dashboard(user: User): (r: Result<string, Status>)
    ensures r.Success? <==> user.role == Roles.SystemAdmin
    ensures r.Failure? ==> r.error == Forbidden
    ensures r.Success? ==> r.value == DashboardText
  {
    var _ :- RequireRoles(user, Gate);
    Success(DashboardText)
  }

  /** `list_hospitals`: the whole table, unfiltered. */
  function ListHospitals(user: User, hospitals: map<int, Hospital>): (r: Result<map<int, Hospital>, Status>)
    ensures r.Success? <==> user.role == Roles.SystemAdmin
    ensures r.Failure? ==> r.error == Forbidden
    ensures r.Success? ==> r.value == hospitals
  {
    var _ :- RequireRoles(user, Gate);
    Success(hospitals)
  }

  /** `list_users`: every user, active or not. */
  function ListUsers(user: User, users: map<int, User>): (r: Result<map<int, User>, Status>)
    ensures r.Success? <==> user.role == Roles.SystemAdmin
    ensures r.Failure? ==> r.error == Forbidden
    ensures r.Success? ==> r.value == users
  {
    var _ :- RequireRoles(user, Gate);
    Success(users)
  }

  /** `list_users` as written: `UserRead.created_at` is declared `str`, while
      every stored row's column loads as a datetime, so any non-empty listing
      fails response validation (a 500). */
  function ListUsersAsWritten(user: User, users: map<int, User>): (r: Result<map<int, User>, Status>)
    ensures r.Failure? && r.error == Forbidden <==> user.role != Roles.SystemAdmin
    ensures r.Failure? && r.error == InternalError <==> user.role == Roles.SystemAdmin && users != map[]
    ensures r.Failure? ==> r.error in {Forbidden, InternalError}
    ensures r.Success? ==> r.value == map[]
  {
    var _ :- RequireRoles(user, Gate);
    if users == map[] then Success(map[]) else Failure(InternalError)
  }

  /** Every authenticated system administrator gets the 500: the caller's own
      row is among those listed, where the corrected route returns the table. */
  lemma ListUsersAsWrittenFails(settings: Settings, jwt: Jwt, users: map<int, User>, token: string)
    requires Authorize(settings, jwt, users, token, Gate).Success?
    ensures var caller := Authorize(settings, jwt, users, token, Gate).value;
      && ListUsersAsWritten(caller, users) == Failure(InternalError)
      && ListUsers(caller, users) == Success(users)
  {
    var caller := GetCurrentUser(settings, jwt, users, token).value;
    var k :| k in users && users[k] == caller;
    assert k in users.Keys;
  }

  /** `cross_hospital_reports`: an empty placeholder list. */
  function CrossHospitalReports(user: User): (r: Result<seq<string>, Status>)
    ensures r.Success? <==> user.role == Roles.SystemAdmin
    ensures r.Failure? ==> r.error == Forbidden
    ensures r.Success? ==> |r.value| == 0
  {
    var _ :- RequireRoles(user, Gate);
    Success([])
  }

  /** `cross_hospital_analytics`: an empty placeholder object. */
  function CrossHospitalAnalytics(user: User): (r: Result<map<string, string>, Status>)
    ensures r.Success? <==> user.role == Roles.SystemAdmin
    ensures r.Failure? ==> r.error == Forbidden
    ensures r.Success? ==> |r.value| == 0
  {
    var _ :- RequireRoles(user, Gate);
    Success(map[])
  }

  /** A caller whose role is "admin" is refused by every route. */
  lemma AdminRejected(user: User, hospitals: map<int, Hospital>, users: map<int, User>)
    requires user.role == Roles.Admin
    ensures Dashboard(user) == Failure(Forbidden)
    ensures ListHospitals(user, hospitals) == Failure(Forbidden)
    ensures ListUsers(user, users) == Failure(Forbidden)
    ensures CrossHospitalReports(user) == Failure(Forbidden)
    ensures CrossHospitalAnalytics(user) == Failure(Forbidden)
  {
  }

  /** Deactivated accounts are listed too: `is_active` filters nothing. */
  lemma InactiveUsersListed(user: User, users: map<int, User>, k: int)
    requires user.role == Roles.SystemAdmin
    requires k in users && !users[k].isActive
    ensures k in ListUsers(user, users).value
  {
  }
}
