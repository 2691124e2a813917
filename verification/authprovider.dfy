/** The client-side session of components/providers/auth-provider.tsx. Login
    and registration are mocks: they build a user from their arguments, keep
    it in memory and in browser storage, and pick a dashboard to navigate to.
    The client's role names ("hospitalAdmin", "lab", ...) are not the
    server's ("hospital_admin", "lab_worker", ...). */
module AuthProvider {
  import opened Wrappers

  const Patient := "patient"
  const Doctor := "doctor"
  const HospitalAdmin := "hospitalAdmin"
  const SystemAdmin := "systemAdmin"
  const Lab := "lab"
  const Pharmacist := "pharmacist"
  const Admin := "admin"

  /** The mock user's fixed id, display name and hospital id. */
  const MockId := "1"
  const MockName := "John Doe"
  const MockHospital := "1"

  /** The context's `User`; the role is whatever string the caller passed. */
  datatype ClientUser = ClientUser(id: string, email: string, name: string, role: string, hospitalId: Option<string>)

  /** What the provider holds: the user in memory, the entry under "user" in
      browser storage (its JSON encoding taken as exact), the last navigation
      target, and the loading flag. A navigation to an undefined path is
      `Some(None)`; `None` means no navigation was requested. */
  datatype Session = Session(
    user: Option<ClientUser>,
    stored: Option<ClientUser>,
    navigatedTo: Option<Option<string>>,
    isLoading: bool)

  /** The form data `register` reads. */
  datatype RegisterData = RegisterData(email: string, name: string, role: string)

  const LoginRedirects: map<string, string> := map[
    Patient := "/patient/dashboard",
    Doctor := "/doctor/dashboard",
    HospitalAdmin := "/hospital-admin/dashboard",
    SystemAdmin := "/system-admin/dashboard",
    Lab := "/lab/dashboard",
    Pharmacist := "/pharmacist/dashboard"]

  const RegisterRedirects: map<string, string> := map[
    Patient := "/patient/dashboard",
    Doctor := "/doctor/dashboard",
    Admin := "/admin/dashboard",
    Lab := "/lab/dashboard",
    Pharmacist := "/pharmacist/dashboard"]

  /** Roles that receive the mock hospital id at login. */
  const HospitalRoles: set<string> := {HospitalAdmin, Doctor, Lab, Pharmacist}

  /** Looking a role up in a redirect table; a role outside it yields the
      undefined path. The model treats the table as having only its own
      keys: the names JavaScript objects inherit from `Object.prototype`
      ("constructor", "toString", ...) are not modelled. */
  function Lookup(table: map<string, string>, role: string): (r: Option<string>)
    ensures r.Some? <==> role in table
    ensures r.Some? ==> r.value == table[role]
  {
    if role in table then Some(table[role]) else None
  }

  /** The start-up effect: a stored user, if any, becomes the current user. */
  function Restore(s: Session): (t: Session)
    ensures s.stored.Some? ==> t.user == s.stored
    ensures s.stored.None? ==> t.user == s.user
    ensures t.stored == s.stored && t.navigatedTo == s.navigatedTo && !t.isLoading
  {
    Session(if s.stored.Some? then s.stored else s.user, s.stored, s.navigatedTo, false)
  }

  /** `login`: the user carries the given email and role, the fixed id and
      name, and hospital id "1" exactly for the hospital-bound roles; it is
      stored, and the browser is sent to the role's dashboard. */
  function Login(s: Session, email: string, password: string, role: string): (t: Session)
    ensures t.user.Some? && t.stored == t.user && !t.isLoading
    ensures t.user.value.email == email && t.user.value.role == role
    ensures t.user.value.id == MockId && t.user.value.name == MockName
    ensures t.user.value.hospitalId.Some? <==> role in HospitalRoles
    ensures t.user.value.hospitalId.Some? ==> t.user.value.hospitalId.value == MockHospital
    ensures t.navigatedTo == Some(Lookup(LoginRedirects, role))
  {
    var u := ClientUser(MockId, email, MockName, role, if role in HospitalRoles then Some(MockHospital) else None);
    Session(Some(u), Some(u), Some(Lookup(LoginRedirects, role)), false)
  }

  /** `register`: like `login`, but the name comes from the form, only the
      "admin" role gets a hospital id, and the redirect table differs. */
  function Register(s: Session, data: RegisterData): (t: Session)
    ensures t.user.Some? && t.stored == t.user && !t.isLoading
    ensures t.user.value.email == data.email && t.user.value.name == data.name && t.user.value.role == data.role
    ensures t.user.value.id == MockId
    ensures t.user.value.hospitalId.Some? <==> data.role == Admin
    ensures t.user.value.hospitalId.Some? ==> t.user.value.hospitalId.value == MockHospital
    ensures t.navigatedTo == Some(Lookup(RegisterRedirects, data.role))
  {
    var u := ClientUser(MockId, data.email, data.name, data.role, if data.role == Admin then Some(MockHospital) else None);
    Session(Some(u), Some(u), Some(Lookup(RegisterRedirects, data.role)), false)
  }

  /** `logout`: forgets the user in memory and in storage and goes home. */
  function Logout(s: Session): (t: Session)
    ensures t.user.None? && t.stored.None?
    ensures t.navigatedTo == Some(Some("/"))
    ensures t.isLoading == s.isLoading
  {
    Session(None, None, Some(Some("/")), s.isLoading)
  }

  /** A dashboard path: "/", a directory, "/dashboard". */
  predicate IsDashboard(p: string)
  {
    |p| > |"/dashboard"| && p[0] == '/' && p[|p| - |"/dashboard"|..] == "/dashboard"
  }

  /** The login table is total over the six client roles and sends each to a
      dashboard. */
  lemma LoginRedirectsTotal(role: string)
    ensures Lookup(LoginRedirects, role).Some? <==> role in {Patient, Doctor, HospitalAdmin, SystemAdmin, Lab, Pharmacist}
    ensures role in LoginRedirects ==> IsDashboard(LoginRedirects[role])
  {
    if role == Patient {
      assert IsDashboard("/patient/dashboard");
    } else if role == Doctor {
      assert IsDashboard("/doctor/dashboard");
    } else if role == HospitalAdmin {
      assert IsDashboard("/hospital-admin/dashboard");
    } else if role == SystemAdmin {
      assert IsDashboard("/system-admin/dashboard");
    } else if role == Lab {
      assert IsDashboard("/lab/dashboard");
    } else if role == Pharmacist {
      assert IsDashboard("/pharmacist/dashboard");
    }
  }

  /** The login table sends no two roles to the same dashboard. */
  lemma LoginRedirectsDistinct(role: string, other: string)
    requires role in LoginRedirects && other in LoginRedirects && role != other
    ensures LoginRedirects[role] != LoginRedirects[other]
  {
  }

  /** The registration table covers five roles: "admin" but neither
      "hospitalAdmin" nor "systemAdmin"; where the two tables share a role
      they agree. */
  lemma RegisterRedirectsCoverage(role: string)
    ensures Lookup(RegisterRedirects, role).Some? <==> role in {Patient, Doctor, Admin, Lab, Pharmacist}
    ensures role in RegisterRedirects ==> IsDashboard(RegisterRedirects[role])
    ensures role in RegisterRedirects && role in LoginRedirects ==> RegisterRedirects[role] == LoginRedirects[role]
  {
    assert RegisterRedirects.Keys == {Patient, Doctor, Admin, Lab, Pharmacist};
    if role == Admin {
      assert RegisterRedirects[role] == "/admin/dashboard";
      assert role !in LoginRedirects;
    } else if role in RegisterRedirects {
      assert RegisterRedirects[role] == LoginRedirects[role];
      LoginRedirectsTotal(role);
    }
  }

  /** A signed-in user survives a reload: restoring a fresh provider from
      storage yields the same user. */
  lemma LoginSurvivesReload(s: Session, email: string, password: string, role: string)
    ensures var t := Login(s, email, password, role);
      Restore(Session(None, t.stored, None, true)).user == t.user
  {
  }

  /** After logout a reload restores nobody. */
  lemma LogoutSurvivesReload(s: Session)
    ensures var t := Logout(s);
      Restore(Session(None, t.stored, None, true)).user.None?
  {
  }

  /** The two mocks disagree on "admin" and "doctor": registering as "admin"
      yields a hospital id and a dashboard, logging in as "admin" neither;
      a doctor gets a hospital id at login but not at registration. */
  lemma AdminAndDoctorDiffer(s: Session, email: string, name: string, password: string)
    ensures Register(s, RegisterData(email, name, Admin)).user.value.hospitalId == Some(MockHospital)
    ensures Register(s, RegisterData(email, name, Admin)).navigatedTo == Some(Some("/admin/dashboard"))
    ensures Login(s, email, password, Admin).user.value.hospitalId.None?
    ensures Login(s, email, password, Admin).navigatedTo == Some(None)
    ensures Login(s, email, password, Doctor).user.value.hospitalId == Some(MockHospital)
    ensures Register(s, RegisterData(email, name, Doctor)).user.value.hospitalId.None?
  {
  }
}
