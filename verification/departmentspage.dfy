/** The hospital admin's department page (app/hospital-admin/departments/page.tsx):
    adding a department from the dialog form, the summary cards, and the
    search/status filter. */
module DepartmentsPage {
  import Seqs
  import opened Filters

  const ActiveStatus := "active"

  datatype Department = Department(
    id: int,
    name: string,
    description: string,
    head: string,
    staff: int,
    patients: int,
    location: string,
    phone: string,
    email: string,
    status: string,
    established: string)

  datatype Form = Form(name: string, description: string, head: string, location: string, phone: string, email: string)

  const EmptyForm := Form("", "", "", "", "", "")

  datatype Page = Page(departments: seq<Department>, form: Form, dialogOpen: bool)

  /** The form's required fields are both filled in. */
  predicate Complete(f: Form)
  {
    f.name != "" && f.head != ""
  }

  /** `handleAddDepartment`: an incomplete form changes nothing (a toast
      aside); otherwise the new department, numbered one past the current
      count, active and without staff or patients, goes to the end, the
      form is emptied and the dialog closes. `today` stands for the ISO date
      of the clock. */
  function AddDepartment(p: Page, today: string): (q: Page)
    ensures !Complete(p.form) ==> q == p
    ensures Complete(p.form) ==>
      && |q.departments| == |p.departments| + 1
      && q.departments[..|p.departments|] == p.departments
      && q.form == EmptyForm && !q.dialogOpen
    ensures Complete(p.form) ==> var d := q.departments[|p.departments|];
      && d.id == |p.departments| + 1
      && d.name == p.form.name && d.description == p.form.description && d.head == p.form.head
      && d.location == p.form.location && d.phone == p.form.phone && d.email == p.form.email
      && d.staff == 0 && d.patients == 0 && d.status == ActiveStatus && d.established == today
  {
    if !Complete(p.form) then p
    else
      var f := p.form;
      var d := Department(|p.departments| + 1, f.name, f.description, f.head, 0, 0,
                          f.location, f.phone, f.email, ActiveStatus, today);
      Page(p.departments + [d], EmptyForm, false)
  }

  predicate IsActive(d: Department)
  {
    d.status == ActiveStatus
  }

  function StaffOf(d: Department): int { d.staff }
  function PatientsOf(d: Department): int { d.patients }

  /** The "Active Departments" card: the length of the filtered list, which
      is the number of active departments. */
  function ActiveCount(ds: seq<Department>): (n: nat)
    ensures n == Seqs.Count(ds, IsActive)
    ensures n <= |ds|
  {
    |Seqs.Filter(ds, IsActive)|
  }

  /** The "Total Staff" and "Total Patients" cards. The page folds from the
      left (`reduce` starting at 0), adding each department in list order. */
  function TotalStaff(ds: seq<Department>): (t: int)
    ensures ds == [] ==> t == 0
    ensures ds != [] ==> t == TotalStaff(ds[..|ds| - 1]) + ds[|ds| - 1].staff
    decreases |ds|
  {
    if ds != [] then
      assert ds == ds[..|ds| - 1] + [ds[|ds| - 1]];
      Seqs.SumAppend(ds[..|ds| - 1], [ds[|ds| - 1]], StaffOf);
      Seqs.Sum(ds, StaffOf)
    else Seqs.Sum(ds, StaffOf)
  }

  function TotalPatients(ds: seq<Department>): (t: int)
    ensures ds == [] ==> t == 0
    ensures ds != [] ==> t == TotalPatients(ds[..|ds| - 1]) + ds[|ds| - 1].patients
    decreases |ds|
  {
    if ds != [] then
      assert ds == ds[..|ds| - 1] + [ds[|ds| - 1]];
      Seqs.SumAppend(ds[..|ds| - 1], [ds[|ds| - 1]], PatientsOf);
      Seqs.Sum(ds, PatientsOf)
    else Seqs.Sum(ds, PatientsOf)
  }

  /** The search box looks at the name and the head. */
  predicate Searched(lower: string -> string, term: string, d: Department)
  {
    Matches(lower, term, [d.name, d.head])
  }

  /** `filteredDepartments`: the search box and the status drop-down. */
  function FilteredDepartments(ds: seq<Department>, lower: string -> string, term: string, status: string): (r: seq<Department>)
    ensures Seqs.IsSubsequence(r, ds)
    ensures forall d :: d in r <==> d in ds && Searched(lower, term, d) && Selects(status, d.status)
    ensures forall d :: multiset(r)[d] == if Searched(lower, term, d) && Selects(status, d.status) then multiset(ds)[d] else 0
  {
    Seqs.Filter(ds, (d: Department) => Searched(lower, term, d) && Selects(status, d.status))
  }

  /** A successful add raises the active count by one and leaves the staff
      and patient totals as they were. */
  lemma AddUpdatesCards(p: Page, today: string)
    requires Complete(p.form)
    ensures var ds := AddDepartment(p, today).departments;
      && ActiveCount(ds) == ActiveCount(p.departments) + 1
      && TotalStaff(ds) == TotalStaff(p.departments)
      && TotalPatients(ds) == TotalPatients(p.departments)
  {
    var ds := AddDepartment(p, today).departments;
    var d := ds[|p.departments|];
    assert ds == p.departments + [d];
    assert ActiveCount(ds) == ActiveCount(p.departments) + 1 by {
      Seqs.CountAppend(p.departments, [d], IsActive);
    }
    assert ds[..|ds| - 1] == p.departments;
  }

  /** Identifiers between 1 and the number of departments, as in the page's
      starting list (1 to 4). */
  predicate IdsWithinCount(ds: seq<Department>)
  {
    forall i :: 0 <= i < |ds| ==> 1 <= ds[i].id <= |ds|
  }

  /** While identifiers stay within the count, an added department's id is
      new, and the property carries over. */
  lemma AddedIdFresh(p: Page, today: string)
    requires IdsWithinCount(p.departments)
    requires Complete(p.form)
    ensures forall i :: 0 <= i < |p.departments| ==> p.departments[i].id != |p.departments| + 1
    ensures IdsWithinCount(AddDepartment(p, today).departments)
  {
  }
}
