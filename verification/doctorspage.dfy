/** The hospital admin's doctor page (app/hospital-admin/doctors/page.tsx):
    adding a doctor from the dialog form and the department filter. */
module DoctorsPage {
  import Seqs
  import Decimal
  import opened Filters

  const IdPrefix := "DOC"
  const ActiveStatus := "Active"
  const Avatar := "/placeholder.svg?height=40&width=40"

  /** One doctor card; the fee is whatever `Number` made of the form text. */
  datatype Doctor = Doctor(
    id: string,
    name: string,
    email: string,
    phone: string,
    specialization: string,
    department: string,
    experience: string,
    status: string,
    joinDate: string,
    patients: int,
    consultationFee: real,
    avatar: string)

  datatype Form = Form(
    name: string,
    email: string,
    phone: string,
    specialization: string,
    department: string,
    experience: string,
    consultationFee: string)

  const EmptyForm := Form("", "", "", "", "", "", "")

  datatype Page = Page(doctors: seq<Doctor>, form: Form, dialogOpen: bool)

  function DoctorId(n: nat): string
  {
    IdPrefix + Decimal.Pad3(n)
  }

  /** `handleCreateDoctor`: whatever the form holds, a new "Active" doctor
      with no patients, numbered one past the current count, goes to the
      front; the dialog closes and the form is emptied. `parseFee` stands for
      `Number`, `today` for the ISO date of the clock. */
  function CreateDoctor(p: Page, parseFee: string -> real, today: string): (q: Page)
    ensures |q.doctors| == |p.doctors| + 1 && q.doctors[1..] == p.doctors
    ensures var d := q.doctors[0];
      && d.id == DoctorId(|p.doctors| + 1) && d.status == ActiveStatus && d.patients == 0
      && d.name == p.form.name && d.email == p.form.email && d.phone == p.form.phone
      && d.specialization == p.form.specialization && d.department == p.form.department
      && d.experience == p.form.experience && d.consultationFee == parseFee(p.form.consultationFee)
      && d.joinDate == today && d.avatar == Avatar
    ensures q.form == EmptyForm && !q.dialogOpen
  {
    var f := p.form;
    var d := Doctor(DoctorId(|p.doctors| + 1), f.name, f.email, f.phone, f.specialization, f.department,
                    f.experience, ActiveStatus, today, 0, parseFee(f.consultationFee), Avatar);
    Page([d] + p.doctors, EmptyForm, false)
  }

  /** The search box looks at the name, the specialization and the department. */
  predicate Searched(lower: string -> string, term: string, d: Doctor)
  {
    Matches(lower, term, [d.name, d.specialization, d.department])
  }

  /** `filteredDoctors`: the search box and the department drop-down. */
  function FilteredDoctors(doctors: seq<Doctor>, lower: string -> string, term: string, department: string): (r: seq<Doctor>)
    ensures Seqs.IsSubsequence(r, doctors)
    ensures forall d :: d in r <==> d in doctors && Searched(lower, term, d) && Selects(department, d.department)
    ensures forall d :: multiset(r)[d] == if Searched(lower, term, d) && Selects(department, d.department) then multiset(doctors)[d] else 0
  {
    Seqs.Filter(doctors, (d: Doctor) => Searched(lower, term, d) && Selects(department, d.department))
  }

  /** Nothing is validated: submitting the empty form still adds a doctor,
      with an empty name and no department. */
  lemma EmptyFormAccepted(doctors: seq<Doctor>, parseFee: string -> real, today: string)
    ensures var q := CreateDoctor(Page(doctors, EmptyForm, true), parseFee, today);
      |q.doctors| == |doctors| + 1 && q.doctors[0].name == "" && q.doctors[0].department == ""
  {
  }

  /** The department drop-down on "all" with an empty search lists everyone,
      for any lower-casing that maps the empty string to itself. */
  lemma AllDepartments(doctors: seq<Doctor>, lower: string -> string)
    requires lower("") == ""
    ensures FilteredDoctors(doctors, lower, "", All) == doctors
  {
    forall i | 0 <= i < |doctors|
      ensures Searched(lower, "", doctors[i])
    {
      EmptyTermMatches(lower, [doctors[i].name, doctors[i].specialization, doctors[i].department]);
    }
    Seqs.FilterAll(doctors, (d: Doctor) => Searched(lower, "", d) && Selects(All, d.department));
  }

  /** Identifiers whose numbers do not exceed the number of doctors, as in the
      page's starting list ("DOC001" to "DOC004" for four). */
  predicate IdsWithinCount(doctors: seq<Doctor>)
  {
    forall i :: 0 <= i < |doctors| ==>
      Decimal.HasNumber(IdPrefix, doctors[i].id) && Decimal.NumberOf(IdPrefix, doctors[i].id) <= |doctors|
  }

  /** While identifiers stay within the count, a created doctor's id is new,
      and the property carries over to the new list. */
  lemma CreatedIdFresh(p: Page, parseFee: string -> real, today: string)
    requires IdsWithinCount(p.doctors)
    ensures forall i :: 0 <= i < |p.doctors| ==> p.doctors[i].id != DoctorId(|p.doctors| + 1)
    ensures IdsWithinCount(CreateDoctor(p, parseFee, today).doctors)
  {
    Decimal.NumberOfPadded(IdPrefix, |p.doctors| + 1);
    var q := CreateDoctor(p, parseFee, today).doctors;
    forall i | 0 <= i < |q|
      ensures Decimal.HasNumber(IdPrefix, q[i].id) && Decimal.NumberOf(IdPrefix, q[i].id) <= |q|
    {
      if i > 0 {
        assert q[i] == p.doctors[i - 1];
      }
    }
  }
}
