/** The doctor's prescription page (app/doctor/prescriptions/page.tsx): the
    editable medication rows of the "new prescription" form, and creating a
    prescription from it. */
module PrescriptionForm {
  import Seqs
  import Decimal
  import opened Wrappers

  const IdPrefix := "RX"
  const ActiveStatus := "Active"

  datatype Medication = Medication(name: string, dosage: string, frequency: string, duration: string)

  /** The four columns the row inputs edit. */
  datatype Field = Name | Dosage | Frequency | Duration

  const BlankMedication := Medication("", "", "", "")

  datatype Form = Form(
    patientId: string,
    patientName: string,
    diagnosis: string,
    medications: seq<Medication>,
    notes: string)

  /** The form as the page starts and as it is left after a create: one
      blank medication row. */
  const InitialForm := Form("", "", "", [BlankMedication], "")

  datatype Prescription = Prescription(
    id: string,
    patientName: string,
    patientId: string,
    date: string,
    status: string,
    medications: seq<Medication>,
    diagnosis: string,
    notes: string)

  datatype Page = Page(prescriptions: seq<Prescription>, form: Form, dialogOpen: bool)

  /** `{ ...med, [field]: value }`. */
  function SetField(m: Medication, field: Field, value: string): (r: Medication)
    ensures field == Name ==> r == m.(name := value)
    ensures field == Dosage ==> r == m.(dosage := value)
    ensures field == Frequency ==> r == m.(frequency := value)
    ensures field == Duration ==> r == m.(duration := value)
  {
    match field
    case Name => m.(name := value)
    case Dosage => m.(dosage := value)
    case Frequency => m.(frequency := value)
    case Duration => m.(duration := value)
  }

  /** `addMedication`: one blank row at the end. */
  function AddMedication(f: Form): (g: Form)
    ensures |g.medications| == |f.medications| + 1
    ensures g.medications[..|f.medications|] == f.medications
    ensures g.medications[|f.medications|] == BlankMedication
    ensures g.(medications := f.medications) == f
  {
    f.(medications := f.medications + [BlankMedication])
  }

  /** `updateMedication`: one field of the row at `index`; an index outside
      the list matches no row. */
  function UpdateMedication(f: Form, index: int, field: Field, value: string): (g: Form)
    ensures |g.medications| == |f.medications|
    ensures forall i :: 0 <= i < |f.medications| && i != index ==> g.medications[i] == f.medications[i]
    ensures 0 <= index < |f.medications| ==> g.medications[index] == SetField(f.medications[index], field, value)
    ensures g.(medications := f.medications) == f
  {
    var m := f.medications;
    f.(medications := seq(|m|, i requires 0 <= i < |m| => if i == index then SetField(m[i], field, value) else m[i]))
  }

  /** `removeMedication`: the row at `index` goes, the others close up in
      order; an index outside the list removes nothing. */
  function RemoveMedication(f: Form, index: int): (g: Form)
    ensures 0 <= index < |f.medications| ==> |g.medications| == |f.medications| - 1
    ensures 0 <= index < |f.medications| ==>
      (forall i :: 0 <= i < index ==> g.medications[i] == f.medications[i]) &&
      (forall i :: index <= i < |g.medications| ==> g.medications[i] == f.medications[i + 1])
    ensures !(0 <= index < |f.medications|) ==> g == f
    ensures g.(medications := f.medications) == f
  {
    if 0 <= index < |f.medications| then
      f.(medications := f.medications[..index] + f.medications[index + 1..])
    else f
  }

  /** Removing the row just added gives back the form. */
  lemma RemoveAfterAdd(f: Form)
    ensures RemoveMedication(AddMedication(f), |f.medications|) == f
  {
    var g := AddMedication(f).medications;
    assert g[..|f.medications|] + g[|f.medications| + 1..] == f.medications;
  }

  /** Writing a field back to the value it had changes nothing. */
  lemma UpdateWithSameValue(f: Form, index: int, field: Field)
    requires 0 <= index < |f.medications|
    ensures var m := f.medications[index];
      UpdateMedication(f, index, field,
        match field case Name => m.name case Dosage => m.dosage case Frequency => m.frequency case Duration => m.duration) == f
  {
    var m := f.medications[index];
    var v := match field case Name => m.name case Dosage => m.dosage case Frequency => m.frequency case Duration => m.duration;
    assert UpdateMedication(f, index, field, v).medications == f.medications;
  }

  /** The Remove button is rendered only while there is more than one row. */
  function RemoveOffered(f: Form): (offered: bool)
    ensures offered <==> |f.medications| > 1
    ensures offered ==> forall i :: 0 <= i < |f.medications| ==> RemoveMedication(f, i).medications != []
  {
    |f.medications| > 1
  }

  /** A JavaScript string is truthy when it is not empty. */
  predicate Named(m: Medication)
  {
    m.name != ""
  }

  function RxId(n: nat): string
  {
    IdPrefix + Decimal.Pad3(n)
  }

  /** `handleCreatePrescription`: no validation; rows without a name are
      dropped; the new prescription, "Active", numbered one past the current
      count, goes to the front; the dialog closes and the form is reset.
      `today` stands for the ISO date of the clock. */
  function CreatePrescription(p: Page, today: string): (q: Page)
    ensures |q.prescriptions| == |p.prescriptions| + 1 && q.prescriptions[1..] == p.prescriptions
    ensures var rx := q.prescriptions[0];
      && rx.id == RxId(|p.prescriptions| + 1) && rx.status == ActiveStatus && rx.date == today
      && rx.patientName == p.form.patientName && rx.patientId == p.form.patientId
      && rx.diagnosis == p.form.diagnosis && rx.notes == p.form.notes
      && Seqs.IsSubsequence(rx.medications, p.form.medications)
      && (forall m :: m in rx.medications <==> m in p.form.medications && Named(m))
      && (forall m :: multiset(rx.medications)[m] == if Named(m) then multiset(p.form.medications)[m] else 0)
    ensures q.form == InitialForm && !q.dialogOpen
  {
    var f := p.form;
    var rx := Prescription(RxId(|p.prescriptions| + 1), f.patientName, f.patientId, today, ActiveStatus,
                           Seqs.Filter(f.medications, Named), f.diagnosis, f.notes);
    Page([rx] + p.prescriptions, InitialForm, false)
  }

  /** The row edits a doctor can make: the three handlers as the form's
      buttons and inputs invoke them. */
  datatype Edit = AddRow | EditRow(index: int, field: Field, value: string) | RemoveRow(index: int)

  /** Whether the form offers the edit: remove needs a rendered Remove button
      on an existing row; inputs exist only for existing rows. */
  predicate EditOffered(f: Form, e: Edit)
  {
    match e
    case AddRow => true
    case EditRow(i, _, _) => 0 <= i < |f.medications|
    case RemoveRow(i) => RemoveOffered(f) && 0 <= i < |f.medications|
  }

  function ApplyEdit(f: Form, e: Edit): Form
  {
    match e
    case AddRow => AddMedication(f)
    case EditRow(i, field, value) => UpdateMedication(f, i, field, value)
    case RemoveRow(i) => RemoveMedication(f, i)
  }

  /** The form after a run of edits; `None` marks a run containing an edit
      the form does not offer. */
  function RunEdits(f: Form, edits: seq<Edit>): Option<Form>
    decreases |edits|
  {
    if edits == [] then Some(f)
    else
      match RunEdits(f, edits[..|edits| - 1])
      case None => None
      case Some(g) =>
        var last := edits[|edits| - 1];
        if EditOffered(g, last) then Some(ApplyEdit(g, last)) else None
  }

  /** The form can never lose its last medication row through the page:
      however the rows are edited, at least one remains. */
  lemma {:induction false} RowsNeverEmpty(f: Form, edits: seq<Edit>)
    requires |f.medications| >= 1
    requires RunEdits(f, edits).Some?
    ensures |RunEdits(f, edits).value.medications| >= 1
    decreases |edits|
  {
    if edits != [] {
      RowsNeverEmpty(f, edits[..|edits| - 1]);
    }
  }

  /** Identifiers whose numbers do not exceed the number of prescriptions, as
      in the page's starting list ("RX001" to "RX003" for three). */
  predicate IdsWithinCount(rxs: seq<Prescription>)
  {
    forall i :: 0 <= i < |rxs| ==>
      Decimal.HasNumber(IdPrefix, rxs[i].id) && Decimal.NumberOf(IdPrefix, rxs[i].id) <= |rxs|
  }

  /** While identifiers stay within the count, a created prescription gets
      an identifier no listed prescription has, and the property carries
      over to the new list. */
  lemma CreatedIdFresh(p: Page, today: string)
    requires IdsWithinCount(p.prescriptions)
    ensures forall i :: 0 <= i < |p.prescriptions| ==> p.prescriptions[i].id != RxId(|p.prescriptions| + 1)
    ensures IdsWithinCount(CreatePrescription(p, today).prescriptions)
  {
    Decimal.NumberOfPadded(IdPrefix, |p.prescriptions| + 1);
    var q := CreatePrescription(p, today).prescriptions;
    forall i | 0 <= i < |q|
      ensures Decimal.HasNumber(IdPrefix, q[i].id) && Decimal.NumberOf(IdPrefix, q[i].id) <= |q|
    {
      if i > 0 {
        assert q[i] == p.prescriptions[i - 1];
      }
    }
  }
}
