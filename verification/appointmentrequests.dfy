/** The doctor's appointment list (app/doctor/appointments/page.tsx): approve
    and reject buttons on pending requests, and the search/status filter. */
module AppointmentRequests {
  import Seqs
  import opened Filters

  const Pending := "pending"
  const Confirmed := "confirmed"
  const Rejected := "rejected"

  /** One appointment card (`type` is `kind` here). */
  datatype Appointment = Appointment(
    id: int,
    patient: string,
    patientId: string,
    date: string,
    time: string,
    kind: string,
    status: string,
    phone: string,
    reason: string,
    duration: string,
    notes: string)

  /** Setting the status of every appointment with the given id. */
  function SetStatus(appointments: seq<Appointment>, id: int, status: string): (r: seq<Appointment>)
    ensures |r| == |appointments|
    ensures forall i :: 0 <= i < |r| ==> r[i].(status := appointments[i].status) == appointments[i]
    ensures forall i :: 0 <= i < |r| && appointments[i].id == id ==> r[i].status == status
    ensures forall i :: 0 <= i < |r| && appointments[i].id != id ==> r[i] == appointments[i]
  {
    Seqs.UpdateWhere(appointments, (a: Appointment) => a.id == id, (a: Appointment) => a.(status := status))
  }

  /** `handleApproveAppointment`: the matching appointment becomes "confirmed". */
  function Approve(appointments: seq<Appointment>, id: int): (r: seq<Appointment>)
    ensures |r| == |appointments|
    ensures forall i :: 0 <= i < |r| ==> r[i].(status := appointments[i].status) == appointments[i]
    ensures forall i :: 0 <= i < |r| && appointments[i].id == id ==> r[i].status == Confirmed
    ensures forall i :: 0 <= i < |r| && appointments[i].id != id ==> r[i] == appointments[i]
  {
    SetStatus(appointments, id, Confirmed)
  }

  /** `handleRejectAppointment`: the matching appointment becomes "rejected". */
  function Reject(appointments: seq<Appointment>, id: int): (r: seq<Appointment>)
    ensures |r| == |appointments|
    ensures forall i :: 0 <= i < |r| ==> r[i].(status := appointments[i].status) == appointments[i]
    ensures forall i :: 0 <= i < |r| && appointments[i].id == id ==> r[i].status == Rejected
    ensures forall i :: 0 <= i < |r| && appointments[i].id != id ==> r[i] == appointments[i]
  {
    SetStatus(appointments, id, Rejected)
  }

  /** Whether a card shows the Approve and Reject buttons. */
  function ActionsOffered(a: Appointment): (offered: bool)
    ensures offered <==> a.status == Pending
    ensures offered ==> a.status != Confirmed && a.status != Rejected
  {
    a.status == Pending
  }

  /** The search box looks at the patient name and the reason. */
  predicate Searched(lower: string -> string, term: string, a: Appointment)
  {
    Matches(lower, term, [a.patient, a.reason])
  }

  /** `filteredAppointments`: the search box and the status drop-down. */
  function FilteredAppointments(appointments: seq<Appointment>, lower: string -> string, term: string, status: string)
    : (r: seq<Appointment>)
    ensures Seqs.IsSubsequence(r, appointments)
    ensures forall a :: a in r <==> a in appointments && Searched(lower, term, a) && Selects(status, a.status)
    ensures forall a :: multiset(r)[a] == if Searched(lower, term, a) && Selects(status, a.status) then multiset(appointments)[a] else 0
  {
    Seqs.Filter(appointments, (a: Appointment) => Searched(lower, term, a) && Selects(status, a.status))
  }

  /** A decision is final on the page: once approved or rejected, the card no
      longer offers either button. */
  lemma DecisionIsFinal(appointments: seq<Appointment>, id: int, i: int)
    requires 0 <= i < |appointments| && appointments[i].id == id
    ensures !ActionsOffered(Approve(appointments, id)[i])
    ensures !ActionsOffered(Reject(appointments, id)[i])
  {
  }

  /** Approving twice is approving once. */
  lemma ApproveIdempotent(appointments: seq<Appointment>, id: int)
    ensures Approve(Approve(appointments, id), id) == Approve(appointments, id)
  {
  }

  /** With the status drop-down on a decision, an approved appointment moves
      into the "confirmed" view and out of the "pending" one. */
  lemma ApprovedMovesBetweenViews(appointments: seq<Appointment>, id: int, i: int, lower: string -> string, term: string)
    requires 0 <= i < |appointments| && appointments[i].id == id
    requires Searched(lower, term, Approve(appointments, id)[i])
    ensures Approve(appointments, id)[i] in FilteredAppointments(Approve(appointments, id), lower, term, Confirmed)
    ensures Approve(appointments, id)[i] !in FilteredAppointments(Approve(appointments, id), lower, term, Pending)
  {
  }
}
