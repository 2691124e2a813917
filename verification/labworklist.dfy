/** The lab worker's test list (app/lab/tests/page.tsx): status changes from
    the row buttons and the search/status/priority filter. */
module LabWorklist {
  import Seqs
  import opened Filters
  import opened Wrappers

  const Pending := "pending"
  const InProgress := "in-progress"
  const Completed := "completed"
  const Overdue := "overdue"

  /** One row of the worklist. */
  datatype Test = Test(
    id: string,
    patientName: string,
    patientId: string,
    testType: string,
    priority: string,
    assignedDate: string,
    dueDate: string,
    status: string,
    orderedBy: string,
    sampleType: string,
    instructions: string)

  /** `handleStatusChange`: every row with the given id gets the new status;
      nothing else changes, and rows keep their places. */
  function HandleStatusChange(tests: seq<Test>, testId: string, newStatus: string): (r: seq<Test>)
    ensures |r| == |tests|
    ensures forall i :: 0 <= i < |r| ==> r[i].(status := tests[i].status) == tests[i]
    ensures forall i :: 0 <= i < |r| && tests[i].id == testId ==> r[i].status == newStatus
    ensures forall i :: 0 <= i < |r| && tests[i].id != testId ==> r[i] == tests[i]
  {
    Seqs.UpdateWhere(tests, (t: Test) => t.id == testId, (t: Test) => t.(status := newStatus))
  }

  /** The status a row's button moves to: "Start Test" on a pending row,
      "Complete Test" on one in progress, nothing otherwise. */
  function OfferedTransition(status: string): (r: Option<string>)
    ensures status == Pending ==> r == Some(InProgress)
    ensures status == InProgress ==> r == Some(Completed)
    ensures status != Pending && status != InProgress ==> r.None?
  {
    if status == Pending then Some(InProgress)
    else if status == InProgress then Some(Completed)
    else None
  }

  /** The search box looks at the patient name, the test type and the id. */
  predicate Searched(lower: string -> string, term: string, t: Test)
  {
    Matches(lower, term, [t.patientName, t.testType, t.id])
  }

  /** `filteredTests`: the rows passing the search and both drop-downs, in
      list order. */
  function FilteredTests(tests: seq<Test>, lower: string -> string, term: string, status: string, priority: string): (r: seq<Test>)
    ensures Seqs.IsSubsequence(r, tests)
    ensures forall t :: t in r <==> t in tests && Searched(lower, term, t) && Selects(status, t.status) && Selects(priority, t.priority)
    ensures forall t :: multiset(r)[t] ==
                        if Searched(lower, term, t) && Selects(status, t.status) && Selects(priority, t.priority)
                        then multiset(tests)[t] else 0
  {
    Seqs.Filter(tests, (t: Test) => Searched(lower, term, t) && Selects(status, t.status) && Selects(priority, t.priority))
  }

  /** An id no row carries leaves the list as it was. */
  lemma UnknownIdUnchanged(tests: seq<Test>, testId: string, newStatus: string)
    requires forall i :: 0 <= i < |tests| ==> tests[i].id != testId
    ensures HandleStatusChange(tests, testId, newStatus) == tests
  {
  }

  /** The buttons only move a row forward, at most twice, and always end at
      "completed"; a completed or overdue row offers nothing. */
  lemma TransitionsEnd(status: string)
    ensures OfferedTransition(Completed).None? && OfferedTransition(Overdue).None?
    ensures OfferedTransition(status).Some? ==> OfferedTransition(status).value != status
    ensures OfferedTransition(status).Some? && OfferedTransition(OfferedTransition(status).value).Some? ==>
      status == Pending && OfferedTransition(OfferedTransition(status).value).value == Completed &&
      OfferedTransition(Completed).None?
  {
  }

  /** Clicking a row's offered button changes that row's status to the next
      one and leaves every other row alone. */
  lemma ButtonClick(tests: seq<Test>, i: int)
    requires 0 <= i < |tests|
    requires OfferedTransition(tests[i].status).Some?
    requires forall j :: 0 <= j < |tests| && j != i ==> tests[j].id != tests[i].id
    ensures var r := HandleStatusChange(tests, tests[i].id, OfferedTransition(tests[i].status).value);
      r[i].status == OfferedTransition(tests[i].status).value &&
      forall j :: 0 <= j < |tests| && j != i ==> r[j] == tests[j]
  {
  }

  /** With both drop-downs on "all" and an empty search the whole list shows,
      for any lower-casing that maps the empty string to itself. */
  lemma AllFiltersOff(tests: seq<Test>, lower: string -> string)
    requires lower("") == ""
    ensures FilteredTests(tests, lower, "", All, All) == tests
  {
    forall i | 0 <= i < |tests|
      ensures Searched(lower, "", tests[i])
    {
      EmptyTermMatches(lower, [tests[i].patientName, tests[i].testType, tests[i].id]);
    }
    Seqs.FilterAll(tests, (t: Test) => Searched(lower, "", t) && Selects(All, t.status) && Selects(All, t.priority));
  }
}
