/** Laboratory endpoints (backend/app/api/v1/endpoints/lab.py): the test
    catalogue, orders and results. No route checks ownership. */
module Lab {
  import opened Wrappers
  import opened Http
  import opened Users
  import opened Dependencies
  import Roles
  import Keys

  /** A row of `lab_tests`. */
  datatype LabTest = LabTest(name: string, description: Option<string>, price: Option<int>)

  /** A row of `lab_orders`; `ordered_at` is a timestamp in seconds. */
  datatype LabOrder = LabOrder(patientId: int, testId: int, status: Option<string>, orderedAt: int)

  /** A row of `lab_results`; `reported_at` is a timestamp in seconds. */
  datatype LabResult = LabResult(orderId: int, result: Option<string>, reportedAt: int)

  /** `LabOrderCreate`; `status` is "pending" when left out or sent as null. */
  datatype LabOrderCreate = LabOrderCreate(patientId: int, testId: int, status: Patch<Option<string>>)

  /** `LabResultCreate`, used as the update body: `order_id` is required, so it
      is always among the fields written; `result` may be left out. */
  datatype LabResultCreate = LabResultCreate(orderId: int, result: Patch<Option<string>>)

  const DefaultOrderStatus := "pending"

  const ReadRoles: set<string> := {Roles.Admin, Roles.LabWorker, Roles.Doctor, Roles.HospitalAdmin, Roles.Patient}
  const OrderRoles: set<string> := {Roles.Doctor, Roles.LabWorker, Roles.HospitalAdmin}
  const ResultRoles: set<string> := {Roles.LabWorker, Roles.Doctor}

  /** `list_lab_tests`: the whole catalogue to every listed role. */
  function ListLabTests(user: User, tests: map<int, LabTest>): (r: Result<map<int, LabTest>, Status>)
    ensures r.Success? <==> user.role in ReadRoles
    ensures r.Failure? ==> r.error == Forbidden
    ensures r.Success? ==> r.value == tests
  {
    var _ :- RequireRoles(user, ReadRoles);
    Success(tests)
  }

  /** `create_lab_order`: stamps `ordered_at` with the server clock. */
  function CreateLabOrder(user: User, orders: map<int, LabOrder>, req: LabOrderCreate, now: int)
    : (r: Result<Keys.Stored<LabOrder>, Status>)
    ensures r.Success? <==> user.role in OrderRoles
    ensures r.Failure? ==> r.error == Forbidden
    ensures r.Success? ==> r.value.id !in orders && r.value.table == orders[r.value.id := r.value.row]
    ensures r.Success? ==>
      && r.value.row.patientId == req.patientId
      && r.value.row.testId == req.testId
      && r.value.row.orderedAt == now
    ensures r.Success? && (req.status.Unset? || req.status == Set(None)) ==> r.value.row.status == Some(DefaultOrderStatus)
    ensures r.Success? && req.status.Set? && req.status.value.Some? ==> r.value.row.status == req.status.value
  {
    var _ :- RequireRoles(user, OrderRoles);
    var id := Keys.NextId(orders.Keys);
    var row := LabOrder(req.patientId, req.testId, Some(Inserted(req.status, DefaultOrderStatus)), now);
    Success(Keys.Stored(orders[id := row], id, row))
  }

  /** `get_lab_order`: 404 on an unknown id, and any permitted role may read any
      order. */
  function GetLabOrder(user: User, orders: map<int, LabOrder>, id: int): (r: Result<LabOrder, Status>)
    ensures r.Failure? && r.error == Forbidden <==> user.role !in ReadRoles
    ensures r.Failure? && r.error == NotFound <==> user.role in ReadRoles && id !in orders
    ensures r.Failure? ==> r.error in {Forbidden, NotFound}
    ensures r.Success? ==> id in orders && r.value == orders[id]
  {
    var _ :- RequireRoles(user, ReadRoles);
    if id !in orders then Failure(NotFound) else Success(orders[id])
  }

  /** `update_lab_result`: lab workers and doctors; 404 on an unknown id; the
      order id is always overwritten, the result text only when sent, and the
      report time never. */
  function UpdateLabResult(user: User, results: map<int, LabResult>, id: int, update: LabResultCreate)
    : (r: Result<Keys.Stored<LabResult>, Status>)
    ensures r.Failure? && r.error == Forbidden <==> user.role !in ResultRoles
    ensures r.Failure? && r.error == NotFound <==> user.role in ResultRoles && id !in results
    ensures r.Failure? ==> r.error in {Forbidden, NotFound}
    ensures r.Success? ==> id in results && r.value.id == id && r.value.table == results[id := r.value.row]
    ensures r.Success? ==>
      && r.value.row.orderId == update.orderId
      && r.value.row.reportedAt == results[id].reportedAt
      && (update.result.Unset? ==> r.value.row.result == results[id].result)
      && (update.result.Set? ==> r.value.row.result == update.result.value)
  {
    var _ :- RequireRoles(user, ResultRoles);
    if id !in results then Failure(NotFound)
    else
      var row := results[id].(orderId := update.orderId, result := update.result.ApplyTo(results[id].result));
      Success(Keys.Stored(results[id := row], id, row))
  }

  /** Whoever may create an order may read it back, and reads exactly what
      was stored. */
  lemma CreatedOrderReadable(user: User, orders: map<int, LabOrder>, req: LabOrderCreate, now: int)
    requires CreateLabOrder(user, orders, req, now).Success?
    ensures var s := CreateLabOrder(user, orders, req, now).value;
      GetLabOrder(user, s.table, s.id) == Success(s.row)
  {
  }

  /** No ownership filter: a patient reads an order placed for somebody else. */
  lemma PatientReadsAnyOrder(user: User, orders: map<int, LabOrder>, id: int)
    requires user.role == Roles.Patient
    requires id in orders && orders[id].patientId != user.id
    ensures GetLabOrder(user, orders, id) == Success(orders[id])
  {
  }

  /** Creating an order leaves every existing order readable and unchanged. */
  lemma CreateKeepsOtherOrders(user: User, orders: map<int, LabOrder>, req: LabOrderCreate, now: int, id: int)
    requires CreateLabOrder(user, orders, req, now).Success?
    requires id in orders
    ensures GetLabOrder(user, CreateLabOrder(user, orders, req, now).value.table, id) == Success(orders[id])
  {
  }

  /** Re-sending the same result update stores nothing new. */
  lemma ResultUpdateIdempotent(user: User, results: map<int, LabResult>, id: int, update: LabResultCreate)
    requires UpdateLabResult(user, results, id, update).Success?
    ensures var once := UpdateLabResult(user, results, id, update).value.table;
      UpdateLabResult(user, once, id, update) == UpdateLabResult(user, results, id, update)
  {
    var once := UpdateLabResult(user, results, id, update).value.table;
    assert once[id := once[id]] == once;
  }
}
