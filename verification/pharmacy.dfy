/** Pharmacy endpoints (backend/app/api/v1/endpoints/pharmacy.py): medicines,
    patient orders and the inventory. No route checks ownership. */
module Pharmacy {
  import opened Wrappers
  import opened Http
  import opened Users
  import opened Dependencies
  import Roles
  import Keys

  /** A row of `medicines`; `expiry_date` is a timestamp in seconds. */
  datatype Medicine = Medicine(
    name: string,
    description: Option<string>,
    price: Option<int>,
    stock: Option<int>,
    expiryDate: Option<int>)

  /** A row of `pharmacy_orders`; `ordered_at` is a timestamp in seconds. */
  datatype PharmacyOrder = PharmacyOrder(
    patientId: int,
    medicineId: int,
    quantity: int,
    status: Option<string>,
    orderedAt: int)

  /** A row of `inventory`. */
  datatype Inventory = Inventory(medicineId: int, stock: int)

  /** `PharmacyOrderCreate`; `status` is "pending" when left out or sent as null, and
      the quantity is not range-checked. */
  datatype PharmacyOrderCreate = PharmacyOrderCreate(
    patientId: int,
    medicineId: int,
    quantity: int,
    status: Patch<Option<string>>)

  const DefaultOrderStatus := "pending"

  const ReadRoles: set<string> := {Roles.Admin, Roles.Pharmacist, Roles.Doctor, Roles.HospitalAdmin, Roles.Patient}
  const OrderRoles: set<string> := {Roles.Patient}
  const InventoryReadRoles: set<string> := {Roles.Admin, Roles.Pharmacist, Roles.HospitalAdmin}
  const InventoryWriteRoles: set<string> := {Roles.Pharmacist, Roles.HospitalAdmin}

  /** `list_medicines`: the whole table to every listed role. */
  function ListMedicines(user: User, medicines: map<int, Medicine>): (r: Result<map<int, Medicine>, Status>)
    ensures r.Success? <==> user.role in ReadRoles
    ensures r.Failure? ==> r.error == Forbidden
    ensures r.Success? ==> r.value == medicines
  {
    var _ :- RequireRoles(user, ReadRoles);
    Success(medicines)
  }

  /** `create_pharmacy_order`: patients only; stamps `ordered_at`. The patient
      id comes from the body, not from the caller. */
  function CreatePharmacyOrder(user: User, orders: map<int, PharmacyOrder>, req: PharmacyOrderCreate, now: int)
    : (r: Result<Keys.Stored<PharmacyOrder>, Status>)
    ensures r.Success? <==> user.role == Roles.Patient
    ensures r.Failure? ==> r.error == Forbidden
    ensures r.Success? ==> r.value.id !in orders && r.value.table == orders[r.value.id := r.value.row]
    ensures r.Success? ==>
      && r.value.row.patientId == req.patientId
      && r.value.row.medicineId == req.medicineId
      && r.value.row.quantity == req.quantity
      && r.value.row.orderedAt == now
    ensures r.Success? && (req.status.Unset? || req.status == Set(None)) ==> r.value.row.status == Some(DefaultOrderStatus)
    ensures r.Success? && req.status.Set? && req.status.value.Some? ==> r.value.row.status == req.status.value
  {
    var _ :- RequireRoles(user, OrderRoles);
    var id := Keys.NextId(orders.Keys);
    var row := PharmacyOrder(req.patientId, req.medicineId, req.quantity,
                             Some(Inserted(req.status, DefaultOrderStatus)), now);
    Success(Keys.Stored(orders[id := row], id, row))
  }

  /** `get_pharmacy_order`: 404 on an unknown id, no ownership filter. */
  function GetPharmacyOrder(user: User, orders: map<int, PharmacyOrder>, id: int): (r: Result<PharmacyOrder, Status>)
    ensures r.Failure? && r.error == Forbidden <==> user.role !in ReadRoles
    ensures r.Failure? && r.error == NotFound <==> user.role in ReadRoles && id !in orders
    ensures r.Failure? ==> r.error in {Forbidden, NotFound}
    ensures r.Success? ==> id in orders && r.value == orders[id]
  {
    var _ :- RequireRoles(user, ReadRoles);
    if id !in orders then Failure(NotFound) else Success(orders[id])
  }

  /** `list_inventory`: the whole table, to admins and pharmacists. */
  function ListInventory(user: User, inventory: map<int, Inventory>): (r: Result<map<int, Inventory>, Status>)
    ensures r.Success? <==> user.role in InventoryReadRoles
    ensures r.Failure? ==> r.error == Forbidden
    ensures r.Success? ==> r.value == inventory
  {
    var _ :- RequireRoles(user, InventoryReadRoles);
    Success(inventory)
  }

  /** `update_inventory`: 404 on an unknown id; the stock is replaced by the
      given value (not added to it), whatever it was before. */
  function UpdateInventory(user: User, inventory: map<int, Inventory>, id: int, stock: int)
    : (r: Result<Keys.Stored<Inventory>, Status>)
    ensures r.Failure? && r.error == Forbidden <==> user.role !in InventoryWriteRoles
    ensures r.Failure? && r.error == NotFound <==> user.role in InventoryWriteRoles && id !in inventory
    ensures r.Failure? ==> r.error in {Forbidden, NotFound}
    ensures r.Success? ==> id in inventory && r.value.id == id && r.value.table == inventory[id := r.value.row]
    ensures r.Success? ==> r.value.row.stock == stock && r.value.row.medicineId == inventory[id].medicineId
  {
    var _ :- RequireRoles(user, InventoryWriteRoles);
    if id !in inventory then Failure(NotFound)
    else
      var row := inventory[id].(stock := stock);
      Success(Keys.Stored(inventory[id := row], id, row))
  }

  /** `get_order_status`: the stored status (which may be null), 404 on an
      unknown id. */
  function GetOrderStatus(user: User, orders: map<int, PharmacyOrder>, id: int): (r: Result<Option<string>, Status>)
    ensures r.Failure? && r.error == Forbidden <==> user.role !in ReadRoles
    ensures r.Failure? && r.error == NotFound <==> user.role in ReadRoles && id !in orders
    ensures r.Failure? ==> r.error in {Forbidden, NotFound}
    ensures r.Success? ==> id in orders && r.value == orders[id].status
  {
    var order :- GetPharmacyOrder(user, orders, id);
    Success(order.status)
  }

  /** Two inventory writes in a row leave what the second alone would: the
      endpoint overwrites, so no restock is ever merged. */
  lemma InventoryLastWriteWins(user: User, inventory: map<int, Inventory>, id: int, a: int, b: int)
    requires UpdateInventory(user, inventory, id, a).Success?
    ensures var first := UpdateInventory(user, inventory, id, a).value.table;
      UpdateInventory(user, first, id, b) == UpdateInventory(user, inventory, id, b)
  {
    var first := UpdateInventory(user, inventory, id, a).value.table;
    assert first[id := first[id].(stock := b)] == inventory[id := inventory[id].(stock := b)];
  }

  /** A freshly created order whose status was left out or sent as null
      reports "pending" to its creator. */
  lemma NewOrderIsPending(user: User, orders: map<int, PharmacyOrder>, req: PharmacyOrderCreate, now: int)
    requires CreatePharmacyOrder(user, orders, req, now).Success?
    requires req.status.Unset? || req.status == Set(None)
    ensures var s := CreatePharmacyOrder(user, orders, req, now).value;
      GetOrderStatus(user, s.table, s.id) == Success(Some(DefaultOrderStatus))
  {
  }

  /** The status route answers exactly when the order route does, and with that
      order's status. */
  lemma StatusAgreesWithOrder(user: User, orders: map<int, PharmacyOrder>, id: int)
    ensures GetOrderStatus(user, orders, id).Success? <==> GetPharmacyOrder(user, orders, id).Success?
    ensures GetOrderStatus(user, orders, id).Success? ==>
      GetOrderStatus(user, orders, id).value == GetPharmacyOrder(user, orders, id).value.status
  {
  }
}
