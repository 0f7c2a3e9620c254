/** The quantity and capacity rules of the warehouse API: creating a warehouse, adding an
    inventory item, and recording a stock movement. The database is a record of maps keyed by id;
    fresh ids are parameters, since the database assigns them. */
module Warehouses {
  import opened Wrappers
  import opened ProcessRefs

  datatype WarehouseStatus = Active | Inactive | Maintenance
  datatype MovementType = Entry | Exit | Transfer | Adjustment | Loss

  /** `used_capacity` is a nullable column, so it is optional here; quantities are exact decimals. */
  datatype Warehouse = Warehouse(
    code: string, name: string, companyId: nat,
    totalCapacity: Option<real>, usedCapacity: Option<real>, status: WarehouseStatus)

  datatype Item = Item(
    warehouseId: nat, productId: Option<nat>, importProcessId: Option<nat>, exportProcessId: Option<nat>,
    quantity: real, isAvailable: bool, isReserved: bool)

  datatype Movement = Movement(
    movementType: MovementType, warehouseId: nat, inventoryItemId: Option<nat>, quantity: real, createdBy: nat)

  /** Import and export processes are given by the company that owns them. */
  datatype Db = Db(
    warehouses: map<nat, Warehouse>, items: map<nat, Item>, movements: seq<Movement>,
    importProcesses: map<nat, nat>, exportProcesses: map<nat, nat>)

  datatype WarehouseError =
    | DuplicateCode
    | WarehouseNotFound
    | ProcessNotFound(which: ProcessRefError)
    | ItemNotFound
    | InsufficientStock

  datatype WarehouseCreate = WarehouseCreate(code: string, name: string, totalCapacity: Option<real>)
  datatype ItemCreate = ItemCreate(
    productId: Option<nat>, importProcessId: Option<nat>, exportProcessId: Option<nat>, quantity: real)
  datatype MovementCreate = MovementCreate(movementType: MovementType, inventoryItemId: Option<nat>, quantity: real)

  /** `x or Decimal(0)` for a nullable decimal column. */
  function OrZero(x: Option<real>): real {
    if x.Some? then x.value else 0.0
  }

  predicate CodeTaken(db: Db, code: string) {
    exists id :: id in db.warehouses && db.warehouses[id].code == code
  }

  /** The warehouse with this id, if it belongs to the company. */
  predicate Owns(db: Db, companyId: nat, warehouseId: nat) {
    warehouseId in db.warehouses && db.warehouses[warehouseId].companyId == companyId
  }

  /** `create_warehouse`: the code must be unused in every company. */
  function CreateWarehouse(db: Db, companyId: nat, data: WarehouseCreate, newId: nat): (r: Result<Db, WarehouseError>)
    requires newId !in db.warehouses
    ensures r.Err? <==> CodeTaken(db, data.code)
    ensures r.Err? ==> r.error == DuplicateCode
    ensures r.Ok? ==>
              r.value.warehouses == db.warehouses[newId := Warehouse(data.code, data.name, companyId, data.totalCapacity, Some(0.0), Active)]
              && r.value.items == db.items && r.value.movements == db.movements
  {
    if CodeTaken(db, data.code) then Err(DuplicateCode)
    else
      Ok(db.(warehouses := db.warehouses[newId := Warehouse(data.code, data.name, companyId, data.totalCapacity, Some(0.0), Active)]))
  }

  /** After a successful creation the codes of all warehouses are still pairwise distinct. */
  lemma CreateKeepsCodesUnique(db: Db, companyId: nat, data: WarehouseCreate, newId: nat)
    requires newId !in db.warehouses
    requires forall a, b :: a in db.warehouses && b in db.warehouses && a != b ==> db.warehouses[a].code != db.warehouses[b].code
    ensures var r := CreateWarehouse(db, companyId, data, newId);
            r.Ok? ==> forall a, b :: a in r.value.warehouses && b in r.value.warehouses && a != b ==>
                        r.value.warehouses[a].code != r.value.warehouses[b].code
  {
  }

  /** The process check of `add_inventory_item`. */
  function CheckProcesses(db: Db, companyId: nat, data: ItemCreate): Option<ProcessRefError> {
    Check(db.importProcesses, db.exportProcesses, companyId, data.importProcessId, data.exportProcessId)
  }

  /** `add_inventory_item`: the new item is available and unreserved, and the warehouse's used
      capacity grows by exactly the item's quantity. */
  function AddInventoryItem(db: Db, companyId: nat, warehouseId: nat, data: ItemCreate, newItemId: nat): (r: Result<Db, WarehouseError>)
    requires newItemId !in db.items
    ensures !Owns(db, companyId, warehouseId) ==> r == Err(WarehouseNotFound)
    ensures Owns(db, companyId, warehouseId) && CheckProcesses(db, companyId, data).Some? ==>
              r == Err(ProcessNotFound(CheckProcesses(db, companyId, data).value))
    ensures r.Ok? <==> Owns(db, companyId, warehouseId) && CheckProcesses(db, companyId, data) == None
    ensures r.Ok? ==>
              var w := db.warehouses[warehouseId];
              && r.value.items == db.items[newItemId := Item(warehouseId, data.productId, data.importProcessId, data.exportProcessId, data.quantity, true, false)]
              && r.value.warehouses == db.warehouses[warehouseId := w.(usedCapacity := Some(OrZero(w.usedCapacity) + data.quantity))]
              && r.value.movements == db.movements
  {
    if !Owns(db, companyId, warehouseId) then Err(WarehouseNotFound)
    else match CheckProcesses(db, companyId, data)
      case Some(e) => Err(ProcessNotFound(e))
      case None =>
        var w := db.warehouses[warehouseId];
        var item := Item(warehouseId, data.productId, data.importProcessId, data.exportProcessId, data.quantity, true, false);
        Ok(db.(items := db.items[newItemId := item],
               warehouses := db.warehouses[warehouseId := w.(usedCapacity := Some(OrZero(w.usedCapacity) + data.quantity))]))
  }

  /** Used capacity as a number. */
  function Used(db: Db, warehouseId: nat): real
    requires warehouseId in db.warehouses
  {
    OrZero(db.warehouses[warehouseId].usedCapacity)
  }

  /** Capacity accounting: adding items of quantities `q1` and then `q2` raises the used capacity
      by `q1 + q2`, and leaves every other warehouse alone. */
  lemma AddTwiceAccumulates(db: Db, companyId: nat, warehouseId: nat, d1: ItemCreate, d2: ItemCreate, id1: nat, id2: nat)
    requires id1 !in db.items && id2 !in db.items && id1 != id2
    requires AddInventoryItem(db, companyId, warehouseId, d1, id1).Ok?
    requires AddInventoryItem(AddInventoryItem(db, companyId, warehouseId, d1, id1).value, companyId, warehouseId, d2, id2).Ok?
    ensures var db2 := AddInventoryItem(AddInventoryItem(db, companyId, warehouseId, d1, id1).value, companyId, warehouseId, d2, id2).value;
            Used(db2, warehouseId) == Used(db, warehouseId) + d1.quantity + d2.quantity
            && forall w :: w in db.warehouses && w != warehouseId ==> db2.warehouses[w] == db.warehouses[w]
  {
  }

  /** The quantity an item holds after a movement of the given type, or `None` when an exit asks for
      more than is in stock. */
  function Apply(quantity: real, movementType: MovementType, amount: real): (r: Option<real>)
    ensures movementType == Entry ==> r == Some(quantity + amount)
    ensures movementType == Exit ==> (r.None? <==> quantity < amount)
    ensures movementType == Exit && r.Some? ==> r.value == quantity - amount && (quantity >= 0.0 ==> r.value >= 0.0)
    ensures movementType !in {Entry, Exit} ==> r == Some(quantity)
  {
    match movementType
    case Entry => Some(quantity + amount)
    case Exit => if quantity < amount then None else Some(quantity - amount)
    case _ => Some(quantity)
  }

  /** `create_stock_movement`: the item's quantity moves by the movement's quantity for entries and
      exits, the movement is recorded, and nothing else changes. */
  function CreateStockMovement(db: Db, companyId: nat, userId: nat, warehouseId: nat, data: MovementCreate): (r: Result<Db, WarehouseError>)
    ensures !Owns(db, companyId, warehouseId) ==> r == Err(WarehouseNotFound)
    ensures Owns(db, companyId, warehouseId) && Given(data.inventoryItemId) && data.inventoryItemId.value !in db.items ==>
              r == Err(ItemNotFound)
    ensures r == Err(InsufficientStock) <==>
              Owns(db, companyId, warehouseId) && Given(data.inventoryItemId) && data.inventoryItemId.value in db.items
              && data.movementType == Exit && db.items[data.inventoryItemId.value].quantity < data.quantity
    ensures r.Ok? <==>
              && Owns(db, companyId, warehouseId)
              && (Given(data.inventoryItemId) ==> data.inventoryItemId.value in db.items)
              && !(Given(data.inventoryItemId) && data.movementType == Exit
                   && db.items[data.inventoryItemId.value].quantity < data.quantity)
    ensures r.Ok? ==>
              && r.value.warehouses == db.warehouses
              && r.value.movements == db.movements + [Movement(data.movementType, warehouseId, data.inventoryItemId, data.quantity, userId)]
              && r.value.items.Keys == db.items.Keys
              && forall id :: id in db.items && !(Given(data.inventoryItemId) && id == data.inventoryItemId.value) ==>
                   r.value.items[id] == db.items[id]
  {
    if !Owns(db, companyId, warehouseId) then Err(WarehouseNotFound)
    else
      var movement := Movement(data.movementType, warehouseId, data.inventoryItemId, data.quantity, userId);
      if Given(data.inventoryItemId) then
        var id := data.inventoryItemId.value;
        if id !in db.items then Err(ItemNotFound)
        else match Apply(db.items[id].quantity, data.movementType, data.quantity)
          case None => Err(InsufficientStock)
          case Some(q) => Ok(db.(items := db.items[id := db.items[id].(quantity := q)], movements := db.movements + [movement]))
      else
        Ok(db.(movements := db.movements + [movement]))
  }

  /** The quantity of an item after a successful movement on it, per movement type. */
  lemma MovementQuantity(db: Db, companyId: nat, userId: nat, warehouseId: nat, data: MovementCreate)
    requires Given(data.inventoryItemId) && data.inventoryItemId.value in db.items
    requires CreateStockMovement(db, companyId, userId, warehouseId, data).Ok?
    ensures var before := db.items[data.inventoryItemId.value];
            var after := CreateStockMovement(db, companyId, userId, warehouseId, data).value.items[data.inventoryItemId.value];
            && after == before.(quantity := after.quantity)
            && after.quantity == match data.movementType
                                 case Entry => before.quantity + data.quantity
                                 case Exit => before.quantity - data.quantity
                                 case _ => before.quantity
  {
  }

  /** Exits never drive a non-negative stock below zero. */
  lemma ExitKeepsStockNonNegative(db: Db, companyId: nat, userId: nat, warehouseId: nat, data: MovementCreate)
    requires Given(data.inventoryItemId) && data.inventoryItemId.value in db.items
    requires db.items[data.inventoryItemId.value].quantity >= 0.0 && data.movementType == Exit
    requires CreateStockMovement(db, companyId, userId, warehouseId, data).Ok?
    ensures CreateStockMovement(db, companyId, userId, warehouseId, data).value.items[data.inventoryItemId.value].quantity >= 0.0
  {
  }

  /** On a non-negative stock, an exit of the quantity just entered is accepted and restores the
      item. */
  lemma ExitUndoesEntry(db: Db, companyId: nat, userId: nat, warehouseId: nat, itemId: nat, amount: real)
    requires itemId != 0 && itemId in db.items && Owns(db, companyId, warehouseId)
    requires db.items[itemId].quantity >= 0.0
    ensures var entry := CreateStockMovement(db, companyId, userId, warehouseId, MovementCreate(Entry, Some(itemId), amount));
            entry.Ok?
            && var exit := CreateStockMovement(entry.value, companyId, userId, warehouseId, MovementCreate(Exit, Some(itemId), amount));
               exit.Ok? && exit.value.items == db.items
  {
    var entry := CreateStockMovement(db, companyId, userId, warehouseId, MovementCreate(Entry, Some(itemId), amount));
    assert entry.value.items[itemId].quantity == db.items[itemId].quantity + amount;
    assert Owns(entry.value, companyId, warehouseId);
    var exit := CreateStockMovement(entry.value, companyId, userId, warehouseId, MovementCreate(Exit, Some(itemId), amount));
    assert exit.value.items[itemId] == db.items[itemId];
  }
}
