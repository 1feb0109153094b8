/** The inventory service: per-product operations over the stock, looked up
    by product id, with entity rule violations reported as inventory errors;
    record initialisation; and the administrative batch update. */
module InventoryService {
  import opened Wrappers
  import opened Text
  import opened Domain
  import opened Seqs
  import opened InventoryEntity
  import opened InventoryRepository

  /** The inventory records by product (`findByProductId`). */
  type Stock = map<ProductId, Inventory>

  /** Each record is filed under its own product. */
  predicate WellKeyed(s: Stock) {
    forall p :: p in s ==> s[p].productId == p
  }

  function NoRecord(productId: ProductId): Error {
    "No inventory record found for product: " + NatToString(productId)
  }

  /** The four guarded entity operations the service wraps. */
  datatype StockOp = ReserveOp | ReleaseOp | ConfirmOp | AddOp

  function EntityStep(op: StockOp, inv: Inventory, quantity: int): Result<Inventory, Error> {
    match op
    case ReserveOp => Reserve(inv, quantity)
    case ReleaseOp => Release(inv, quantity)
    case ConfirmOp => Confirm(inv, quantity)
    case AddOp => AddStock(inv, quantity)
  }

  /** The prefix the service puts in front of the entity's message. */
  function OpPrefix(op: StockOp): string {
    match op
    case ReserveOp => "Cannot reserve inventory: "
    case ReleaseOp => "Cannot release reservation: "
    case ConfirmOp => "Cannot confirm reservation: "
    case AddOp => "Cannot add stock: "
  }

  /** Looks the record up, applies the entity operation and stores the
      result; a refused operation stores nothing. */
  function Perform(s: Stock, productId: ProductId, op: StockOp, quantity: int): (r: Result<Stock, Error>)
    ensures productId !in s ==> r == Failure(NoRecord(productId))
    ensures r.Success? <==> productId in s && EntityStep(op, s[productId], quantity).Success?
    ensures r.Success? ==> r.value == s[productId := EntityStep(op, s[productId], quantity).value]
    ensures r.Failure? && productId in s ==>
      r.error == OpPrefix(op) + EntityStep(op, s[productId], quantity).error
  {
    if productId !in s then Failure(NoRecord(productId))
    else
      var step := EntityStep(op, s[productId], quantity);
      if step.Failure? then Failure(OpPrefix(op) + step.error)
      else Success(s[productId := step.value])
  }

  /** True exactly when the product has a record that can reserve the
      quantity. */
  function CheckAvailability(s: Stock, productId: ProductId, quantity: int): (r: bool)
    ensures productId !in s ==> !r
    ensures productId in s ==> (r <==> CanReserve(s[productId], quantity))
  {
    productId in s && CanReserve(s[productId], quantity)
  }

  function ReserveInventory(s: Stock, productId: ProductId, quantity: int): (r: Result<Stock, Error>)
    ensures productId !in s ==> r == Failure(NoRecord(productId))
    ensures r.Success? <==> productId in s && quantity > 0 && s[productId].available >= quantity
    ensures r.Success? ==>
      && r.value.Keys == s.Keys
      && r.value[productId].available == s[productId].available - quantity
      && r.value[productId].reserved == s[productId].reserved + quantity
      && (forall p :: p in s && p != productId ==> r.value[p] == s[p])
  {
    Perform(s, productId, ReserveOp, quantity)
  }

  function ReleaseReservation(s: Stock, productId: ProductId, quantity: int): (r: Result<Stock, Error>)
    ensures productId !in s ==> r == Failure(NoRecord(productId))
    ensures r.Success? <==> productId in s && quantity <= s[productId].reserved
    ensures r.Success? ==>
      && r.value.Keys == s.Keys
      && r.value[productId].available == s[productId].available + quantity
      && r.value[productId].reserved == s[productId].reserved - quantity
      && (forall p :: p in s && p != productId ==> r.value[p] == s[p])
  {
    Perform(s, productId, ReleaseOp, quantity)
  }

  function ConfirmReservation(s: Stock, productId: ProductId, quantity: int): (r: Result<Stock, Error>)
    ensures productId !in s ==> r == Failure(NoRecord(productId))
    ensures r.Success? <==> productId in s && quantity <= s[productId].reserved
    ensures r.Success? ==>
      && r.value.Keys == s.Keys
      && r.value[productId].available == s[productId].available
      && r.value[productId].reserved == s[productId].reserved - quantity
      && (forall p :: p in s && p != productId ==> r.value[p] == s[p])
  {
    Perform(s, productId, ConfirmOp, quantity)
  }

  function AddStockTo(s: Stock, productId: ProductId, quantity: int): (r: Result<Stock, Error>)
    ensures productId !in s ==> r == Failure(NoRecord(productId))
    ensures r.Success? <==> productId in s && quantity > 0
    ensures productId in s && quantity <= 0 ==>
      r == Failure("Cannot add stock: Quantity to add must be positive")
    ensures r.Success? ==>
      && r.value.Keys == s.Keys
      && r.value[productId].available == s[productId].available + quantity
      && r.value[productId].reserved == s[productId].reserved
      && (forall p :: p in s && p != productId ==> r.value[p] == s[p])
  {
    assert OpPrefix(AddOp) + "Quantity to add must be positive"
      == "Cannot add stock: Quantity to add must be positive";
    Perform(s, productId, AddOp, quantity)
  }

  /** The availability check answers yes exactly when the reservation it
      guards would go through. */
  lemma CheckAvailabilityMatchesReserve(s: Stock, productId: ProductId, quantity: int)
    ensures CheckAvailability(s, productId, quantity) <==> ReserveInventory(s, productId, quantity).Success?
  {
  }

  /** Releasing a reservation just made restores the stock exactly. */
  lemma ReserveThenReleaseRestores(s: Stock, productId: ProductId, quantity: int)
    requires productId in s && s[productId].Valid()
    requires ReserveInventory(s, productId, quantity).Success?
    ensures ReleaseReservation(ReserveInventory(s, productId, quantity).value, productId, quantity)
      == Success(s)
  {
    var mid := ReserveInventory(s, productId, quantity).value;
    ReserveThenRelease(s[productId], quantity);
    assert mid[productId := s[productId]] == s;
  }

  /** Every service operation keeps records filed under their product and,
      for a non-negative quantity, keeps every record valid. */
  lemma PerformPreservesInvariants(s: Stock, productId: ProductId, op: StockOp, quantity: int)
    requires WellKeyed(s)
    requires Perform(s, productId, op, quantity).Success?
    ensures WellKeyed(Perform(s, productId, op, quantity).value)
    ensures quantity >= 0 && (forall p :: p in s ==> s[p].Valid()) ==>
      forall p :: p in Perform(s, productId, op, quantity).value ==>
        Perform(s, productId, op, quantity).value[p].Valid()
  {
    if quantity >= 0 && s[productId].Valid() {
      OperationsPreserveValid(s[productId], quantity);
    }
  }

  /** `initializeInventory`: the product must exist and have no record yet;
      the new record holds the initial quantity, nothing reserved, and the
      given reorder point. */
  function InitializeInventory(
    products: map<ProductId, Product>, s: Stock, productId: ProductId,
    initialQuantity: int, reorderPoint: Option<int>): (r: Result<Stock, Error>)
    ensures productId !in products ==>
      r == Failure("Product not found: " + NatToString(productId))
    ensures productId in products && productId in s ==>
      r == Failure("Inventory already exists for product: " + NatToString(productId))
    ensures r.Success? <==> productId in products && productId !in s
    ensures r.Success? ==>
      && r.value.Keys == s.Keys + {productId}
      && r.value[productId].productId == productId
      && r.value[productId].available == initialQuantity
      && r.value[productId].reserved == 0
      && r.value[productId].reorderPoint == reorderPoint
      && (forall p :: p in s ==> r.value[p] == s[p])
  {
    if productId !in products then Failure("Product not found: " + NatToString(productId))
    else if productId in s then
      Failure("Inventory already exists for product: " + NatToString(productId))
    else
      Success(s[productId := NewInventory(productId, initialQuantity).(reorderPoint := reorderPoint)])
  }

  /** Initialising twice is always refused the second time. */
  lemma InitializeTwiceFails(
    products: map<ProductId, Product>, s: Stock, productId: ProductId,
    q1: int, q2: int, rp1: Option<int>, rp2: Option<int>)
    requires InitializeInventory(products, s, productId, q1, rp1).Success?
    ensures InitializeInventory(products, InitializeInventory(products, s, productId, q1, rp1).value,
      productId, q2, rp2).Failure?
  {
  }

  /** `updateReorderPoint` changes the reorder point of that record only. */
  function UpdateReorderPoint(s: Stock, productId: ProductId, reorderPoint: Option<int>): (r: Result<Stock, Error>)
    ensures productId !in s ==> r == Failure(NoRecord(productId))
    ensures r.Success? <==> productId in s
    ensures r.Success? ==>
      && r.value.Keys == s.Keys
      && r.value[productId] == s[productId].(reorderPoint := reorderPoint)
      && r.value[productId].IsLowStock() == (reorderPoint.Some? && s[productId].available <= reorderPoint.value)
      && (forall p :: p in s && p != productId ==> r.value[p] == s[p])
  {
    if productId !in s then Failure(NoRecord(productId))
    else Success(s[productId := s[productId].(reorderPoint := reorderPoint)])
  }

  /** `setInventoryLevel`: overwrites the available quantity with no check of
      its sign; the reservation is kept. */
  function SetInventoryLevel(s: Stock, productId: ProductId, level: int): (r: Result<Stock, Error>)
    ensures productId !in s ==> r == Failure(NoRecord(productId))
    ensures r.Success? <==> productId in s
    ensures r.Success? ==>
      && r.value.Keys == s.Keys
      && r.value[productId].available == level
      && r.value[productId].reserved == s[productId].reserved
      && r.value[productId] == s[productId].(available := level)
      && (forall p :: p in s && p != productId ==> r.value[p] == s[p])
  {
    if productId !in s then Failure(NoRecord(productId))
    else Success(s[productId := s[productId].(available := level)])
  }

  datatype InventoryOperation = Add | Set

  datatype InventoryUpdateRequest = InventoryUpdateRequest(
    productId: ProductId, quantity: int, operation: InventoryOperation)

  /** One batch entry: ADD goes through `addStock`, SET through
      `setInventoryLevel`. */
  function ApplyUpdate(s: Stock, u: InventoryUpdateRequest): Result<Stock, Error> {
    match u.operation
    case Add => AddStockTo(s, u.productId, u.quantity)
    case Set => SetInventoryLevel(s, u.productId, u.quantity)
  }

  /** One loop iteration: a failing entry is logged and skipped. */
  function BatchStep(s: Stock, u: InventoryUpdateRequest): (r: Stock)
    ensures r.Keys == s.Keys
    ensures forall p :: p in s ==> r[p] == s[p].(available := r[p].available)
    ensures forall p :: p in s && p != u.productId ==> r[p] == s[p]
    ensures u.operation == Add && u.productId in s && u.quantity > 0 ==>
      r[u.productId].available == s[u.productId].available + u.quantity
    ensures u.operation == Set && u.productId in s ==> r[u.productId].available == u.quantity
    ensures u.productId !in s || (u.operation == Add && u.quantity <= 0) ==> r == s
  {
    var step := ApplyUpdate(s, u);
    if step.Success? then step.value else s
  }

  /** `batchUpdateInventory`: applies the entries in order, each on the
      stock the previous ones left. Only available quantities change, and
      only those of products some entry names. */
  function BatchUpdate(s: Stock, updates: seq<InventoryUpdateRequest>): (r: Stock)
    ensures r.Keys == s.Keys
    ensures forall p :: p in s ==> r[p] == s[p].(available := r[p].available)
    ensures forall p :: p in s && (forall i :: 0 <= i < |updates| ==> updates[i].productId != p) ==>
      r[p] == s[p]
    ensures WellKeyed(s) ==> WellKeyed(r)
    decreases |updates|
  {
    if updates == [] then s
    else BatchUpdate(BatchStep(s, updates[0]), updates[1..])
  }

  /** A batch is the sequential composition of its parts. */
  lemma {:induction false} BatchUpdateAppend(s: Stock, a: seq<InventoryUpdateRequest>, b: seq<InventoryUpdateRequest>)
    ensures BatchUpdate(s, a + b) == BatchUpdate(BatchUpdate(s, a), b)
    decreases |a|
  {
    if a == [] {
      assert a + b == b;
    } else {
      assert (a + b)[1..] == a[1..] + b;
      BatchUpdateAppend(BatchStep(s, a[0]), a[1..], b);
    }
  }

  /** A batch of one entry applies it: an ADD of a positive quantity on a
      known product raises its available quantity by that much, a SET on a
      known product sets it to the level, and anything else leaves the
      stock as it was. */
  lemma SingleEntryBatchApplies(s: Stock, u: InventoryUpdateRequest)
    ensures var r := BatchUpdate(s, [u]);
      && (u.operation == Add && u.productId in s && u.quantity > 0 ==>
            r == s[u.productId := s[u.productId].(available := s[u.productId].available + u.quantity)])
      && (u.operation == Set && u.productId in s ==>
            r == s[u.productId := s[u.productId].(available := u.quantity)])
      && (u.productId !in s || (u.operation == Add && u.quantity <= 0) ==> r == s)
  {
    assert BatchUpdate(s, [u]) == BatchUpdate(BatchStep(s, u), []);
  }

  /** A failing entry neither stops nor undoes the others: the batch ends in
      the same stock as the batch without that entry. */
  lemma FailingEntryIsSkipped(
    s: Stock, before: seq<InventoryUpdateRequest>, u: InventoryUpdateRequest,
    after: seq<InventoryUpdateRequest>)
    requires ApplyUpdate(BatchUpdate(s, before), u).Failure?
    ensures BatchUpdate(s, before + [u] + after) == BatchUpdate(s, before + after)
  {
    BatchUpdateAppend(s, before + [u], after);
    BatchUpdateAppend(s, before, [u]);
    BatchUpdateAppend(s, before, after);
    assert BatchUpdate(BatchUpdate(s, before), [u]) == BatchUpdate(s, before) by {
      assert [u][1..] == [];
    }
  }

  /** An entry for a product with no record always fails. */
  lemma UnknownProductEntryFails(s: Stock, u: InventoryUpdateRequest)
    requires u.productId !in s
    ensures ApplyUpdate(s, u) == Failure(NoRecord(u.productId))
  {
  }

  function GetLowStockProducts(t: Table): (r: seq<Inventory>)
    ensures forall i :: 0 <= i < |r| ==> r[i] in t && r[i].IsLowStock()
    ensures forall i :: 0 <= i < |t| && t[i].IsLowStock() ==> t[i] in r
  {
    FindLowStockItems(t)
  }

  /** `getOutOfStockProducts` as written: it keeps the rows with nothing
      available out of the rows that are in stock. */
  function GetOutOfStockProducts(t: Table): (r: seq<Inventory>)
    ensures forall i :: 0 <= i < |r| ==> r[i] in t && r[i].available == 0
  {
    Filter(FindAllInStock(t), (x: Inventory) => x.available == 0)
  }

  /** As written the query can never return anything, even when the table
      holds out-of-stock rows that `getOutOfStockCount` counts. */
  lemma GetOutOfStockProductsIsAlwaysEmpty(t: Table)
    ensures GetOutOfStockProducts(t) == []
  {
    FilterNone(FindAllInStock(t), (x: Inventory) => x.available == 0);
  }

  lemma OutOfStockListDisagreesWithCount(inv: Inventory)
    requires inv.available == 0
    ensures CountOutOfStockItems([inv]) == 1
    ensures |GetOutOfStockProducts([inv])| == 0
  {
    GetOutOfStockProductsIsAlwaysEmpty([inv]);
  }

  /** The evidently intended query: every row with nothing available. */
  function OutOfStockProducts(t: Table): (r: seq<Inventory>)
    ensures forall i :: 0 <= i < |r| ==> r[i] in t && r[i].available == 0
    ensures forall i :: 0 <= i < |t| && t[i].available == 0 ==> t[i] in r
  {
    Filter(t, (x: Inventory) => x.available == 0)
  }

  /** The intended list agrees with the out-of-stock count. */
  lemma OutOfStockProductsMatchesCount(t: Table)
    ensures |OutOfStockProducts(t)| == CountOutOfStockItems(t)
  {
    CountIsFilterLength(t, (x: Inventory) => x.available == 0);
  }
}
