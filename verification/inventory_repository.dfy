/** The inventory table and the queries declared on it: guarded bulk
    `UPDATE` statements that report how many rows they changed, and
    filtering, counting and summing `SELECT`s. */
module InventoryRepository {
  import opened Wrappers
  import opened Domain
  import opened Seqs
  import opened InventoryEntity

  /** The rows of the inventory table, in storage order. */
  type Table = seq<Inventory>

  /** The unique constraint on the product column. */
  predicate UniqueProducts(t: Table) {
    forall i, j :: 0 <= i < j < |t| ==> t[i].productId != t[j].productId
  }

  /** The outcome of an `UPDATE`: the new table and the affected-row count. */
  datatype Updated = Updated(rows: Table, count: nat)

  /** Applies `change` to every row satisfying `where`. */
  function UpdateWhere(t: Table, where: Inventory -> bool, change: Inventory -> Inventory): (r: Updated)
    ensures |r.rows| == |t|
    ensures forall i :: 0 <= i < |t| ==> r.rows[i] == (if where(t[i]) then change(t[i]) else t[i])
    ensures r.count == Count(t, where)
  {
    if t == [] then Updated([], 0)
    else
      var rest := UpdateWhere(t[1..], where, change);
      if where(t[0]) then Updated([change(t[0])] + rest.rows, rest.count + 1)
      else Updated([t[0]] + rest.rows, rest.count)
  }

  /** `reserveQuantity`: moves `quantity` to reserved in the product's row,
      only when enough is available; the count says whether it happened. */
  function ReserveQuantity(t: Table, productId: ProductId, quantity: int): (r: Updated)
    ensures |r.rows| == |t|
    ensures forall i :: 0 <= i < |t| ==>
      if t[i].productId == productId && t[i].available >= quantity
      then r.rows[i].available == t[i].available - quantity
        && r.rows[i].reserved == t[i].reserved + quantity
        && r.rows[i].TotalQuantity() == t[i].TotalQuantity()
      else r.rows[i] == t[i]
    ensures r.count == Count(t, (x: Inventory) => x.productId == productId && x.available >= quantity)
  {
    UpdateWhere(t,
      (x: Inventory) => x.productId == productId && x.available >= quantity,
      (x: Inventory) => x.(available := x.available - quantity, reserved := x.reserved + quantity))
  }

  /** `releaseReservation`: moves `quantity` back to available, only when
      that much is reserved. */
  function ReleaseReservation(t: Table, productId: ProductId, quantity: int): (r: Updated)
    ensures |r.rows| == |t|
    ensures forall i :: 0 <= i < |t| ==>
      if t[i].productId == productId && t[i].reserved >= quantity
      then r.rows[i].reserved == t[i].reserved - quantity
        && r.rows[i].available == t[i].available + quantity
        && r.rows[i].TotalQuantity() == t[i].TotalQuantity()
      else r.rows[i] == t[i]
    ensures r.count == Count(t, (x: Inventory) => x.productId == productId && x.reserved >= quantity)
  {
    UpdateWhere(t,
      (x: Inventory) => x.productId == productId && x.reserved >= quantity,
      (x: Inventory) => x.(reserved := x.reserved - quantity, available := x.available + quantity))
  }

  /** `confirmReservation`: consumes `quantity` of the reservation, only when
      that much is reserved; the available quantity is not touched. */
  function ConfirmReservation(t: Table, productId: ProductId, quantity: int): (r: Updated)
    ensures |r.rows| == |t|
    ensures forall i :: 0 <= i < |t| ==>
      if t[i].productId == productId && t[i].reserved >= quantity
      then r.rows[i].reserved == t[i].reserved - quantity
        && r.rows[i].available == t[i].available
      else r.rows[i] == t[i]
    ensures r.count == Count(t, (x: Inventory) => x.productId == productId && x.reserved >= quantity)
  {
    UpdateWhere(t,
      (x: Inventory) => x.productId == productId && x.reserved >= quantity,
      (x: Inventory) => x.(reserved := x.reserved - quantity))
  }

  /** With the product column unique, an `UPDATE` changes at most one row. */
  lemma {:induction false} UniqueUpdateCountAtMostOne(t: Table, productId: ProductId, where: Inventory -> bool)
    requires UniqueProducts(t)
    requires forall x :: where(x) ==> x.productId == productId
    ensures Count(t, where) <= 1
  {
    if t != [] {
      UniqueUpdateCountAtMostOne(t[1..], productId, where);
      if where(t[0]) {
        forall j | 0 <= j < |t[1..]|
          ensures !where(t[1..][j])
        {
          assert t[1..][j] == t[j + 1];
        }
      }
    }
  }

  /** For a positive quantity the repository's guarded `UPDATE` does on each
      row of the product what the entity's `reserveQuantity` does, and
      leaves the row alone exactly where the entity would refuse. */
  lemma ReserveQuantityAgreesWithEntity(t: Table, productId: ProductId, quantity: int, i: int)
    requires quantity > 0 && 0 <= i < |t| && t[i].productId == productId
    ensures var entity := Reserve(t[i], quantity);
      ReserveQuantity(t, productId, quantity).rows[i]
        == (if entity.Success? then entity.value else t[i])
  {
  }

  /** The same agreement for releases and confirmations, for any quantity. */
  lemma ReleaseAndConfirmAgreeWithEntity(t: Table, productId: ProductId, quantity: int, i: int)
    requires 0 <= i < |t| && t[i].productId == productId
    ensures var entity := Release(t[i], quantity);
      ReleaseReservation(t, productId, quantity).rows[i]
        == (if entity.Success? then entity.value else t[i])
    ensures var entity := Confirm(t[i], quantity);
      ConfirmReservation(t, productId, quantity).rows[i]
        == (if entity.Success? then entity.value else t[i])
  {
  }

  /** Unlike the entity, the `UPDATE` accepts a zero quantity: it reports
      one changed row while moving nothing. */
  lemma ReserveQuantityAcceptsZero(inv: Inventory)
    requires inv.Valid()
    ensures Reserve(inv, 0).Failure?
    ensures ReserveQuantity([inv], inv.productId, 0) == Updated([inv], 1)
  {
    assert ReserveQuantity([inv], inv.productId, 0).rows[0] == inv;
  }

  function FindAllInStock(t: Table): (r: seq<Inventory>)
    ensures forall i :: 0 <= i < |r| ==> r[i] in t && r[i].IsInStock()
    ensures forall i :: 0 <= i < |t| && t[i].available > 0 ==> t[i] in r
  {
    Filter(t, (x: Inventory) => x.available > 0)
  }

  /** `findLowStockItems`, written as its `WHERE` clause reads. */
  function FindLowStockItems(t: Table): (r: seq<Inventory>)
    ensures forall i :: 0 <= i < |r| ==> r[i] in t && r[i].IsLowStock()
    ensures forall i :: 0 <= i < |t| && t[i].IsLowStock() ==> t[i] in r
  {
    Filter(t, (x: Inventory) => x.reorderPoint.Some? && x.available <= x.reorderPoint.value)
  }

  function FindAllWithReservations(t: Table): (r: seq<Inventory>)
    ensures forall i :: 0 <= i < |r| ==> r[i] in t && r[i].reserved > 0
    ensures forall i :: 0 <= i < |t| && t[i].reserved > 0 ==> t[i] in r
  {
    Filter(t, (x: Inventory) => x.reserved > 0)
  }

  /** Rows with at least `quantity` available. For a positive quantity these
      are exactly the rows the entity would let reserve it. */
  function FindAvailableForQuantity(t: Table, quantity: int): (r: seq<Inventory>)
    ensures forall i :: 0 <= i < |r| ==> r[i] in t && r[i].available >= quantity
    ensures quantity > 0 ==> forall i :: 0 <= i < |r| ==> CanReserve(r[i], quantity)
    ensures forall i :: 0 <= i < |t| && t[i].available >= quantity ==> t[i] in r
  {
    Filter(t, (x: Inventory) => x.available >= quantity)
  }

  /** `SUM(available + reserved)`; SQL yields NULL over an empty table. */
  function GetTotalInventoryValue(t: Table): (r: Option<int>)
    ensures r.None? <==> t == []
    ensures r.Some? ==> r.value == Sum(t, (x: Inventory) => x.TotalQuantity())
    ensures r.Some? && (forall i :: 0 <= i < |t| ==> t[i].Valid()) ==> r.value >= 0
  {
    if t == [] then None
    else
      SumNonNegativeIfValid(t);
      Some(Sum(t, (x: Inventory) => x.TotalQuantity()))
  }

  lemma SumNonNegativeIfValid(t: Table)
    ensures (forall i :: 0 <= i < |t| ==> t[i].Valid()) ==>
      Sum(t, (x: Inventory) => x.TotalQuantity()) >= 0
  {
    if forall i :: 0 <= i < |t| ==> t[i].Valid() {
      SumNonNegative(t, (x: Inventory) => x.TotalQuantity());
    }
  }

  /** `COUNT(*)` of the rows with nothing available. */
  function CountOutOfStockItems(t: Table): (n: nat)
    ensures n <= |t|
    ensures n == 0 <==> forall i :: 0 <= i < |t| ==> t[i].available != 0
    ensures n == |Filter(t, (x: Inventory) => x.available == 0)|
  {
    CountIsFilterLength(t, (x: Inventory) => x.available == 0);
    Count(t, (x: Inventory) => x.available == 0)
  }

  /** Adding a row raises the count by one exactly when the row has nothing
      available; with the empty table counting zero, this fixes the count. */
  lemma CountOutOfStockAppend(t: Table, row: Inventory)
    ensures CountOutOfStockItems([]) == 0
    ensures CountOutOfStockItems(t + [row]) == CountOutOfStockItems(t) + (if row.available == 0 then 1 else 0)
  {
    CountAppend(t, [row], (x: Inventory) => x.available == 0);
  }

  /** A release of a positive quantity never lowers any row's available
      quantity, so it never turns an in-stock row into an out-of-stock one. */
  lemma ReleaseKeepsRowsInStock(t: Table, productId: ProductId, quantity: int, i: int)
    requires quantity > 0 && 0 <= i < |t| && t[i].available >= 0
    ensures ReleaseReservation(t, productId, quantity).rows[i].available >= t[i].available
    ensures t[i].IsInStock() ==> ReleaseReservation(t, productId, quantity).rows[i].IsInStock()
  {
  }
}
