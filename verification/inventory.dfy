/** The inventory record of one product: an available quantity and a
    reserved quantity, with guarded moves between them. */
module InventoryEntity {
  import opened Wrappers
  import opened Text
  import opened Domain

  datatype Inventory = Inventory(
    productId: ProductId,
    available: int,
    reserved: int,
    reorderPoint: Option<int>,
    maxQuantity: Option<int>)
  {
    /** Both quantities carry a `@Min(0)` constraint. */
    predicate Valid() {
      available >= 0 && reserved >= 0
    }

    function TotalQuantity(): int {
      available + reserved
    }

    predicate IsInStock() {
      available > 0
    }

    predicate IsLowStock() {
      reorderPoint.Some? && available <= reorderPoint.value
    }
  }

  /** A freshly constructed record: nothing reserved, no reorder point. */
  function NewInventory(productId: ProductId, quantityAvailable: int): (r: Inventory)
    ensures r.productId == productId
    ensures r.available == quantityAvailable && r.reserved == 0
    ensures r.TotalQuantity() == quantityAvailable
    ensures r.reorderPoint.None? && !r.IsLowStock()
    ensures quantityAvailable >= 0 ==> r.Valid()
  {
    Inventory(productId, quantityAvailable, 0, None, None)
  }

  predicate CanReserve(inv: Inventory, quantity: int) {
    quantity > 0 && inv.available >= quantity
  }

  /** Moves `quantity` from available to reserved, or refuses. */
  function Reserve(inv: Inventory, quantity: int): (r: Result<Inventory, Error>)
    ensures r.Success? <==> quantity > 0 && inv.available >= quantity
    ensures r.Success? ==>
      && r.value.available == inv.available - quantity
      && r.value.reserved == inv.reserved + quantity
      && r.value.TotalQuantity() == inv.TotalQuantity()
      && r.value == inv.(available := r.value.available, reserved := r.value.reserved)
    ensures r.Failure? ==>
      r.error == "Cannot reserve " + IntToString(quantity) + " items. Available: "
        + IntToString(inv.available)
  {
    if !CanReserve(inv, quantity) then
      Failure("Cannot reserve " + IntToString(quantity) + " items. Available: "
        + IntToString(inv.available))
    else
      Success(inv.(available := inv.available - quantity, reserved := inv.reserved + quantity))
  }

  /** Moves `quantity` from reserved back to available, refusing only a
      quantity larger than what is reserved (a negative one passes). */
  function Release(inv: Inventory, quantity: int): (r: Result<Inventory, Error>)
    ensures r.Success? <==> quantity <= inv.reserved
    ensures r.Success? ==>
      && r.value.reserved == inv.reserved - quantity
      && r.value.available == inv.available + quantity
      && r.value.TotalQuantity() == inv.TotalQuantity()
      && r.value == inv.(available := r.value.available, reserved := r.value.reserved)
    ensures r.Failure? ==>
      r.error == "Cannot release " + IntToString(quantity) + " items. Reserved: "
        + IntToString(inv.reserved)
  {
    if quantity > inv.reserved then
      Failure("Cannot release " + IntToString(quantity) + " items. Reserved: "
        + IntToString(inv.reserved))
    else
      Success(inv.(reserved := inv.reserved - quantity, available := inv.available + quantity))
  }

  /** Consumes `quantity` of the reservation: the goods leave the stock. */
  function Confirm(inv: Inventory, quantity: int): (r: Result<Inventory, Error>)
    ensures r.Success? <==> quantity <= inv.reserved
    ensures r.Success? ==>
      && r.value.reserved == inv.reserved - quantity
      && r.value.available == inv.available
      && r.value.TotalQuantity() == inv.TotalQuantity() - quantity
      && r.value == inv.(reserved := r.value.reserved)
    ensures r.Failure? ==>
      r.error == "Cannot confirm " + IntToString(quantity) + " items. Reserved: "
        + IntToString(inv.reserved)
  {
    if quantity > inv.reserved then
      Failure("Cannot confirm " + IntToString(quantity) + " items. Reserved: "
        + IntToString(inv.reserved))
    else
      Success(inv.(reserved := inv.reserved - quantity))
  }

  /** Adds new stock to the available quantity; a non-positive amount is an
      argument error. */
  function AddStock(inv: Inventory, quantity: int): (r: Result<Inventory, Error>)
    ensures r.Success? <==> quantity > 0
    ensures r.Success? ==>
      && r.value.available == inv.available + quantity
      && r.value.TotalQuantity() == inv.TotalQuantity() + quantity
      && r.value == inv.(available := r.value.available)
    ensures r.Failure? ==> r.error == "Quantity to add must be positive"
  {
    if quantity <= 0 then Failure("Quantity to add must be positive")
    else Success(inv.(available := inv.available + quantity))
  }

  /** Releasing what was just reserved restores the record exactly. */
  lemma ReserveThenRelease(inv: Inventory, quantity: int)
    requires inv.Valid() && Reserve(inv, quantity).Success?
    ensures Release(Reserve(inv, quantity).value, quantity) == Success(inv)
  {
    var mid := Reserve(inv, quantity).value;
    var back := Release(mid, quantity).value;
    assert back.available == inv.available && back.reserved == inv.reserved;
  }

  /** Reserving what was just released restores the record, provided the
      released amount is a quantity the reserve guard accepts. */
  lemma ReleaseThenReserve(inv: Inventory, quantity: int)
    requires quantity > 0 && Release(inv, quantity).Success?
    requires inv.available >= 0
    ensures Reserve(Release(inv, quantity).value, quantity) == Success(inv)
  {
  }

  /** Every successful operation with a non-negative quantity keeps both
      quantities non-negative. */
  lemma OperationsPreserveValid(inv: Inventory, quantity: int)
    requires inv.Valid() && quantity >= 0
    ensures Reserve(inv, quantity).Success? ==> Reserve(inv, quantity).value.Valid()
    ensures Release(inv, quantity).Success? ==> Release(inv, quantity).value.Valid()
    ensures Confirm(inv, quantity).Success? ==> Confirm(inv, quantity).value.Valid()
    ensures AddStock(inv, quantity).Success? ==> AddStock(inv, quantity).value.Valid()
  {
  }

  /** Without the `quantity >= 0` premise the invariant fails: releasing a
      negative amount succeeds and drives the available quantity below zero,
      and confirming a negative amount grows the reservation from nothing. */
  lemma NegativeQuantityBreaksValid(inv: Inventory)
    requires inv.Valid() && inv.available == 0
    ensures Release(inv, -1).Success? && !Release(inv, -1).value.Valid()
    ensures Confirm(inv, -1).Success? && Confirm(inv, -1).value.reserved == inv.reserved + 1
  {
  }

  /** A confirmed reservation can no longer be released: once `quantity`
      is confirmed out of a reservation of exactly `quantity`, releasing the
      same amount again is refused. */
  lemma ReleaseAfterConfirmFails(inv: Inventory, quantity: int)
    requires quantity > 0 && inv.reserved == quantity
    ensures Confirm(inv, quantity).Success?
    ensures Release(Confirm(inv, quantity).value, quantity).Failure?
  {
  }
}
