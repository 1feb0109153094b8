/** A redemption order and its line items, each with its own small status
    machine. The company and account manager are kept as the records the
    order was placed with. */
module OrderEntities {
  import opened Wrappers
  import opened Text
  import opened Domain
  import opened Seqs

  /** One line of an order. `product` is `None` for an item whose product
      reference is null, which the validation annotations forbid but the
      type tests still handle. */
  datatype OrderItem = OrderItem(
    id: ItemId,
    product: Option<Product>,
    quantity: int,
    pointsPerItem: int,
    fulfillmentStatus: FulfillmentStatus,
    fulfillmentReference: Option<string>,
    trackingNumber: Option<string>,
    deliveredAt: Option<Time>)
  {
    /** The bean-validation constraints: a product, and quantity and points
        per item of at least one. */
    predicate Valid() {
      product.Some? && quantity >= 1 && pointsPerItem >= 1
    }

    function TotalPoints(): int {
      quantity * pointsPerItem
    }

    predicate IsPhysicalProduct() {
      product.Some? && product.value.productType == Physical
    }

    predicate IsVirtualProduct() {
      product.Some? && product.value.productType == Virtual
    }
  }

  /** The four-argument constructor: a line waiting for fulfilment. */
  function NewItem(id: ItemId, product: Product, quantity: int, pointsPerItem: int): (r: OrderItem)
    ensures r.fulfillmentStatus == FulfillmentStatus.Pending
    ensures r.product == Some(product) && r.quantity == quantity && r.pointsPerItem == pointsPerItem
    ensures r.fulfillmentReference.None? && r.trackingNumber.None? && r.deliveredAt.None?
    ensures quantity >= 1 && pointsPerItem >= 1 ==> r.Valid() && r.TotalPoints() >= r.quantity
  {
    OrderItem(id, Some(product), quantity, pointsPerItem, FulfillmentStatus.Pending, None, None, None)
  }

  /** A line is either physical or virtual, never both, and neither when it
      has no product. */
  lemma ItemTypesExclusive(item: OrderItem)
    ensures !(item.IsPhysicalProduct() && item.IsVirtualProduct())
    ensures item.product.None? ==> !item.IsPhysicalProduct() && !item.IsVirtualProduct()
    ensures item.product.Some? ==> item.IsPhysicalProduct() != item.IsVirtualProduct()
  {
  }

  /** A valid line is worth at least as many points as its quantity and as
      its unit price. */
  lemma ItemTotalBounds(item: OrderItem)
    requires item.Valid()
    ensures item.TotalPoints() >= item.quantity && item.TotalPoints() >= item.pointsPerItem
  {
    assert item.TotalPoints() - item.quantity == item.quantity * (item.pointsPerItem - 1);
    assert item.TotalPoints() - item.pointsPerItem == (item.quantity - 1) * item.pointsPerItem;
  }

  /** `markAsFulfilled`: unguarded; the reference is stored. */
  function MarkItemFulfilled(item: OrderItem, reference: Option<string>): (r: OrderItem)
    ensures r.fulfillmentStatus == FulfillmentStatus.Fulfilled && r.fulfillmentReference == reference
    ensures r == item.(fulfillmentStatus := r.fulfillmentStatus, fulfillmentReference := r.fulfillmentReference)
  {
    item.(fulfillmentStatus := FulfillmentStatus.Fulfilled, fulfillmentReference := reference)
  }

  /** `markAsShipped`: only a physical line ships; its status is not
      consulted. */
  function MarkItemShipped(item: OrderItem, trackingNumber: Option<string>): (r: Result<OrderItem, Error>)
    ensures r.Success? <==> item.IsPhysicalProduct()
    ensures r.Success? ==> r.value == item.(fulfillmentStatus := FulfillmentStatus.Shipped, trackingNumber := trackingNumber)
    ensures r.Failure? ==> r.error == "Only physical products can be shipped"
  {
    if !item.IsPhysicalProduct() then Failure("Only physical products can be shipped")
    else Success(item.(fulfillmentStatus := FulfillmentStatus.Shipped, trackingNumber := trackingNumber))
  }

  /** `markAsDelivered`: only a SHIPPED line is delivered. */
  function MarkItemDelivered(item: OrderItem, now: Time): (r: Result<OrderItem, Error>)
    ensures r.Success? <==> item.fulfillmentStatus == FulfillmentStatus.Shipped
    ensures r.Success? ==> r.value == item.(fulfillmentStatus := FulfillmentStatus.Delivered, deliveredAt := Some(now))
    ensures r.Failure? ==> r.error == "Item must be shipped before it can be delivered"
  {
    if item.fulfillmentStatus != FulfillmentStatus.Shipped then
      Failure("Item must be shipped before it can be delivered")
    else Success(item.(fulfillmentStatus := FulfillmentStatus.Delivered, deliveredAt := Some(now)))
  }

  /** `markAsFailed`: unguarded; the reason goes into the fulfilment
      reference. */
  function MarkItemFailed(item: OrderItem, reason: Option<string>): (r: OrderItem)
    ensures r.fulfillmentStatus == FulfillmentStatus.Failed && r.fulfillmentReference == reason
    ensures r == item.(fulfillmentStatus := r.fulfillmentStatus, fulfillmentReference := r.fulfillmentReference)
  {
    item.(fulfillmentStatus := FulfillmentStatus.Failed, fulfillmentReference := reason)
  }

  /** The item transitions as a relation on statuses: shipping is open to
      any status, delivery needs SHIPPED, and fulfilment and failure are
      unguarded. */
  predicate ItemGuardAdmits(from: FulfillmentStatus, to: FulfillmentStatus) {
    || to == FulfillmentStatus.Shipped
    || (from == FulfillmentStatus.Shipped && to == FulfillmentStatus.Delivered)
    || to == FulfillmentStatus.Fulfilled
    || to == FulfillmentStatus.Failed
  }

  /** Every item transition moves along the relation, and a physical line
      can always be shipped and then delivered, whatever it went through
      before. */
  lemma ItemTransitionsFollowGuard(item: OrderItem, reference: Option<string>, tracking: Option<string>, now: Time)
    ensures MarkItemShipped(item, tracking).Success? ==>
      ItemGuardAdmits(item.fulfillmentStatus, MarkItemShipped(item, tracking).value.fulfillmentStatus)
    ensures MarkItemDelivered(item, now).Success? <==>
      ItemGuardAdmits(item.fulfillmentStatus, FulfillmentStatus.Delivered)
    ensures ItemGuardAdmits(item.fulfillmentStatus, MarkItemFulfilled(item, reference).fulfillmentStatus)
    ensures ItemGuardAdmits(item.fulfillmentStatus, MarkItemFailed(item, reference).fulfillmentStatus)
    ensures item.IsPhysicalProduct() ==>
      MarkItemDelivered(MarkItemShipped(item, tracking).value, now).Success?
  {
  }

  /** An order as the services see it, with its lines. */
  datatype RedemptionOrder = RedemptionOrder(
    id: OrderId,
    orderNumber: string,
    company: Company,
    accountManager: AccountManager,
    totalPoints: int,
    status: OrderStatus,
    shippingAddress: Option<string>,
    specialInstructions: Option<string>,
    createdAt: Time,
    completedAt: Option<Time>,
    cancelledAt: Option<Time>,
    cancellationReason: Option<string>,
    items: seq<OrderItem>)
  {
    predicate IsPending() { status == OrderStatus.Pending }
    predicate IsProcessing() { status == OrderStatus.Processing }
    predicate IsCompleted() { status == OrderStatus.Completed }
    predicate IsCancelled() { status == OrderStatus.Cancelled }

    predicate HasPhysicalItems() {
      exists i :: 0 <= i < |items| && items[i].IsPhysicalProduct()
    }

    predicate HasVirtualItems() {
      exists i :: 0 <= i < |items| && items[i].IsVirtualProduct()
    }
  }

  /** The number `onCreate` gives an order persisted at the given instant,
      in milliseconds. */
  function OrderNumberAt(millis: nat): (r: string)
    ensures IsPrefix("LRP-", r) && |r| > 4
    ensures r[4..] == NatToString(millis)
  {
    "LRP-" + NatToString(millis)
  }

  /** Distinct instants give distinct order numbers. */
  lemma OrderNumberInjective(a: nat, b: nat)
    ensures OrderNumberAt(a) == OrderNumberAt(b) ==> a == b
  {
    AppendCancelLeft("LRP-", NatToString(a), NatToString(b));
    NatToStringInjective(a, b);
  }

  /** The three-argument constructor followed by the first save: a PENDING
      order with no lines, timestamps or cancellation. */
  function NewOrder(
    id: OrderId, company: Company, manager: AccountManager, totalPoints: int,
    shippingAddress: Option<string>, specialInstructions: Option<string>, millis: nat): (r: RedemptionOrder)
    ensures r.IsPending() && r.items == []
    ensures r.company == company && r.accountManager == manager && r.totalPoints == totalPoints
    ensures r.orderNumber == OrderNumberAt(millis) && r.createdAt == millis
    ensures r.completedAt.None? && r.cancelledAt.None? && r.cancellationReason.None?
  {
    RedemptionOrder(id, OrderNumberAt(millis), company, manager, totalPoints, OrderStatus.Pending,
      shippingAddress, specialInstructions, millis, None, None, None, [])
  }

  /** At most one status test holds, and none does for a FAILED order. */
  lemma OrderStatusTestsExclusive(o: RedemptionOrder)
    ensures (if o.IsPending() then 1 else 0) + (if o.IsProcessing() then 1 else 0)
      + (if o.IsCompleted() then 1 else 0) + (if o.IsCancelled() then 1 else 0) <= 1
    ensures o.status == OrderStatus.Failed <==>
      !o.IsPending() && !o.IsProcessing() && !o.IsCompleted() && !o.IsCancelled()
  {
  }

  /** The physical (virtual) lines are the filter the workflow computes; an
      order has such lines exactly when that filter is non-empty. */
  function PhysicalItems(o: RedemptionOrder): (r: seq<OrderItem>)
    ensures forall i :: 0 <= i < |r| ==> r[i] in o.items && r[i].IsPhysicalProduct()
    ensures forall i :: 0 <= i < |o.items| && o.items[i].IsPhysicalProduct() ==> o.items[i] in r
    ensures r != [] <==> o.HasPhysicalItems()
  {
    FilterEmptyIff(o.items, (it: OrderItem) => it.IsPhysicalProduct());
    Filter(o.items, (it: OrderItem) => it.IsPhysicalProduct())
  }

  function VirtualItems(o: RedemptionOrder): (r: seq<OrderItem>)
    ensures forall i :: 0 <= i < |r| ==> r[i] in o.items && r[i].IsVirtualProduct()
    ensures forall i :: 0 <= i < |o.items| && o.items[i].IsVirtualProduct() ==> o.items[i] in r
    ensures r != [] <==> o.HasVirtualItems()
  {
    FilterEmptyIff(o.items, (it: OrderItem) => it.IsVirtualProduct());
    Filter(o.items, (it: OrderItem) => it.IsVirtualProduct())
  }

  /** An order with only product-carrying lines has physical or virtual
      lines as soon as it has any line at all. */
  lemma NonEmptyOrderHasSomeKind(o: RedemptionOrder)
    requires o.items != [] && forall i :: 0 <= i < |o.items| ==> o.items[i].product.Some?
    ensures o.HasPhysicalItems() || o.HasVirtualItems()
  {
    ItemTypesExclusive(o.items[0]);
  }

  /** `markAsProcessing`: only a PENDING order starts processing. */
  function MarkOrderProcessing(o: RedemptionOrder): (r: Result<RedemptionOrder, Error>)
    ensures r.Success? <==> o.IsPending()
    ensures r.Success? ==> r.value == o.(status := OrderStatus.Processing)
    ensures r.Failure? ==> r.error == "Order can only be marked as processing from pending status"
  {
    if !o.IsPending() then Failure("Order can only be marked as processing from pending status")
    else Success(o.(status := OrderStatus.Processing))
  }

  /** `markAsCompleted`: only a PROCESSING order completes, and the time is
      recorded. */
  function MarkOrderCompleted(o: RedemptionOrder, now: Time): (r: Result<RedemptionOrder, Error>)
    ensures r.Success? <==> o.IsProcessing()
    ensures r.Success? ==> r.value == o.(status := OrderStatus.Completed, completedAt := Some(now))
    ensures r.Failure? ==> r.error == "Order can only be completed from processing status"
  {
    if !o.IsProcessing() then Failure("Order can only be completed from processing status")
    else Success(o.(status := OrderStatus.Completed, completedAt := Some(now)))
  }

  /** `markAsCancelled`: everything but a COMPLETED order can be cancelled,
      including one that is already CANCELLED or FAILED. */
  function MarkOrderCancelled(o: RedemptionOrder, reason: string, now: Time): (r: Result<RedemptionOrder, Error>)
    ensures r.Success? <==> !o.IsCompleted()
    ensures r.Success? ==>
      r.value == o.(status := OrderStatus.Cancelled, cancelledAt := Some(now), cancellationReason := Some(reason))
    ensures r.Failure? ==> r.error == "Cannot cancel a completed order"
  {
    if o.IsCompleted() then Failure("Cannot cancel a completed order")
    else Success(o.(status := OrderStatus.Cancelled, cancelledAt := Some(now), cancellationReason := Some(reason)))
  }

  /** The order transitions the entity's guards admit. `FAILED` is not
      among them: the entity has no method that leads there. */
  predicate OrderGuardAdmits(from: OrderStatus, to: OrderStatus) {
    || (from == OrderStatus.Pending && to == OrderStatus.Processing)
    || (from == OrderStatus.Processing && to == OrderStatus.Completed)
    || (from != OrderStatus.Completed && to == OrderStatus.Cancelled)
  }

  /** Each order transition goes through exactly when the relation admits
      it; COMPLETED is final. */
  lemma OrderTransitionsFollowGuard(o: RedemptionOrder, reason: string, now: Time)
    ensures MarkOrderProcessing(o).Success? <==> OrderGuardAdmits(o.status, OrderStatus.Processing)
    ensures MarkOrderCompleted(o, now).Success? <==> OrderGuardAdmits(o.status, OrderStatus.Completed)
    ensures MarkOrderCancelled(o, reason, now).Success? <==> OrderGuardAdmits(o.status, OrderStatus.Cancelled)
    ensures forall to: OrderStatus :: !OrderGuardAdmits(OrderStatus.Completed, to)
  {
  }

  /** Cancelling twice succeeds both times: the guard only looks for
      COMPLETED. */
  lemma CancelIsRepeatable(o: RedemptionOrder, r1: string, r2: string, t1: Time, t2: Time)
    requires !o.IsCompleted()
    ensures MarkOrderCancelled(MarkOrderCancelled(o, r1, t1).value, r2, t2).Success?
    ensures MarkOrderCancelled(MarkOrderCancelled(o, r1, t1).value, r2, t2).value.cancellationReason == Some(r2)
  {
  }

  /** The sum of the lines' points. */
  function ItemsTotal(items: seq<OrderItem>): int {
    Sum(items, (it: OrderItem) => it.TotalPoints())
  }

  /** Lines that satisfy their constraints add up to at least one point each. */
  lemma {:induction false} ItemsTotalAtLeastCount(items: seq<OrderItem>)
    requires forall i :: 0 <= i < |items| ==> items[i].Valid()
    ensures ItemsTotal(items) >= |items|
  {
    if items != [] {
      ItemTotalBounds(items[0]);
      ItemsTotalAtLeastCount(items[1..]);
    }
  }
}
