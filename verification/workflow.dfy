/** The order workflow: fanning fulfilment out over an order's lines once
    the points are debited, the virtual provider's callbacks, shipping and
    delivery of physical lines, and the completion check that closes an
    order. The provider's HTTP call is split in two: the dispatch, which
    yields the request posted, and a later callback event. */
module Workflow {
  import opened Wrappers
  import opened Text
  import opened Domain
  import opened Seqs
  import opened InventoryService
  import opened OrderEntities
  import opened Notifications
  import opened FulfillmentMock
  import opened Portal

  datatype Pass = Pass(stock: Stock, items: seq<OrderItem>)

  /** The quantity of product `p` over the physical lines of `items`. */
  function PhysicalQuantity(items: seq<OrderItem>, p: ProductId): int {
    if items == [] then 0
    else
      var here := if items[0].IsPhysicalProduct() && items[0].product.value.id == p then items[0].quantity else 0;
      here + PhysicalQuantity(items[1..], p)
  }

  lemma {:induction false} PhysicalQuantityAppend(a: seq<OrderItem>, b: seq<OrderItem>, p: ProductId)
    ensures PhysicalQuantity(a + b, p) == PhysicalQuantity(a, p) + PhysicalQuantity(b, p)
  {
    if a == [] {
      assert a + b == b;
    } else {
      assert (a + b)[1..] == a[1..] + b;
      PhysicalQuantityAppend(a[1..], b, p);
    }
  }

  /** Every physical line names a stocked product with a positive quantity,
      and each product holds at least the lines' total reservation. */
  ghost predicate HoldsReservations(stock: Stock, items: seq<OrderItem>) {
    && Reservable(stock, items)
    && (forall p :: p in stock ==> stock[p].reserved >= PhysicalQuantity(items, p))
  }

  /** Every physical line names a product with a record and a positive
      quantity. */
  ghost predicate Reservable(stock: Stock, items: seq<OrderItem>) {
    forall i :: 0 <= i < |items| && items[i].IsPhysicalProduct() ==>
      items[i].product.value.id in stock && items[i].quantity > 0
  }

  lemma {:induction false} PhysicalQuantityNonNegative(items: seq<OrderItem>, p: ProductId)
    requires forall i :: 0 <= i < |items| && items[i].IsPhysicalProduct() ==> items[i].quantity > 0
    ensures PhysicalQuantity(items, p) >= 0
    decreases |items|
  {
    if items != [] {
      assert forall i :: 1 <= i < |items| ==> items[i] == items[1..][i - 1];
      PhysicalQuantityNonNegative(items[1..], p);
    }
  }

  /** One iteration of the physical loop: confirm the line's reservation
      and mark it PROCESSING, or mark it FAILED with the reason. */
  function PhysicalStep(stock: Stock, item: OrderItem): (r: Pass)
    requires item.IsPhysicalProduct()
    ensures |r.items| == 1
    ensures || r.items[0] == item.(fulfillmentStatus := FulfillmentStatus.Processing)
            || (&& r.items[0].fulfillmentReference.Some?
                && IsPrefix("Failed to initiate fulfillment: ", r.items[0].fulfillmentReference.value)
                && r.items[0] == MarkItemFailed(item, r.items[0].fulfillmentReference))
    ensures r.stock.Keys == stock.Keys
    ensures forall p :: p in stock ==> r.stock[p] == stock[p].(reserved := r.stock[p].reserved)
    ensures forall p :: p in stock ==>
      r.stock[p].reserved == stock[p].reserved - (if ConfirmedFor(r.items[0], p) then item.quantity else 0)
    ensures r.items[0].fulfillmentStatus == FulfillmentStatus.Processing <==>
      item.product.value.id in stock && item.quantity <= stock[item.product.value.id].reserved
    ensures r.items[0].fulfillmentStatus != FulfillmentStatus.Processing ==>
      && r.stock == stock
      && r.items[0] == MarkItemFailed(item, Some("Failed to initiate fulfillment: "
           + ConfirmReservation(stock, item.product.value.id, item.quantity).error))
  {
    match ConfirmReservation(stock, item.product.value.id, item.quantity)
    case Success(confirmed) => Pass(confirmed, [item.(fulfillmentStatus := FulfillmentStatus.Processing)])
    case Failure(e) => Pass(stock, [MarkItemFailed(item, Some("Failed to initiate fulfillment: " + e))])
  }

  /** A physical line of product `p` whose reservation was confirmed. */
  predicate ConfirmedFor(item: OrderItem, p: ProductId) {
    item.IsPhysicalProduct() && item.product.value.id == p
    && item.fulfillmentStatus == FulfillmentStatus.Processing
  }

  /** The quantity confirmed for product `p` over a list of lines. */
  function ConfirmedQuantity(items: seq<OrderItem>, p: ProductId): int {
    if items == [] then 0
    else (if ConfirmedFor(items[0], p) then items[0].quantity else 0) + ConfirmedQuantity(items[1..], p)
  }

  /** `after` is `before` with at most its status and reference changed. */
  predicate SameLine(before: OrderItem, after: OrderItem) {
    after == before.(fulfillmentStatus := after.fulfillmentStatus, fulfillmentReference := after.fulfillmentReference)
  }

  /** The loop of `processPhysicalItems`. Each physical line ends PROCESSING
      or FAILED, whatever happened to the lines before it; every other line
      is left alone. */
  function PhysicalPass(stock: Stock, items: seq<OrderItem>): (r: Pass)
    ensures |r.items| == |items|
    ensures forall i :: 0 <= i < |items| ==> SameLine(items[i], r.items[i])
    ensures forall i :: 0 <= i < |items| && !items[i].IsPhysicalProduct() ==> r.items[i] == items[i]
    ensures forall i :: 0 <= i < |items| && items[i].IsPhysicalProduct() ==>
      || r.items[i] == items[i].(fulfillmentStatus := FulfillmentStatus.Processing)
      || (&& r.items[i].fulfillmentReference.Some?
          && IsPrefix("Failed to initiate fulfillment: ", r.items[i].fulfillmentReference.value)
          && r.items[i] == MarkItemFailed(items[i], r.items[i].fulfillmentReference))
    ensures r.stock.Keys == stock.Keys
    ensures HoldsReservations(stock, items) ==>
      && (forall i :: 0 <= i < |items| && items[i].IsPhysicalProduct() ==>
            r.items[i] == items[i].(fulfillmentStatus := FulfillmentStatus.Processing))
      && (forall p :: p in stock ==> r.stock[p] == stock[p].(reserved := stock[p].reserved - PhysicalQuantity(items, p)))
    decreases |items|
  {
    if items == [] then Pass(stock, [])
    else
      HeldStep(stock, items);
      var head := if items[0].IsPhysicalProduct() then PhysicalStep(stock, items[0]) else Pass(stock, [items[0]]);
      var rest := PhysicalPass(head.stock, items[1..]);
      var r := Pass(rest.stock, head.items + rest.items);
      assert r.items[1..] == rest.items;
      r
  }

  /** When the stock holds the lines' reservations, the first line's step
      confirms it, and what is left still holds the remaining lines. */
  lemma HeldStep(stock: Stock, items: seq<OrderItem>)
    requires items != []
    ensures HoldsReservations(stock, items) ==>
      var head := if items[0].IsPhysicalProduct() then PhysicalStep(stock, items[0]) else Pass(stock, [items[0]]);
      && (items[0].IsPhysicalProduct() ==> head.items[0] == items[0].(fulfillmentStatus := FulfillmentStatus.Processing))
      && HoldsReservations(head.stock, items[1..])
      && (forall p :: p in stock ==>
            head.stock[p] == stock[p].(reserved := stock[p].reserved - PhysicalQuantity(items, p) + PhysicalQuantity(items[1..], p)))
  {
    if HoldsReservations(stock, items) {
      var rest := items[1..];
      assert forall i :: 1 <= i < |items| ==> items[i] == rest[i - 1];
      forall p | p in stock
        ensures PhysicalQuantity(rest, p) >= 0
      {
        PhysicalQuantityNonNegative(rest, p);
      }
    }
  }

  /** Over the physical loop, the stock's reservations drop by exactly the
      quantities of the lines that were confirmed, and nothing else in the
      stock changes. */
  lemma {:induction false} PhysicalPassConfirmsReservations(stock: Stock, items: seq<OrderItem>)
    ensures var r := PhysicalPass(stock, items);
      forall p :: p in stock ==>
        && r.stock[p] == stock[p].(reserved := r.stock[p].reserved)
        && r.stock[p].reserved == stock[p].reserved - ConfirmedQuantity(r.items, p)
    decreases |items|
  {
    if items != [] {
      var head := if items[0].IsPhysicalProduct() then PhysicalStep(stock, items[0]) else Pass(stock, [items[0]]);
      PhysicalPassConfirmsReservations(head.stock, items[1..]);
      var rest := PhysicalPass(head.stock, items[1..]);
      var r := PhysicalPass(stock, items);
      assert r.items == head.items + rest.items;
      assert r.items[1..] == rest.items;
    }
  }

  /** The request posted for one virtual line: its reference is the order
      number and the line id, joined by a dash. */
  function RequestFor(o: RedemptionOrder, item: OrderItem): (r: VirtualFulfillmentRequest)
    requires item.product.Some?
    ensures r.referenceId == o.orderNumber + "-" + NatToString(item.id)
    ensures r.productSku == item.product.value.sku && r.quantity == item.quantity
    ensures r.customerEmail == o.accountManager.email && r.companyName == o.company.name
  {
    VirtualFulfillmentRequest(o.orderNumber + "-" + NatToString(item.id), item.product.value.sku,
      item.quantity, o.accountManager.email, o.accountManager.fullName, o.company.name)
  }

  /** Two lines of one order never share a reference. */
  lemma ReferenceIdsIdentifyLines(o: RedemptionOrder, a: OrderItem, b: OrderItem)
    requires a.product.Some? && b.product.Some?
    ensures RequestFor(o, a).referenceId == RequestFor(o, b).referenceId ==> a.id == b.id
  {
    var p := o.orderNumber + "-";
    assert RequestFor(o, a).referenceId == p + NatToString(a.id);
    assert RequestFor(o, b).referenceId == p + NatToString(b.id);
    AppendCancelLeft(p, NatToString(a.id), NatToString(b.id));
    NatToStringInjective(a.id, b.id);
  }

  /** A virtual line that is dispatched: no fault is injected for it. */
  predicate Dispatched(item: OrderItem, fault: ItemId -> Option<string>) {
    item.IsVirtualProduct() && fault(item.id).None?
  }

  /** One iteration of the virtual loop. `fault` says, per line, whether
      building and posting its request throws. A dispatched line is left
      PROCESSING awaiting the provider's callback; a line whose dispatch
      throws is marked FAILED at once; any other line is skipped. */
  function VirtualStep(item: OrderItem, fault: ItemId -> Option<string>): (r: OrderItem)
    ensures SameLine(item, r)
    ensures !item.IsVirtualProduct() ==> r == item
    ensures Dispatched(item, fault) ==> r.fulfillmentStatus == FulfillmentStatus.Processing && r.fulfillmentReference == item.fulfillmentReference
    ensures item.IsVirtualProduct() && fault(item.id).Some? ==>
      r.fulfillmentStatus == FulfillmentStatus.Failed
      && r.fulfillmentReference == Some("Failed to fulfill virtually: " + fault(item.id).value)
  {
    if !item.IsVirtualProduct() then item
    else if fault(item.id).Some? then MarkItemFailed(item, Some("Failed to fulfill virtually: " + fault(item.id).value))
    else item.(fulfillmentStatus := FulfillmentStatus.Processing)
  }

  /** The line statuses after the loop of `processVirtualItems`. */
  function VirtualPass(items: seq<OrderItem>, fault: ItemId -> Option<string>): (r: seq<OrderItem>)
    ensures |r| == |items| && forall i :: 0 <= i < |items| ==> r[i] == VirtualStep(items[i], fault)
  {
    seq(|items|, i requires 0 <= i < |items| => VirtualStep(items[i], fault))
  }

  /** The requests the loop of `processVirtualItems` posts: one per
      dispatched line, in line order, and nothing else. */
  function DispatchedRequests(o: RedemptionOrder, items: seq<OrderItem>, fault: ItemId -> Option<string>): (r: seq<VirtualFulfillmentRequest>)
    ensures |r| == Count(items, (it: OrderItem) => Dispatched(it, fault))
  {
    if items == [] then []
    else if Dispatched(items[0], fault) then [RequestFor(o, items[0])] + DispatchedRequests(o, items[1..], fault)
    else DispatchedRequests(o, items[1..], fault)
  }

  /** Every dispatched line has its request among those posted. */
  lemma {:induction false} DispatchedLinesArePosted(o: RedemptionOrder, items: seq<OrderItem>,
                                                     fault: ItemId -> Option<string>)
    ensures forall i :: 0 <= i < |items| && Dispatched(items[i], fault) ==>
      RequestFor(o, items[i]) in DispatchedRequests(o, items, fault)
    decreases |items|
  {
    if items != [] {
      DispatchedLinesArePosted(o, items[1..], fault);
      assert forall i :: 1 <= i < |items| ==> items[i] == items[1..][i - 1];
    }
  }

  /** `req` is the request of some dispatched line among `items`. */
  ghost predicate RequestOfDispatched(o: RedemptionOrder, items: seq<OrderItem>, fault: ItemId -> Option<string>,
                                      req: VirtualFulfillmentRequest) {
    exists i :: 0 <= i < |items| && Dispatched(items[i], fault) && req == RequestFor(o, items[i])
  }

  lemma RequestOfDispatchedInTail(o: RedemptionOrder, items: seq<OrderItem>, fault: ItemId -> Option<string>,
                                  req: VirtualFulfillmentRequest)
    requires items != [] && RequestOfDispatched(o, items[1..], fault, req)
    ensures RequestOfDispatched(o, items, fault, req)
  {
    var j :| 0 <= j < |items[1..]| && Dispatched(items[1..][j], fault) && req == RequestFor(o, items[1..][j]);
    assert items[j + 1] == items[1..][j];
  }

  /** Every posted request is that of a dispatched line. */
  lemma {:induction false} PostedRequestsAreDispatched(o: RedemptionOrder, items: seq<OrderItem>,
                                                        fault: ItemId -> Option<string>)
    ensures forall req :: req in DispatchedRequests(o, items, fault) ==> RequestOfDispatched(o, items, fault, req)
    decreases |items|
  {
    if items != [] {
      PostedRequestsAreDispatched(o, items[1..], fault);
      var rest := DispatchedRequests(o, items[1..], fault);
      forall x | x in rest
        ensures RequestOfDispatched(o, items, fault, x)
      {
        RequestOfDispatchedInTail(o, items, fault, x);
      }
      if Dispatched(items[0], fault) {
        assert RequestOfDispatched(o, items, fault, RequestFor(o, items[0]));
      }
    }
  }

  /** A line the fulfilment passes have dealt with. */
  predicate Decided(item: OrderItem) {
    item.fulfillmentStatus == FulfillmentStatus.Processing || item.fulfillmentStatus == FulfillmentStatus.Failed
  }

  /** `processPhysicalItems`, run only when the order has physical lines. */
  function PhysicalPhase(stock: Stock, o: RedemptionOrder): (r: Pass)
    ensures |r.items| == |o.items|
    ensures forall i :: 0 <= i < |o.items| ==> SameLine(o.items[i], r.items[i])
    ensures forall i :: 0 <= i < |o.items| && o.items[i].IsPhysicalProduct() ==> Decided(r.items[i])
    ensures forall i :: 0 <= i < |o.items| && !o.items[i].IsPhysicalProduct() ==> r.items[i] == o.items[i]
    ensures r.stock.Keys == stock.Keys
    ensures !o.HasPhysicalItems() ==> r.stock == stock
    ensures HoldsReservations(stock, o.items) ==>
      && (forall i :: 0 <= i < |o.items| && o.items[i].IsPhysicalProduct() ==>
            r.items[i] == o.items[i].(fulfillmentStatus := FulfillmentStatus.Processing))
      && (forall p :: p in stock ==> r.stock[p] == stock[p].(reserved := stock[p].reserved - PhysicalQuantity(o.items, p)))
  {
    if o.HasPhysicalItems() then PhysicalPass(stock, o.items)
    else
      NoPhysicalLinesNoQuantity(o.items);
      Pass(stock, o.items)
  }

  /** Lines none of which is physical hold no physical quantity. */
  lemma {:induction false} NoPhysicalLinesNoQuantity(items: seq<OrderItem>)
    requires forall i :: 0 <= i < |items| ==> !items[i].IsPhysicalProduct()
    ensures forall p :: PhysicalQuantity(items, p) == 0
    decreases |items|
  {
    if items != [] {
      assert forall i :: 1 <= i < |items| ==> items[i] == items[1..][i - 1];
      NoPhysicalLinesNoQuantity(items[1..]);
    }
  }

  /** `processVirtualItems`, run only when the order has virtual lines. */
  function VirtualPhase(o: RedemptionOrder, items: seq<OrderItem>, fault: ItemId -> Option<string>): (r: seq<OrderItem>)
    requires |items| == |o.items| && forall i :: 0 <= i < |o.items| ==> SameLine(o.items[i], items[i])
    ensures |r| == |items|
    ensures forall i :: 0 <= i < |items| ==> SameLine(items[i], r[i])
    ensures forall i :: 0 <= i < |items| && o.items[i].IsVirtualProduct() ==> Decided(r[i])
    ensures forall i :: 0 <= i < |items| && !o.items[i].IsVirtualProduct() ==> r[i] == items[i]
  {
    assert forall i :: 0 <= i < |items| ==> SameLine(o.items[i], items[i]) && items[i].product == o.items[i].product;
    if o.HasVirtualItems() then VirtualPass(items, fault) else items
  }

  datatype Lines = Lines(stock: Stock, items: seq<OrderItem>, requests: seq<VirtualFulfillmentRequest>)

  /** Both passes over an order's lines. Every line of a known kind ends
      PROCESSING or FAILED; only statuses and references change; the stock
      is untouched without physical lines and nothing is posted without
      virtual ones. */
  function FulfillLines(stock: Stock, o: RedemptionOrder, fault: ItemId -> Option<string>): (r: Lines)
    ensures |r.items| == |o.items|
    ensures forall i :: 0 <= i < |o.items| ==> SameLine(o.items[i], r.items[i])
    ensures forall i :: 0 <= i < |o.items| && (o.items[i].IsPhysicalProduct() || o.items[i].IsVirtualProduct()) ==>
      Decided(r.items[i])
    ensures r.stock.Keys == stock.Keys
    ensures !o.HasPhysicalItems() ==> r.stock == stock
    ensures !o.HasVirtualItems() ==> r.requests == []
    ensures HoldsReservations(stock, o.items) ==>
      && (forall i :: 0 <= i < |o.items| && o.items[i].IsPhysicalProduct() ==>
            r.items[i] == o.items[i].(fulfillmentStatus := FulfillmentStatus.Processing))
      && (forall p :: p in stock ==> r.stock[p] == stock[p].(reserved := stock[p].reserved - PhysicalQuantity(o.items, p)))
  {
    var physical := PhysicalPhase(stock, o);
    var items := VirtualPhase(o, physical.items, fault);
    var requests := if o.HasVirtualItems() then DispatchedRequests(o, physical.items, fault) else [];
    Lines(physical.stock, items, requests)
  }

  datatype Initiated = Initiated(state: State, requests: seq<VirtualFulfillmentRequest>)

  /** `initiateOrderFulfillment` on a stored order: the physical pass when
      there are physical lines (followed by the notice to the fulfilment
      team), then the virtual pass when there are virtual lines, then
      exactly one order confirmation. Only the order's lines, the stock and
      the mail log change. */
  function InitiateOrderFulfillment(s: State, orderId: OrderId, fault: ItemId -> Option<string>, now: Time): (r: Initiated)
    requires orderId in s.orders
    ensures r.state.orders.Keys == s.orders.Keys
    ensures forall o :: o in s.orders && o != orderId ==> r.state.orders[o] == s.orders[o]
    ensures r.state.orders[orderId] == s.orders[orderId].(items := r.state.orders[orderId].items)
    ensures |r.state.orders[orderId].items| == |s.orders[orderId].items|
    ensures r.state.catalog == s.catalog && r.state.journal == s.journal && r.state.nextId == s.nextId
    ensures r.state.stock.Keys == s.stock.Keys
    ensures !s.orders[orderId].HasPhysicalItems() ==> r.state.stock == s.stock
    ensures !s.orders[orderId].HasVirtualItems() ==> r.requests == []
    ensures r.state.mail == InitiationMail(s.mail, s.orders[orderId], now)
    ensures forall i :: 0 <= i < |s.orders[orderId].items| ==>
      var before := s.orders[orderId].items[i];
      var after := r.state.orders[orderId].items[i];
      (before.IsPhysicalProduct() || before.IsVirtualProduct()) ==> Decided(after)
    ensures HoldsReservations(s.stock, s.orders[orderId].items) ==>
      && (forall i :: 0 <= i < |s.orders[orderId].items| && s.orders[orderId].items[i].IsPhysicalProduct() ==>
            r.state.orders[orderId].items[i]
            == s.orders[orderId].items[i].(fulfillmentStatus := FulfillmentStatus.Processing))
      && (forall p :: p in s.stock ==>
            r.state.stock[p] == s.stock[p].(reserved := s.stock[p].reserved - PhysicalQuantity(s.orders[orderId].items, p)))
  {
    var o := s.orders[orderId];
    var lines := FulfillLines(s.stock, o, fault);
    Initiated(s.(stock := lines.stock, orders := s.orders[orderId := o.(items := lines.items)],
                 mail := InitiationMail(s.mail, o, now)),
      lines.requests)
  }

  /** The e-mails fulfilment initiation sends: the physical-fulfilment
      notice to the fulfilment team when there are physical lines, then
      exactly one order confirmation to the account manager. */
  function InitiationMail(log: MailLog, o: RedemptionOrder, now: Time): (r: MailLog)
    ensures r.sent == log.sent
      + (if o.HasPhysicalItems()
         then [EmailRecord(FulfillmentTeam, "Physical Fulfillment Required - " + o.orderNumber, PhysicalFulfillment, now)]
         else [])
      + [EmailRecord(o.accountManager.email, "Order Confirmation - " + o.orderNumber, OrderConfirmation, now)]
    ensures IndexConsistent(log) ==> IndexConsistent(r)
  {
    var notified := if o.HasPhysicalItems() then SendPhysicalFulfillmentNotification(log, o, now) else log;
    SendOrderConfirmation(notified, o, now)
  }

  /** A line that needs nothing more: delivered or fulfilled. */
  predicate LineDone(item: OrderItem) {
    item.fulfillmentStatus == FulfillmentStatus.Delivered || item.fulfillmentStatus == FulfillmentStatus.Fulfilled
  }

  predicate AllLinesDone(o: RedemptionOrder) {
    forall i :: 0 <= i < |o.items| ==> LineDone(o.items[i])
  }

  /** `checkOrderCompletion`: when every line is done and the order is not
      yet completed, the order is completed and one completion notice goes
      out; completing anything but a PROCESSING order raises the entity's
      error and leaves the state as it was. Otherwise nothing happens. */
  function CheckOrderCompletion(s: State, orderId: OrderId, now: Time): (r: Outcome)
    requires orderId in s.orders
    ensures !AllLinesDone(s.orders[orderId]) || s.orders[orderId].IsCompleted() ==> r == Outcome(s, None)
    ensures AllLinesDone(s.orders[orderId]) && s.orders[orderId].IsProcessing() ==>
      && r.error.None?
      && r.state == s.(orders := r.state.orders, mail := r.state.mail)
      && r.state.orders == s.orders[orderId := s.orders[orderId].(status := OrderStatus.Completed, completedAt := Some(now))]
      && r.state.mail.sent == s.mail.sent
         + [EmailRecord(s.orders[orderId].accountManager.email, "Order Complete - " + s.orders[orderId].orderNumber, OrderCompletion, now)]
    ensures AllLinesDone(s.orders[orderId]) && !s.orders[orderId].IsCompleted() && !s.orders[orderId].IsProcessing() ==>
      r == Outcome(s, Some("Order can only be completed from processing status"))
    ensures IndexConsistent(s.mail) ==> IndexConsistent(r.state.mail)
  {
    var o := s.orders[orderId];
    if AllLinesDone(o) && !o.IsCompleted() then
      match MarkOrderCompleted(o, now)
      case Failure(e) => Outcome(s, Some(e))
      case Success(completed) =>
        Outcome(s.(orders := s.orders[orderId := completed],
                   mail := SendOrderCompletionNotification(s.mail, completed, now)), None)
    else Outcome(s, None)
  }

  /** A second completion check changes nothing. */
  lemma CompletionIsIdempotent(s: State, orderId: OrderId, now: Time, later: Time)
    requires orderId in s.orders
    ensures var first := CheckOrderCompletion(s, orderId, now);
      first.error.None? ==> CheckOrderCompletion(first.state, orderId, later) == Outcome(first.state, None)
  {
    var first := CheckOrderCompletion(s, orderId, now);
    var o := s.orders[orderId];
    if AllLinesDone(o) && o.IsProcessing() {
      var o' := first.state.orders[orderId];
      assert o'.items == o.items && o'.IsCompleted();
    }
  }

  /** The order reaches COMPLETED through the check exactly when it was
      PROCESSING with every line done, and a cancelled order whose lines are
      all done makes the check fail. */
  lemma CompletionExactlyFromProcessing(s: State, orderId: OrderId, now: Time)
    requires orderId in s.orders && !s.orders[orderId].IsCompleted()
    ensures CheckOrderCompletion(s, orderId, now).state.orders[orderId].IsCompleted() <==>
      AllLinesDone(s.orders[orderId]) && s.orders[orderId].IsProcessing()
    ensures s.orders[orderId].IsCancelled() && AllLinesDone(s.orders[orderId]) ==>
      CheckOrderCompletion(s, orderId, now).error.Some?
  {
  }

  /** The error a lookup by line id raises when there is no such line. */
  function ItemNotFound(itemId: ItemId): (r: Error)
    ensures IsPrefix("Order item not found: ", r)
  {
    "Order item not found: " + NatToString(itemId)
  }

  /** The provider's success callback for one dispatched line: the line is
      FULFILLED under the returned id and stamped delivered, then the order
      is checked for completion; the fulfilment notice goes out only when
      that check did not raise. The response's status is not inspected. */
  function HandleVirtualFulfillmentSuccess(
    s: State, orderId: OrderId, itemId: ItemId, response: VirtualFulfillmentResponse, now: Time): (r: Outcome)
    requires orderId in s.orders && FindItem(s.orders[orderId].items, itemId).Some?
    ensures orderId in r.state.orders && r.state.orders.Keys == s.orders.Keys
    ensures var k := FindItem(s.orders[orderId].items, itemId).value;
      && |r.state.orders[orderId].items| == |s.orders[orderId].items|
      && r.state.orders[orderId].items[k] ==
         s.orders[orderId].items[k].(fulfillmentStatus := FulfillmentStatus.Fulfilled,
           fulfillmentReference := response.fulfillmentId, deliveredAt := Some(now))
    ensures r.state.stock == s.stock && r.state.journal == s.journal
    ensures r.error.None? ==>
      |r.state.mail.sent| > 0 && r.state.mail.sent[|r.state.mail.sent| - 1]
      == EmailRecord(s.orders[orderId].accountManager.email, "Virtual Item Delivered - " + s.orders[orderId].orderNumber, VirtualFulfillment, now)
    ensures r.error.Some? ==> r.error == Some("Order can only be completed from processing status")
    ensures forall o :: o in s.orders && o != orderId ==> r.state.orders[o] == s.orders[o]
    ensures var o := s.orders[orderId];
      var k := FindItem(o.items, itemId).value;
      var saved := o.(items := o.items[k := r.state.orders[orderId].items[k]]);
      var virtualNotice := EmailRecord(o.accountManager.email, "Virtual Item Delivered - " + o.orderNumber, VirtualFulfillment, now);
      && (AllLinesDone(saved) && o.IsProcessing() ==>
            && r.error.None?
            && r.state.orders[orderId] == saved.(status := OrderStatus.Completed, completedAt := Some(now))
            && r.state.mail.sent == s.mail.sent
               + [EmailRecord(o.accountManager.email, "Order Complete - " + o.orderNumber, OrderCompletion, now), virtualNotice])
      && (!AllLinesDone(saved) || o.IsCompleted() ==>
            && r.error.None?
            && r.state.orders[orderId] == saved
            && r.state.mail.sent == s.mail.sent + [virtualNotice])
      && (AllLinesDone(saved) && !o.IsCompleted() && !o.IsProcessing() ==>
            && r.error.Some?
            && r.state.orders[orderId] == saved
            && r.state.mail == s.mail)
    ensures IndexConsistent(s.mail) ==> IndexConsistent(r.state.mail)
  {
    var k := FindItem(s.orders[orderId].items, itemId).value;
    var item := MarkItemFulfilled(s.orders[orderId].items[k], response.fulfillmentId).(deliveredAt := Some(now));
    var checked := SaveLineAndCheck(s, orderId, k, item, now);
    if checked.error.Some? then checked
    else
      var mail := SendVirtualFulfillmentNotification(checked.state.mail, s.orders[orderId], now);
      Outcome(checked.state.(mail := mail), None)
  }

  /** Line `k` is stored as `line`, then the order is checked for
      completion: completed with its notice when every line is done and the
      order is PROCESSING, refused when every line is done and the order is
      neither PROCESSING nor COMPLETED, and left as stored otherwise. */
  function SaveLineAndCheck(s: State, orderId: OrderId, k: nat, line: OrderItem, now: Time): (r: Outcome)
    requires orderId in s.orders && k < |s.orders[orderId].items|
    ensures r.state.stock == s.stock && r.state.journal == s.journal
    ensures r.state.orders.Keys == s.orders.Keys
    ensures forall o :: o in s.orders && o != orderId ==> r.state.orders[o] == s.orders[o]
    ensures var o := s.orders[orderId];
      var saved := o.(items := o.items[k := line]);
      && (AllLinesDone(saved) && o.IsProcessing() ==>
            && r.error.None?
            && r.state.orders[orderId] == saved.(status := OrderStatus.Completed, completedAt := Some(now))
            && r.state.mail.sent == s.mail.sent
               + [EmailRecord(o.accountManager.email, "Order Complete - " + o.orderNumber, OrderCompletion, now)])
      && (!AllLinesDone(saved) || o.IsCompleted() ==>
            && r.error.None?
            && r.state.orders[orderId] == saved
            && r.state.mail == s.mail)
      && (AllLinesDone(saved) && !o.IsCompleted() && !o.IsProcessing() ==>
            && r.error == Some("Order can only be completed from processing status")
            && r.state.orders[orderId] == saved
            && r.state.mail == s.mail)
    ensures IndexConsistent(s.mail) ==> IndexConsistent(r.state.mail)
  {
    CheckOrderCompletion(s.(orders := SaveItem(s.orders, orderId, k, line)), orderId, now)
  }

  /** The provider's error callback: the line is FAILED with the provider's
      message and the failure notices go to the customer and to operations. */
  function HandleVirtualFulfillmentError(s: State, orderId: OrderId, itemId: ItemId, message: string, now: Time): (r: State)
    requires orderId in s.orders && FindItem(s.orders[orderId].items, itemId).Some?
    ensures r.orders.Keys == s.orders.Keys
    ensures var k := FindItem(s.orders[orderId].items, itemId).value;
      r.orders == s.orders[orderId := s.orders[orderId].(items := s.orders[orderId].items[k :=
        MarkItemFailed(s.orders[orderId].items[k], Some("Virtual fulfillment failed: " + message))])]
    ensures r.stock == s.stock && r.journal == s.journal && r.catalog == s.catalog
    ensures |r.mail.sent| == |s.mail.sent| + 2
    ensures r.mail.sent[|s.mail.sent|].recipient == s.orders[orderId].accountManager.email
    ensures r.mail.sent[|s.mail.sent| + 1].recipient == Operations
    ensures IndexConsistent(s.mail) ==> IndexConsistent(r.mail)
  {
    var k := FindItem(s.orders[orderId].items, itemId).value;
    var item := MarkItemFailed(s.orders[orderId].items[k], Some("Virtual fulfillment failed: " + message));
    s.(orders := SaveItem(s.orders, orderId, k, item),
       mail := SendFulfillmentFailureNotification(s.mail, s.orders[orderId], now))
  }

  /** `markItemAsShipped`: an unknown line and a virtual line are refused
      with nothing changed; otherwise the line is SHIPPED with the tracking
      number, whatever its status was, and one shipping notice goes out. */
  function MarkItemAsShipped(s: State, orderId: OrderId, itemId: ItemId, tracking: Option<string>, now: Time): (r: Outcome)
    ensures (orderId !in s.orders || FindItem(s.orders[orderId].items, itemId).None?) ==>
      r == Outcome(s, Some(ItemNotFound(itemId)))
    ensures orderId in s.orders && FindItem(s.orders[orderId].items, itemId).Some? ==>
      var k := FindItem(s.orders[orderId].items, itemId).value;
      var item := s.orders[orderId].items[k];
      && (!item.IsPhysicalProduct() ==> r == Outcome(s, Some("Cannot ship virtual product")))
      && (item.IsPhysicalProduct() ==>
          && r.error.None?
          && r.state.orders == s.orders[orderId := s.orders[orderId].(items := s.orders[orderId].items[k :=
               item.(fulfillmentStatus := FulfillmentStatus.Shipped, trackingNumber := tracking)])]
          && r.state.mail.sent == s.mail.sent
             + [EmailRecord(s.orders[orderId].accountManager.email, "Item Shipped - " + s.orders[orderId].orderNumber, ShippingNotification, now)]
          && r.state == s.(orders := r.state.orders, mail := r.state.mail))
    ensures IndexConsistent(s.mail) ==> IndexConsistent(r.state.mail)
  {
    if orderId !in s.orders then Outcome(s, Some(ItemNotFound(itemId)))
    else match FindItem(s.orders[orderId].items, itemId)
      case None => Outcome(s, Some(ItemNotFound(itemId)))
      case Some(k) =>
        var item := s.orders[orderId].items[k];
        if !item.IsPhysicalProduct() then Outcome(s, Some("Cannot ship virtual product"))
        else
          var shipped := MarkItemShipped(item, tracking).value;
          Outcome(s.(orders := SaveItem(s.orders, orderId, k, shipped),
                     mail := SendShippingNotification(s.mail, s.orders[orderId], now)), None)
  }

  /** `markItemAsDelivered`: an unknown line and a line that is not SHIPPED
      are refused with nothing changed; otherwise see `DeliverShippedLine`. */
  function MarkItemAsDelivered(s: State, orderId: OrderId, itemId: ItemId, now: Time): (r: Outcome)
    ensures (orderId !in s.orders || FindItem(s.orders[orderId].items, itemId).None?) ==>
      r == Outcome(s, Some(ItemNotFound(itemId)))
    ensures orderId in s.orders && FindItem(s.orders[orderId].items, itemId).Some? ==>
      var k := FindItem(s.orders[orderId].items, itemId).value;
      var item := s.orders[orderId].items[k];
      && (item.fulfillmentStatus != FulfillmentStatus.Shipped ==>
            r == Outcome(s, Some("Item must be shipped before it can be delivered")))
      && (item.fulfillmentStatus == FulfillmentStatus.Shipped ==>
          && r == DeliverShippedLine(s, orderId, k, now)
          && orderId in r.state.orders
          && |r.state.orders[orderId].items| == |s.orders[orderId].items|
          && r.state.orders[orderId].items[k] ==
             item.(fulfillmentStatus := FulfillmentStatus.Delivered, deliveredAt := Some(now))
          && r.state.stock == s.stock && r.state.journal == s.journal)
    ensures forall o :: o in s.orders && o != orderId ==> o in r.state.orders && r.state.orders[o] == s.orders[o]
    ensures orderId in s.orders && FindItem(s.orders[orderId].items, itemId).Some? &&
            s.orders[orderId].items[FindItem(s.orders[orderId].items, itemId).value].fulfillmentStatus == FulfillmentStatus.Shipped ==>
      var o := s.orders[orderId];
      var k := FindItem(o.items, itemId).value;
      var saved := o.(items := o.items[k := o.items[k].(fulfillmentStatus := FulfillmentStatus.Delivered, deliveredAt := Some(now))]);
      var deliveryNotice := EmailRecord(o.accountManager.email, "Item Delivered - " + o.orderNumber, DeliveryNotification, now);
      && (AllLinesDone(saved) && o.IsProcessing() ==>
            && r.error.None?
            && r.state.orders[orderId] == saved.(status := OrderStatus.Completed, completedAt := Some(now))
            && r.state.mail.sent == s.mail.sent
               + [EmailRecord(o.accountManager.email, "Order Complete - " + o.orderNumber, OrderCompletion, now), deliveryNotice])
      && (!AllLinesDone(saved) || o.IsCompleted() ==>
            && r.error.None?
            && r.state.orders[orderId] == saved
            && r.state.mail.sent == s.mail.sent + [deliveryNotice])
      && (AllLinesDone(saved) && !o.IsCompleted() && !o.IsProcessing() ==>
            && r.error == Some("Order can only be completed from processing status")
            && r.state.orders[orderId] == saved
            && r.state.mail == s.mail)
    ensures IndexConsistent(s.mail) ==> IndexConsistent(r.state.mail)
  {
    if orderId !in s.orders then Outcome(s, Some(ItemNotFound(itemId)))
    else match FindItem(s.orders[orderId].items, itemId)
      case None => Outcome(s, Some(ItemNotFound(itemId)))
      case Some(k) =>
        var item := s.orders[orderId].items[k];
        match MarkItemDelivered(item, now)
        case Failure(e) => Outcome(s, Some(e))
        case Success(delivered) => DeliverShippedLine(s, orderId, k, now)
  }

  /** The accepted half of `markItemAsDelivered`: line `k` is DELIVERED and
      stamped, the order is checked for completion, and the delivery notice
      goes out only when that check did not raise. */
  function DeliverShippedLine(s: State, orderId: OrderId, k: nat, now: Time): (r: Outcome)
    requires orderId in s.orders && k < |s.orders[orderId].items|
    requires s.orders[orderId].items[k].fulfillmentStatus == FulfillmentStatus.Shipped
    ensures r.state.stock == s.stock && r.state.journal == s.journal
    ensures r.state.orders.Keys == s.orders.Keys
    ensures forall o :: o in s.orders && o != orderId ==> r.state.orders[o] == s.orders[o]
    ensures var o := s.orders[orderId];
      var saved := o.(items := o.items[k := o.items[k].(fulfillmentStatus := FulfillmentStatus.Delivered, deliveredAt := Some(now))]);
      var deliveryNotice := EmailRecord(o.accountManager.email, "Item Delivered - " + o.orderNumber, DeliveryNotification, now);
      && (AllLinesDone(saved) && o.IsProcessing() ==>
            && r.error.None?
            && r.state.orders[orderId] == saved.(status := OrderStatus.Completed, completedAt := Some(now))
            && r.state.mail.sent == s.mail.sent
               + [EmailRecord(o.accountManager.email, "Order Complete - " + o.orderNumber, OrderCompletion, now), deliveryNotice])
      && (!AllLinesDone(saved) || o.IsCompleted() ==>
            && r.error.None?
            && r.state.orders[orderId] == saved
            && r.state.mail.sent == s.mail.sent + [deliveryNotice])
      && (AllLinesDone(saved) && !o.IsCompleted() && !o.IsProcessing() ==>
            && r.error == Some("Order can only be completed from processing status")
            && r.state.orders[orderId] == saved
            && r.state.mail == s.mail)
    ensures IndexConsistent(s.mail) ==> IndexConsistent(r.state.mail)
  {
    var delivered := s.orders[orderId].items[k].(fulfillmentStatus := FulfillmentStatus.Delivered, deliveredAt := Some(now));
    var checked := SaveLineAndCheck(s, orderId, k, delivered, now);
    if checked.error.Some? then checked
    else Outcome(checked.state.(mail := SendDeliveryNotification(checked.state.mail, s.orders[orderId], now)), None)
  }

  /** Shipping does not look at the line's status: a delivered or failed
      physical line goes back to SHIPPED. */
  lemma ShippingIgnoresStatus(s: State, orderId: OrderId, itemId: ItemId, tracking: Option<string>, now: Time)
    requires orderId in s.orders && FindItem(s.orders[orderId].items, itemId).Some?
    requires s.orders[orderId].items[FindItem(s.orders[orderId].items, itemId).value].IsPhysicalProduct()
    ensures var r := MarkItemAsShipped(s, orderId, itemId, tracking, now);
      r.error.None?
      && r.state.orders[orderId].items[FindItem(s.orders[orderId].items, itemId).value].fulfillmentStatus
         == FulfillmentStatus.Shipped
  {
  }

  /** A processing order with one physical line is completed by shipping
      and then delivering that line. */
  lemma ShipThenDeliverCompletes(s: State, orderId: OrderId, item: OrderItem, tracking: Option<string>, t1: Time, t2: Time)
    requires orderId in s.orders && s.orders[orderId].IsProcessing()
    requires s.orders[orderId].items == [item] && item.IsPhysicalProduct()
    ensures var shipped := MarkItemAsShipped(s, orderId, item.id, tracking, t1);
      var delivered := MarkItemAsDelivered(shipped.state, orderId, item.id, t2);
      shipped.error.None? && delivered.error.None?
      && delivered.state.orders[orderId].IsCompleted()
      && delivered.state.orders[orderId].completedAt == Some(t2)
  {
    var shipped := MarkItemAsShipped(s, orderId, item.id, tracking, t1);
    assert FindItem(s.orders[orderId].items, item.id) == Some(0);
    assert shipped.state.orders[orderId].items == [item.(fulfillmentStatus := FulfillmentStatus.Shipped, trackingNumber := tracking)];
    assert FindItem(shipped.state.orders[orderId].items, item.id) == Some(0);
    var delivered := MarkItemAsDelivered(shipped.state, orderId, item.id, t2);
    var saved := shipped.state.(orders := SaveItem(shipped.state.orders, orderId, 0,
      shipped.state.orders[orderId].items[0].(fulfillmentStatus := FulfillmentStatus.Delivered, deliveredAt := Some(t2))));
    assert AllLinesDone(saved.orders[orderId]);
  }

  /** The success callback for the last outstanding line of a PROCESSING
      order completes the order and sends the completion notice before the
      virtual-delivery notice. */
  lemma LastVirtualLineCompletes(s: State, orderId: OrderId, item: OrderItem, response: VirtualFulfillmentResponse, now: Time)
    requires orderId in s.orders && s.orders[orderId].IsProcessing()
    requires s.orders[orderId].items == [item]
    ensures var r := HandleVirtualFulfillmentSuccess(s, orderId, item.id, response, now);
      && r.error.None?
      && r.state.orders[orderId].IsCompleted()
      && r.state.orders[orderId].completedAt == Some(now)
      && |r.state.mail.sent| == |s.mail.sent| + 2
      && r.state.mail.sent[|s.mail.sent|].emailType == OrderCompletion
  {
    assert FindItem(s.orders[orderId].items, item.id) == Some(0);
    var r := HandleVirtualFulfillmentSuccess(s, orderId, item.id, response, now);
    var o := s.orders[orderId];
    var saved := o.(items := o.items[0 := r.state.orders[orderId].items[0]]);
    assert AllLinesDone(saved);
  }

  /** A success callback carrying a FAILED response still fulfils the line,
      with no reference. */
  lemma FailedResponseStillFulfills(s: State, orderId: OrderId, itemId: ItemId, message: string, now: Time)
    requires orderId in s.orders && FindItem(s.orders[orderId].items, itemId).Some?
    ensures var r := HandleVirtualFulfillmentSuccess(s, orderId, itemId, VirtualFulfillmentResponse(None, "FAILED", message), now);
      var k := FindItem(s.orders[orderId].items, itemId).value;
      r.state.orders[orderId].items[k].fulfillmentStatus == FulfillmentStatus.Fulfilled
      && r.state.orders[orderId].items[k].fulfillmentReference.None?
  {
  }

  /** `getItemsPendingManualFulfillment`: the PENDING physical lines. */
  function PendingPhysicalItems(items: seq<OrderItem>): (r: seq<OrderItem>)
    ensures forall i :: 0 <= i < |r| ==> r[i] in items && r[i].IsPhysicalProduct() && r[i].fulfillmentStatus == FulfillmentStatus.Pending
    ensures forall i :: 0 <= i < |items| && items[i].IsPhysicalProduct() && items[i].fulfillmentStatus == FulfillmentStatus.Pending ==> items[i] in r
  {
    Filter(items, (it: OrderItem) => it.IsPhysicalProduct() && it.fulfillmentStatus == FulfillmentStatus.Pending)
  }

  /** `getFailedFulfillmentItems`: the FAILED lines. */
  function FailedItems(items: seq<OrderItem>): (r: seq<OrderItem>)
    ensures forall i :: 0 <= i < |r| ==> r[i] in items && r[i].fulfillmentStatus == FulfillmentStatus.Failed
    ensures forall i :: 0 <= i < |items| && items[i].fulfillmentStatus == FulfillmentStatus.Failed ==> items[i] in r
  {
    Filter(items, (it: OrderItem) => it.fulfillmentStatus == FulfillmentStatus.Failed)
  }
}
