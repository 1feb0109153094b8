/** The redemption orchestrator: creating an order (validation, then the
    order, its lines and their reservations), processing it (the points
    debit, then fulfilment or failure), and cancelling it (the refund, the
    release of reservations, the status change). Ledger replies and
    provider faults are parameters; effects made before a failure persist. */
module Redemption {
  import opened Wrappers
  import opened Text
  import opened Domain
  import opened Seqs
  import opened InventoryService
  import opened TransactionResponses
  import opened TransactionRepository
  import opened TransactionService
  import opened OrderEntities
  import opened Notifications
  import opened FulfillmentMock
  import opened Portal
  import opened Workflow

  /** One requested line. */
  datatype LineRequest = LineRequest(productId: ProductId, quantity: int)

  datatype CreateOrderRequest = CreateOrderRequest(
    companyId: CompanyId,
    accountManagerId: ManagerId,
    items: seq<LineRequest>,
    shippingAddress: Option<string>,
    specialInstructions: Option<string>)

  /** A validated line: the product found and its price fixed. */
  datatype LineData = LineData(product: Product, quantity: int, pointsPerItem: int)

  datatype OrderData = OrderData(
    company: Company,
    manager: AccountManager,
    lines: seq<LineData>,
    totalPoints: int)

  // ---------------------------------------------------------------------
  // Validation

  /** A line passes when its product exists and is active and, for a
      physical product, the stock can reserve the quantity right now. */
  predicate LineOk(c: Catalog, stock: Stock, req: LineRequest) {
    && req.productId in c.products
    && c.products[req.productId].isActive
    && (c.products[req.productId].productType == Physical ==> CheckAvailability(stock, req.productId, req.quantity))
  }

  /** The error a failing line raises, by the first check it fails. */
  function LineError(c: Catalog, stock: Stock, req: LineRequest): (r: Error)
    requires !LineOk(c, stock, req)
    ensures req.productId !in c.products ==> r == "Product not found: " + NatToString(req.productId)
    ensures req.productId in c.products ==>
      IsPrefix("Product is not active: ", r) || IsPrefix("Insufficient inventory for product: ", r)
  {
    if req.productId !in c.products then "Product not found: " + NatToString(req.productId)
    else if !c.products[req.productId].isActive then "Product is not active: " + c.products[req.productId].sku
    else "Insufficient inventory for product: " + c.products[req.productId].sku
  }

  function LineFor(c: Catalog, req: LineRequest): LineData
    requires req.productId in c.products
  {
    LineData(c.products[req.productId], req.quantity, c.products[req.productId].pointsCost)
  }

  /** The position of the first failing line, or the number of lines. */
  function FirstBadLine(c: Catalog, stock: Stock, reqs: seq<LineRequest>): (k: nat)
    ensures k <= |reqs|
    ensures forall i :: 0 <= i < k ==> LineOk(c, stock, reqs[i])
    ensures k < |reqs| ==> !LineOk(c, stock, reqs[k])
  {
    if reqs == [] then 0
    else if !LineOk(c, stock, reqs[0]) then 0
    else 1 + FirstBadLine(c, stock, reqs[1..])
  }

  /** The loop over the request lines: every line is checked against the
      stock as it was before the order, each on its own. */
  function ValidateLines(c: Catalog, stock: Stock, reqs: seq<LineRequest>): (r: Result<seq<LineData>, Error>)
    ensures r.Success? <==> forall i :: 0 <= i < |reqs| ==> LineOk(c, stock, reqs[i])
    ensures r.Success? ==>
      |r.value| == |reqs| && forall i :: 0 <= i < |reqs| ==> r.value[i] == LineFor(c, reqs[i])
    ensures r.Failure? ==>
      FirstBadLine(c, stock, reqs) < |reqs| && r.error == LineError(c, stock, reqs[FirstBadLine(c, stock, reqs)])
  {
    if reqs == [] then Success([])
    else if !LineOk(c, stock, reqs[0]) then Failure(LineError(c, stock, reqs[0]))
    else match ValidateLines(c, stock, reqs[1..])
      case Failure(e) => Failure(e)
      case Success(rest) =>
        assert forall i :: 1 <= i < |reqs| ==> reqs[i] == reqs[1..][i - 1];
        Success([LineFor(c, reqs[0])] + rest)
  }

  /** The points a line costs. */
  function LinePoints(l: LineData): int {
    l.pointsPerItem * l.quantity
  }

  /** The company and account-manager checks all pass. */
  predicate HeaderOk(c: Catalog, req: CreateOrderRequest) {
    && req.companyId in c.companies && c.companies[req.companyId].isActive
    && c.companies[req.companyId].loyaltyAccountId.Some?
    && req.accountManagerId in c.managers && c.managers[req.accountManagerId].isActive
    && c.managers[req.accountManagerId].companyId == c.companies[req.companyId].id
  }

  /** `validateAndPrepareOrder`: the company, then the account manager,
      then the lines, each failure raising its own message; on success the
      total is the sum of the line costs at the products' current prices. */
  function ValidateAndPrepareOrder(c: Catalog, stock: Stock, req: CreateOrderRequest): (r: Result<OrderData, Error>)
    ensures req.companyId !in c.companies ==> r == Failure("Company not found")
    ensures req.companyId in c.companies && !c.companies[req.companyId].isActive ==> r == Failure("Company is not active")
    ensures (req.companyId in c.companies && c.companies[req.companyId].isActive
      && c.companies[req.companyId].loyaltyAccountId.None?) ==> r == Failure("Company has no loyalty account configured")
    ensures (req.companyId in c.companies && c.companies[req.companyId].isActive
      && c.companies[req.companyId].loyaltyAccountId.Some? && req.accountManagerId !in c.managers)
      ==> r == Failure("Account manager not found")
    ensures (req.companyId in c.companies && c.companies[req.companyId].isActive
      && c.companies[req.companyId].loyaltyAccountId.Some? && req.accountManagerId in c.managers
      && !c.managers[req.accountManagerId].isActive) ==> r == Failure("Account manager is not active")
    ensures r.Success? <==> HeaderOk(c, req) && forall i :: 0 <= i < |req.items| ==> LineOk(c, stock, req.items[i])
    ensures HeaderOk(c, req) && r.Failure? ==> r == Failure(ValidateLines(c, stock, req.items).error)
    ensures r.Success? ==>
      && r.value.company == c.companies[req.companyId]
      && r.value.manager == c.managers[req.accountManagerId]
      && r.value.lines == ValidateLines(c, stock, req.items).value
      && r.value.totalPoints == Sum(r.value.lines, LinePoints)
  {
    if req.companyId !in c.companies then Failure("Company not found")
    else
      var company := c.companies[req.companyId];
      if !company.isActive then Failure("Company is not active")
      else if company.loyaltyAccountId.None? then Failure("Company has no loyalty account configured")
      else if req.accountManagerId !in c.managers then Failure("Account manager not found")
      else
        var manager := c.managers[req.accountManagerId];
        if !manager.isActive then Failure("Account manager is not active")
        else if manager.companyId != company.id then Failure("Account manager does not belong to this company")
        else match ValidateLines(c, stock, req.items)
          case Failure(e) => Failure(e)
          case Success(lines) => Success(OrderData(company, manager, lines, Sum(lines, LinePoints)))
  }

  /** A manager of another company is refused even when everything else
      is in order. */
  lemma ForeignManagerRefused(c: Catalog, stock: Stock, req: CreateOrderRequest)
    requires req.companyId in c.companies && c.companies[req.companyId].isActive
    requires c.companies[req.companyId].loyaltyAccountId.Some?
    requires req.accountManagerId in c.managers && c.managers[req.accountManagerId].isActive
    requires c.managers[req.accountManagerId].companyId != c.companies[req.companyId].id
    ensures ValidateAndPrepareOrder(c, stock, req) == Failure("Account manager does not belong to this company")
  {
  }

  // ---------------------------------------------------------------------
  // Creation

  function LineItem(id: ItemId, line: LineData): (r: OrderItem)
    ensures r.product == Some(line.product) && r.quantity == line.quantity && r.pointsPerItem == line.pointsPerItem
    ensures r.fulfillmentStatus == FulfillmentStatus.Pending && r.id == id
  {
    NewItem(id, line.product, line.quantity, line.pointsPerItem)
  }

  datatype Created = Created(stock: Stock, items: seq<OrderItem>, error: Option<Error>) {
    /** The saved items whose reservation went through: all of them, or all
        but the last when its reservation was refused. */
    function Held(): seq<OrderItem> {
      if error.None? || items == [] then items else items[..|items| - 1]
    }
  }

  /** The loop of `processOrderCreation`: each line is saved as an item and
      then, when physical, reserved. A refused reservation ends the loop
      with that line already saved; the reservations made before it stay. */
  function CreateLines(stock: Stock, lines: seq<LineData>, firstId: nat): (r: Created)
    ensures |r.items| <= |lines|
    ensures r.error.None? ==> |r.items| == |lines|
    ensures r.error.Some? ==> |r.items| > 0
    ensures r.stock.Keys == stock.Keys
    decreases |lines|
  {
    if lines == [] then Created(stock, [], None)
    else
      var item := LineItem(firstId, lines[0]);
      if item.IsPhysicalProduct() then
        match ReserveInventory(stock, lines[0].product.id, lines[0].quantity)
        case Failure(e) => Created(stock, [item], Some(e))
        case Success(reserved) =>
          var rest := CreateLines(reserved, lines[1..], firstId + 1);
          Created(rest.stock, [item] + rest.items, rest.error)
      else
        var rest := CreateLines(stock, lines[1..], firstId + 1);
        Created(rest.stock, [item] + rest.items, rest.error)
  }

  /** The loop saves the lines in order, one item per line with
      consecutive ids. */
  lemma {:induction false} CreateLinesSavesInOrder(stock: Stock, lines: seq<LineData>, firstId: nat)
    ensures var r := CreateLines(stock, lines, firstId);
      forall i :: 0 <= i < |r.items| ==> r.items[i] == LineItem(firstId + i, lines[i])
    decreases |lines|
  {
    if lines != [] {
      var item := LineItem(firstId, lines[0]);
      if item.IsPhysicalProduct() {
        match ReserveInventory(stock, lines[0].product.id, lines[0].quantity)
        case Failure(_) =>
        case Success(reserved) =>
          CreateLinesSavesInOrder(reserved, lines[1..], firstId + 1);
          SavedInFront(item, CreateLines(reserved, lines[1..], firstId + 1).items, lines, firstId);
      } else {
        CreateLinesSavesInOrder(stock, lines[1..], firstId + 1);
        SavedInFront(item, CreateLines(stock, lines[1..], firstId + 1).items, lines, firstId);
      }
    }
  }

  lemma SavedInFront(item: OrderItem, rest: seq<OrderItem>, lines: seq<LineData>, firstId: nat)
    requires lines != [] && item == LineItem(firstId, lines[0]) && |rest| < |lines|
    requires forall i :: 0 <= i < |rest| ==> rest[i] == LineItem(firstId + 1 + i, lines[1..][i])
    ensures forall i :: 0 <= i < |rest| + 1 ==> ([item] + rest)[i] == LineItem(firstId + i, lines[i])
  {
    var all := [item] + rest;
    assert forall i :: 1 <= i < |all| ==> all[i] == rest[i - 1] && lines[i] == lines[1..][i - 1];
  }

  /** When the loop stops early, the last saved line is the physical one
      whose reservation was refused. */
  lemma {:induction false} CreateLinesStopsAtPhysical(stock: Stock, lines: seq<LineData>, firstId: nat)
    ensures var r := CreateLines(stock, lines, firstId);
      r.error.Some? ==> r.items[|r.items| - 1].IsPhysicalProduct()
    decreases |lines|
  {
    if lines != [] {
      var item := LineItem(firstId, lines[0]);
      if item.IsPhysicalProduct() {
        match ReserveInventory(stock, lines[0].product.id, lines[0].quantity)
        case Failure(_) =>
        case Success(reserved) =>
          CreateLinesStopsAtPhysical(reserved, lines[1..], firstId + 1);
      } else {
        CreateLinesStopsAtPhysical(stock, lines[1..], firstId + 1);
      }
    }
  }

  /** The stock after creation holds, on top of what it held before,
      exactly the quantities of the physical items whose reservation went
      through. */
  lemma {:induction false} CreateLinesReserves(stock: Stock, lines: seq<LineData>, firstId: nat)
    ensures Reserves(stock, CreateLines(stock, lines, firstId))
    decreases |lines|
  {
    if lines != [] {
      var item := LineItem(firstId, lines[0]);
      if item.IsPhysicalProduct() {
        match ReserveInventory(stock, lines[0].product.id, lines[0].quantity)
        case Failure(e) =>
          RefusedLineReservesNothing(stock, lines, firstId);
        case Success(reserved) =>
          CreateLinesReserves(reserved, lines[1..], firstId + 1);
          ReservedLineReserves(stock, reserved, lines, firstId);
      } else {
        CreateLinesReserves(stock, lines[1..], firstId + 1);
        ReservedLineReserves(stock, stock, lines, firstId);
      }
    }
  }

  /** A refused first reservation ends the loop with nothing held. */
  lemma RefusedLineReservesNothing(stock: Stock, lines: seq<LineData>, firstId: nat)
    requires lines != [] && LineItem(firstId, lines[0]).IsPhysicalProduct()
    requires ReserveInventory(stock, lines[0].product.id, lines[0].quantity).Failure?
    ensures Reserves(stock, CreateLines(stock, lines, firstId))
  {
    assert CreateLines(stock, lines, firstId).Held() == [];
  }

  /** A first line that is virtual, or whose reservation went through,
      adds its own quantity to what the rest of the loop holds. */
  lemma ReservedLineReserves(stock: Stock, after: Stock, lines: seq<LineData>, firstId: nat)
    requires lines != []
    requires LineItem(firstId, lines[0]).IsPhysicalProduct() ==>
      ReserveInventory(stock, lines[0].product.id, lines[0].quantity) == Success(after)
    requires !LineItem(firstId, lines[0]).IsPhysicalProduct() ==> after == stock
    requires Reserves(after, CreateLines(after, lines[1..], firstId + 1))
    ensures Reserves(stock, CreateLines(stock, lines, firstId))
  {
    var item := LineItem(firstId, lines[0]);
    var rest := CreateLines(after, lines[1..], firstId + 1);
    assert CreateLines(stock, lines, firstId) == Created(rest.stock, [item] + rest.items, rest.error);
    ReservesCons(stock, after, item, rest);
  }

  /** `r` holds its kept items' physical quantities on top of `stock`. */
  ghost predicate Reserves(stock: Stock, r: Created) {
    && r.stock.Keys == stock.Keys
    && forall p :: p in stock ==>
         r.stock[p] == stock[p].(reserved := stock[p].reserved + PhysicalQuantity(r.Held(), p),
                                 available := stock[p].available - PhysicalQuantity(r.Held(), p))
  }

  /** One kept item in front of the rest of the creation loop. */
  lemma ReservesCons(stock: Stock, after: Stock, item: OrderItem, rest: Created)
    requires after.Keys == stock.Keys
    requires forall p :: p in stock ==>
      after[p] == stock[p].(reserved := stock[p].reserved + PhysicalQuantity([item], p),
                            available := stock[p].available - PhysicalQuantity([item], p))
    requires Reserves(after, rest)
    requires rest.error.Some? ==> rest.items != []
    ensures Reserves(stock, Created(rest.stock, [item] + rest.items, rest.error))
  {
    var all := Created(rest.stock, [item] + rest.items, rest.error);
    HeldCons(item, rest);
    forall p | p in stock
      ensures all.stock[p] == stock[p].(reserved := stock[p].reserved + PhysicalQuantity(all.Held(), p),
                                        available := stock[p].available - PhysicalQuantity(all.Held(), p))
    {
      PhysicalQuantityAppend([item], rest.Held(), p);
    }
  }

  /** Item `i` of `items` is the saved form of request line `i`, with
      consecutive ids from `firstId`. */
  ghost predicate ItemsFollowRequest(items: seq<OrderItem>, c: Catalog, reqs: seq<LineRequest>, firstId: nat) {
    && |items| <= |reqs|
    && forall i :: 0 <= i < |items| ==>
         reqs[i].productId in c.products && items[i] == LineItem(firstId + i, LineFor(c, reqs[i]))
  }

  lemma CreatedItemsFollowRequest(c: Catalog, stock: Stock, req: CreateOrderRequest, data: OrderData, firstId: nat)
    requires ValidateAndPrepareOrder(c, stock, req) == Success(data)
    ensures ItemsFollowRequest(CreateLines(stock, data.lines, firstId).items, c, req.items, firstId)
  {
    CreateLinesSavesInOrder(stock, data.lines, firstId);
    assert forall i :: 0 <= i < |data.lines| ==> data.lines[i] == LineFor(c, req.items[i]);
  }

  /** `createOrder`. A refused validation changes nothing. Otherwise the
      PENDING order is stored under the next id with the validated total,
      one item per request line is saved in order until a reservation is
      refused, and the ids used are skipped. */
  function CreateOrder(s: State, req: CreateOrderRequest, millis: nat): (r: Outcome)
    requires |req.items| > 0 && forall i :: 0 <= i < |req.items| ==> req.items[i].quantity >= 1
    ensures ValidateAndPrepareOrder(s.catalog, s.stock, req).Failure? ==>
      r == Outcome(s, Some(ValidateAndPrepareOrder(s.catalog, s.stock, req).error))
    ensures ValidateAndPrepareOrder(s.catalog, s.stock, req).Success? ==>
      Stored(s, req, ValidateAndPrepareOrder(s.catalog, s.stock, req).value, millis, r)
  {
    match ValidateAndPrepareOrder(s.catalog, s.stock, req)
    case Failure(e) => Outcome(s, Some(e))
    case Success(data) => StoreOrder(s, req, data, millis)
  }

  /** What a creation that passed validation leaves: the PENDING order under
      the next id with the validated company, manager and total, its items
      saved in request order, nothing else among the orders changed, and
      the ids of all request lines used up. */
  ghost predicate Stored(s: State, req: CreateOrderRequest, data: OrderData, millis: nat, r: Outcome) {
    && s.nextId in r.state.orders
    && r.state.orders == s.orders[s.nextId := r.state.orders[s.nextId]]
    && (var o := r.state.orders[s.nextId];
        && o.IsPending() && o.id == s.nextId && o.orderNumber == OrderNumberAt(millis)
        && o.company == data.company && o.accountManager == data.manager
        && o.totalPoints == data.totalPoints
        && (r.error.None? ==> |o.items| == |req.items|)
        && (r.error.Some? ==> |o.items| > 0 && o.items[|o.items| - 1].IsPhysicalProduct())
        && ItemsFollowRequest(o.items, s.catalog, req.items, s.nextId + 1))
    && r.state.nextId == s.nextId + 1 + |req.items|
    && r.state.journal == s.journal && r.state.mail == s.mail && r.state.catalog == s.catalog
  }

  /** The part of `createOrder` after validation: the order is saved, then
      its lines. */
  function StoreOrder(s: State, req: CreateOrderRequest, data: OrderData, millis: nat): (r: Outcome)
    requires ValidateAndPrepareOrder(s.catalog, s.stock, req) == Success(data)
    ensures Stored(s, req, data, millis, r)
  {
    var order := NewOrder(s.nextId, data.company, data.manager, data.totalPoints,
      req.shippingAddress, req.specialInstructions, millis);
    var created := CreateLines(s.stock, data.lines, s.nextId + 1);
    CreatedItemsFollowRequest(s.catalog, s.stock, req, data, s.nextId + 1);
    CreateLinesStopsAtPhysical(s.stock, data.lines, s.nextId + 1);
    Outcome(s.(stock := created.stock,
               orders := s.orders[s.nextId := order.(items := created.items)],
               nextId := s.nextId + 1 + |req.items|),
            created.error)
  }

  /** On a complete creation the order's total is the sum of its items'
      totals. */
  lemma CreatedOrderTotal(s: State, req: CreateOrderRequest, millis: nat)
    requires |req.items| > 0 && forall i :: 0 <= i < |req.items| ==> req.items[i].quantity >= 1
    requires CreateOrder(s, req, millis).error.None?
    ensures var r := CreateOrder(s, req, millis);
      s.nextId in r.state.orders
      && r.state.orders[s.nextId].totalPoints == ItemsTotal(r.state.orders[s.nextId].items)
  {
    var data := ValidateAndPrepareOrder(s.catalog, s.stock, req).value;
    var created := CreateLines(s.stock, data.lines, s.nextId + 1);
    LineTotalsMatch(data.lines, created.items, s.nextId + 1);
  }

  /** A creation that passes validation stores the stock and the items the
      creation loop left, and the error is raised exactly by the loop. */
  lemma CreateOrderStoresLoop(s: State, req: CreateOrderRequest, millis: nat)
    requires |req.items| > 0 && forall i :: 0 <= i < |req.items| ==> req.items[i].quantity >= 1
    requires ValidateAndPrepareOrder(s.catalog, s.stock, req).Success?
    ensures var r := CreateOrder(s, req, millis);
      var created := CreateLines(s.stock, ValidateAndPrepareOrder(s.catalog, s.stock, req).value.lines, s.nextId + 1);
      && r.state.stock == created.stock
      && r.state.orders[s.nextId].items == created.items
      && r.error == created.error
  {
  }

  /** After a creation, complete or not, the stock holds the quantities of
      the physical items whose reservation went through on top of what it
      held before. */
  lemma CreatedOrderReserves(s: State, req: CreateOrderRequest, millis: nat)
    requires |req.items| > 0 && forall i :: 0 <= i < |req.items| ==> req.items[i].quantity >= 1
    requires ValidateAndPrepareOrder(s.catalog, s.stock, req).Success?
    ensures var r := CreateOrder(s, req, millis);
      var created := CreateLines(s.stock, ValidateAndPrepareOrder(s.catalog, s.stock, req).value.lines, s.nextId + 1);
      && r.state.stock == created.stock
      && r.state.orders[s.nextId].items == created.items
      && (r.error.None? ==> created.Held() == created.items)
      && Reserves(s.stock, created)
  {
    var data := ValidateAndPrepareOrder(s.catalog, s.stock, req).value;
    CreateOrderStoresLoop(s, req, millis);
    CreateLinesReserves(s.stock, data.lines, s.nextId + 1);
  }

  lemma {:induction false} LineTotalsMatch(lines: seq<LineData>, items: seq<OrderItem>, firstId: nat)
    requires |items| == |lines| && forall i :: 0 <= i < |items| ==> items[i] == LineItem(firstId + i, lines[i])
    ensures Sum(lines, LinePoints) == ItemsTotal(items)
    decreases |lines|
  {
    if lines != [] {
      assert items[0].TotalPoints() == LinePoints(lines[0]);
      LineTotalsMatch(lines[1..], items[1..], firstId + 1);
    }
  }

  /** The creation loop over two lines of one physical product whose sum
      the stock does not cover: the first reservation goes through, the
      second is refused, and both lines are saved. */
  lemma SplitDemandLoopFails(stock: Stock, lines: seq<LineData>, firstId: nat, p: ProductId)
    requires |lines| == 2 && lines[0].product == lines[1].product
    requires lines[0].product.id == p && lines[0].product.productType == Physical
    requires p in stock && 1 <= lines[0].quantity <= stock[p].available
    requires 1 <= lines[1].quantity && stock[p].available < lines[0].quantity + lines[1].quantity
    ensures var created := CreateLines(stock, lines, firstId);
      && created.error.Some? && |created.items| == 2
      && created.stock == ReserveInventory(stock, p, lines[0].quantity).value
  {
    var reserved := ReserveInventory(stock, p, lines[0].quantity).value;
    assert ReserveInventory(reserved, p, lines[1].quantity).Failure?;
    assert lines[1..] == [lines[1]];
    var tail := CreateLines(reserved, lines[1..], firstId + 1);
    assert tail.error.Some? && tail.stock == reserved && |tail.items| == 1;
  }

  /** Two lines of one physical product that each fit the stock but
      together do not both pass validation, and creation then stops at the
      second reservation, leaving a PENDING order with both lines saved and
      only the first reserved. */
  lemma SplitDemandPassesValidationThenFails(s: State, req: CreateOrderRequest, millis: nat, p: ProductId, q1: int, q2: int)
    requires HeaderOk(s.catalog, req) && req.items == [LineRequest(p, q1), LineRequest(p, q2)]
    requires p in s.catalog.products && s.catalog.products[p].id == p
    requires s.catalog.products[p].isActive && s.catalog.products[p].productType == Physical
    requires p in s.stock && 1 <= q1 && 1 <= q2
    requires q1 <= s.stock[p].available && q2 <= s.stock[p].available < q1 + q2
    ensures ValidateAndPrepareOrder(s.catalog, s.stock, req).Success?
    ensures var r := CreateOrder(s, req, millis);
      && r.error.Some?
      && r.state.orders[s.nextId].IsPending() && |r.state.orders[s.nextId].items| == 2
      && r.state.stock[p].reserved == s.stock[p].reserved + q1
  {
    assert LineOk(s.catalog, s.stock, req.items[0]) && LineOk(s.catalog, s.stock, req.items[1]);
    var lines := ValidateAndPrepareOrder(s.catalog, s.stock, req).value.lines;
    assert lines == [LineFor(s.catalog, req.items[0]), LineFor(s.catalog, req.items[1])];
    CreateOrderStoresLoop(s, req, millis);
    SplitDemandLoopFails(s.stock, lines, s.nextId + 1, p);
  }

  // ---------------------------------------------------------------------
  // Creation with the demand aggregated per product

  /** The quantity the lines ask of physical product `p` in total. */
  function Demand(lines: seq<LineData>, p: ProductId): int {
    if lines == [] then 0
    else
      var here := if lines[0].product.productType == Physical && lines[0].product.id == p then lines[0].quantity else 0;
      here + Demand(lines[1..], p)
  }

  /** Every physical line's product has a record that covers the whole
      demand on it. */
  predicate CoversDemand(stock: Stock, lines: seq<LineData>, all: seq<LineData>) {
    forall i :: 0 <= i < |lines| && lines[i].product.productType == Physical ==>
      && lines[i].product.id in stock
      && lines[i].quantity > 0
      && stock[lines[i].product.id].available >= Demand(all, lines[i].product.id)
  }

  /** The first line of `lines` whose product's total demand in `all` the
      stock does not cover. */
  function Uncovered(stock: Stock, lines: seq<LineData>, all: seq<LineData>): (r: Option<LineData>)
    ensures r.None? <==> CoversDemand(stock, lines, all)
    ensures r.Some? ==> r.value.product.productType == Physical
  {
    if lines == [] then None
    else
      var l := lines[0];
      if l.product.productType == Physical
        && !(l.product.id in stock && l.quantity > 0 && stock[l.product.id].available >= Demand(all, l.product.id))
      then Some(l)
      else
        var rest := Uncovered(stock, lines[1..], all);
        assert forall i :: 1 <= i < |lines| ==> lines[i] == lines[1..][i - 1];
        rest
  }

  /** Validation that checks each product's total demand rather than each
      line on its own. */
  function ValidateWithDemand(c: Catalog, stock: Stock, req: CreateOrderRequest): (r: Result<OrderData, Error>)
    ensures r.Success? ==> ValidateAndPrepareOrder(c, stock, req) == r
    ensures r.Success? ==> CoversDemand(stock, r.value.lines, r.value.lines)
    ensures ValidateAndPrepareOrder(c, stock, req).Failure? ==> r == ValidateAndPrepareOrder(c, stock, req)
  {
    match ValidateAndPrepareOrder(c, stock, req)
    case Failure(e) => Failure(e)
    case Success(data) =>
      match Uncovered(stock, data.lines, data.lines)
      case Some(l) => Failure("Insufficient inventory for product: " + l.product.sku)
      case None => Success(data)
  }

  lemma {:induction false} DemandNonNegative(lines: seq<LineData>, p: ProductId)
    requires forall i :: 0 <= i < |lines| && lines[i].product.productType == Physical ==> lines[i].quantity > 0
    ensures Demand(lines, p) >= 0
  {
    if lines != [] {
      assert forall i :: 1 <= i < |lines| ==> lines[i] == lines[1..][i - 1];
      DemandNonNegative(lines[1..], p);
    }
  }

  /** Stock that covers the remaining demand lets every reservation of the
      creation loop through. */
  lemma {:induction false} CoveredCreationCompletes(stock: Stock, lines: seq<LineData>, firstId: nat)
    requires forall i :: 0 <= i < |lines| && lines[i].product.productType == Physical ==>
      lines[i].product.id in stock && lines[i].quantity > 0
      && stock[lines[i].product.id].available >= Demand(lines, lines[i].product.id)
    ensures CreateLines(stock, lines, firstId).error.None?
    decreases |lines|
  {
    if lines != [] {
      var rest := lines[1..];
      assert forall i :: 1 <= i < |lines| ==> lines[i] == rest[i - 1];
      var l := lines[0];
      if l.product.productType == Physical {
        DemandNonNegative(rest, l.product.id);
        var reserved := ReserveInventory(stock, l.product.id, l.quantity).value;
        forall i | 0 <= i < |rest| && rest[i].product.productType == Physical
          ensures rest[i].product.id in reserved && rest[i].quantity > 0
          ensures reserved[rest[i].product.id].available >= Demand(rest, rest[i].product.id)
        {
          assert lines[i + 1] == rest[i];
          DemandNonNegative(rest, rest[i].product.id);
        }
        CoveredCreationCompletes(reserved, rest, firstId + 1);
      } else {
        forall i | 0 <= i < |rest| && rest[i].product.productType == Physical
          ensures rest[i].product.id in stock && rest[i].quantity > 0
          ensures stock[rest[i].product.id].available >= Demand(rest, rest[i].product.id)
        {
          assert lines[i + 1] == rest[i];
        }
        CoveredCreationCompletes(stock, rest, firstId + 1);
      }
    }
  }

  /** `createOrder` with the demand aggregated per product: an order is
      either refused with nothing changed or created with every line saved
      and reserved. */
  function CreateOrderWithDemand(s: State, req: CreateOrderRequest, millis: nat): (r: Outcome)
    requires |req.items| > 0 && forall i :: 0 <= i < |req.items| ==> req.items[i].quantity >= 1
    ensures r.error.Some? ==> r.state == s
    ensures r.error.None? ==> r == CreateOrder(s, req, millis)
  {
    match ValidateWithDemand(s.catalog, s.stock, req)
    case Failure(e) => Outcome(s, Some(e))
    case Success(data) =>
      CoveredCreationCompletes(s.stock, data.lines, s.nextId + 1);
      CreateOrderErrorIsLoopError(s, req, millis);
      CreateOrder(s, req, millis)
  }

  /** After a passed validation, creation fails exactly when its loop does. */
  lemma CreateOrderErrorIsLoopError(s: State, req: CreateOrderRequest, millis: nat)
    requires |req.items| > 0 && forall i :: 0 <= i < |req.items| ==> req.items[i].quantity >= 1
    requires ValidateAndPrepareOrder(s.catalog, s.stock, req).Success?
    ensures CreateOrder(s, req, millis).error
      == CreateLines(s.stock, ValidateAndPrepareOrder(s.catalog, s.stock, req).value.lines, s.nextId + 1).error
  {
    var data := ValidateAndPrepareOrder(s.catalog, s.stock, req).value;
    assert CreateOrder(s, req, millis) == StoreOrder(s, req, data, millis);
  }

  // ---------------------------------------------------------------------
  // Releasing an order's reservations

  datatype Released = Released(stock: Stock, error: Option<Error>)

  /** The release loop of `failOrderProcessing` and `completeCancellation`:
      each physical line's quantity is released in turn; the first refusal
      ends the loop, with the releases before it kept. */
  function ReleaseLines(stock: Stock, items: seq<OrderItem>): (r: Released)
    ensures r.stock.Keys == stock.Keys
    ensures (forall i :: 0 <= i < |items| ==> !items[i].IsPhysicalProduct()) ==> r == Released(stock, None)
    decreases |items|
  {
    if items == [] then Released(stock, None)
    else if !items[0].IsPhysicalProduct() then
      assert forall i :: 1 <= i < |items| ==> items[i] == items[1..][i - 1];
      ReleaseLines(stock, items[1..])
    else match ReleaseReservation(stock, items[0].product.value.id, items[0].quantity)
      case Failure(e) => Released(stock, Some(e))
      case Success(released) => ReleaseLines(released, items[1..])
  }

  /** `r` is `stock` with the quantities of `items` moved back from
      reserved to available, and nothing else changed. */
  ghost predicate ReleasedExactly(stock: Stock, items: seq<OrderItem>, r: Stock) {
    && r.Keys == stock.Keys
    && forall p :: p in stock ==>
         r[p] == stock[p].(reserved := stock[p].reserved - PhysicalQuantity(items, p),
                           available := stock[p].available + PhysicalQuantity(items, p))
  }

  /** A release loop that finishes moves exactly the physical quantities. */
  lemma {:induction false} ReleaseLinesReleases(stock: Stock, items: seq<OrderItem>)
    ensures ReleaseLines(stock, items).error.None? ==> ReleasedExactly(stock, items, ReleaseLines(stock, items).stock)
    decreases |items|
  {
    if items != [] && ReleaseLines(stock, items).error.None? {
      var rest := items[1..];
      assert items == [items[0]] + rest;
      if items[0].IsPhysicalProduct() {
        var released := ReleaseReservation(stock, items[0].product.value.id, items[0].quantity).value;
        ReleaseLinesReleases(released, rest);
        ReleaseOneExactly(stock, items[0]);
        ReleasedCompose(stock, released, ReleaseLines(released, rest).stock, items[0], rest);
      } else {
        ReleaseLinesReleases(stock, rest);
        VirtualLineHoldsNothing(items[0], rest);
      }
    }
  }

  /** Releasing one physical line moves exactly its quantity. */
  lemma ReleaseOneExactly(stock: Stock, item: OrderItem)
    requires item.IsPhysicalProduct() && ReleaseReservation(stock, item.product.value.id, item.quantity).Success?
    ensures ReleasedExactly(stock, [item], ReleaseReservation(stock, item.product.value.id, item.quantity).value)
  {
    var released := ReleaseReservation(stock, item.product.value.id, item.quantity).value;
    forall p | p in stock
      ensures released[p] == stock[p].(reserved := stock[p].reserved - PhysicalQuantity([item], p),
                                       available := stock[p].available + PhysicalQuantity([item], p))
    {
      assert [item][1..] == [];
    }
  }

  /** A virtual line in front adds no physical quantity. */
  lemma VirtualLineHoldsNothing(item: OrderItem, rest: seq<OrderItem>)
    requires !item.IsPhysicalProduct()
    ensures forall p :: PhysicalQuantity([item] + rest, p) == PhysicalQuantity(rest, p)
  {
    forall p
      ensures PhysicalQuantity([item] + rest, p) == PhysicalQuantity(rest, p)
    {
      assert ([item] + rest)[1..] == rest;
    }
  }

  lemma ReleasedCompose(stock: Stock, mid: Stock, last: Stock, item: OrderItem, rest: seq<OrderItem>)
    requires ReleasedExactly(stock, [item], mid) && ReleasedExactly(mid, rest, last)
    ensures ReleasedExactly(stock, [item] + rest, last)
  {
    forall p | p in stock
      ensures PhysicalQuantity([item] + rest, p) == PhysicalQuantity([item], p) + PhysicalQuantity(rest, p)
    {
      PhysicalQuantityAppend([item], rest, p);
    }
  }

  /** When the stock holds the lines' reservations, every release goes
      through. */
  lemma {:induction false} ReleaseLinesSucceedsWhenHeld(stock: Stock, items: seq<OrderItem>)
    requires HoldsReservations(stock, items)
    ensures ReleaseLines(stock, items).error.None?
    decreases |items|
  {
    if items != [] {
      var rest := items[1..];
      assert forall i :: 1 <= i < |items| ==> items[i] == rest[i - 1];
      if items[0].IsPhysicalProduct() {
        var p0 := items[0].product.value.id;
        assert items == [items[0]] + rest;
        forall p | p in stock
          ensures PhysicalQuantity(items, p) == PhysicalQuantity([items[0]], p) + PhysicalQuantity(rest, p)
          ensures PhysicalQuantity(rest, p) >= 0
        {
          PhysicalQuantityAppend([items[0]], rest, p);
          PhysicalQuantityNonNegative(rest, p);
        }
        assert [items[0]][1..] == [];
        var released := ReleaseReservation(stock, p0, items[0].quantity).value;
        ReleaseLinesSucceedsWhenHeld(released, rest);
      } else {
        forall p | p in stock
          ensures PhysicalQuantity(items, p) == PhysicalQuantity(rest, p)
        {
          PhysicalQuantityAppend([items[0]], rest, p);
          assert [items[0]][1..] == [];
          assert items == [items[0]] + rest;
        }
        ReleaseLinesSucceedsWhenHeld(stock, rest);
      }
    }
  }

  // ---------------------------------------------------------------------
  // Processing

  /** What a transaction takes from the order it belongs to. */
  function OriginOf(orderId: OrderId, o: RedemptionOrder): TxOrigin {
    TxOrigin(orderId, o.orderNumber, o.company.id, o.company.loyaltyAccountId)
  }

  /** The debit of an order's points. */
  function DebitCall(o: RedemptionOrder): (c: LedgerCall)
    ensures c.op == DebitPoints && c.points == o.totalPoints && c.reference == "ORDER-" + o.orderNumber
  {
    LedgerCall(DebitPoints, o.company.loyaltyAccountId, o.totalPoints, "ORDER-" + o.orderNumber)
  }

  /** The credit that refunds an order's points. */
  function RefundCall(o: RedemptionOrder): (c: LedgerCall)
    ensures c.op == CreditPoints && c.points == o.totalPoints && c.reference == "REFUND-" + o.orderNumber
  {
    LedgerCall(CreditPoints, o.company.loyaltyAccountId, o.totalPoints, "REFUND-" + o.orderNumber)
  }

  /** `failOrderProcessing`: a FAILED debit is recorded, the physical lines
      are released, and the order is set FAILED without consulting its
      transition guards. A refused release raises, with the failed debit
      and the releases before it kept and the order untouched. */
  function FailOrderProcessing(s: State, orderId: OrderId, message: Option<string>, now: Time): (r: Outcome)
    requires orderId in s.orders
    ensures var o := s.orders[orderId];
      && r.state.journal == RecordFailedTransaction(s.journal, OriginOf(orderId, o), Debit, o.totalPoints, message, now)
      && r.state.stock == ReleaseLines(s.stock, o.items).stock
      && r.error == ReleaseLines(s.stock, o.items).error
      && (r.error.None? ==> r.state.orders == s.orders[orderId := o.(status := OrderStatus.Failed)])
      && (r.error.Some? ==> r.state.orders == s.orders)
      && r.state.mail == s.mail && r.state.catalog == s.catalog && r.state.nextId == s.nextId
  {
    var o := s.orders[orderId];
    var journal := RecordFailedTransaction(s.journal, OriginOf(orderId, o), Debit, o.totalPoints, message, now);
    var released := ReleaseLines(s.stock, o.items);
    if released.error.Some? then Outcome(s.(journal := journal, stock := released.stock), released.error)
    else Outcome(s.(journal := journal, stock := released.stock, orders := s.orders[orderId := o.(status := OrderStatus.Failed)]), None)
  }

  /** The FAILED status `failOrderProcessing` sets is one no entity
      transition reaches. */
  lemma FailureBypassesGuards(s: State, orderId: OrderId, message: Option<string>, now: Time)
    requires orderId in s.orders
    requires FailOrderProcessing(s, orderId, message, now).error.None?
    ensures FailOrderProcessing(s, orderId, message, now).state.orders[orderId].status == OrderStatus.Failed
    ensures !OrderGuardAdmits(s.orders[orderId].status, OrderStatus.Failed)
  {
  }

  /** `completeOrderProcessing`: a COMPLETED debit carrying the ledger's id
      is recorded, the order becomes PROCESSING, and fulfilment starts. */
  function CompleteOrderProcessing(s: State, orderId: OrderId, response: TransactionResponse,
                                   fault: ItemId -> Option<string>, now: Time): (r: Initiated)
    requires orderId in s.orders && s.orders[orderId].IsPending()
    ensures var o := s.orders[orderId];
      && r.state.journal == RecordTransaction(s.journal, OriginOf(orderId, o), Debit, o.totalPoints,
                                              response.transactionId, TransactionStatus.Completed, now)
      && orderId in r.state.orders
      && r.state.orders[orderId] == o.(status := OrderStatus.Processing, items := r.state.orders[orderId].items)
      && |r.state.orders[orderId].items| == |o.items|
  {
    var o := s.orders[orderId];
    var journal := RecordTransaction(s.journal, OriginOf(orderId, o), Debit, o.totalPoints,
                                     response.transactionId, TransactionStatus.Completed, now);
    var processing := MarkOrderProcessing(o).value;
    InitiateOrderFulfillment(s.(journal := journal, orders := s.orders[orderId := processing]), orderId, fault, now)
  }

  datatype Processed = Processed(
    state: State, calls: seq<LedgerCall>, requests: seq<VirtualFulfillmentRequest>, error: Option<Error>)

  /** `processOrder`. An unknown or non-PENDING order is refused with no
      call. Otherwise the points are debited: a successful reply completes
      the processing; an unsuccessful reply fails it, and a failure that
      itself raises is handled by failing the order once more with that
      error; an error signal fails it once; a call that throws changes
      nothing. */
  function ProcessOrder(s: State, orderId: OrderId, reply: LedgerReply, fault: ItemId -> Option<string>, now: Time): (r: Processed)
    ensures orderId !in s.orders ==> r == Processed(s, [], [], Some("Order not found"))
    ensures orderId in s.orders && !s.orders[orderId].IsPending() ==>
      r == Processed(s, [], [], Some("Order is not in pending status"))
    ensures orderId in s.orders && s.orders[orderId].IsPending() ==>
      && r.calls == [DebitCall(s.orders[orderId])]
      && (reply.Threw? ==> r.state == s && r.error == Some(reply.message))
      && orderId in r.state.orders
      && (r.state.orders[orderId].IsProcessing() <==> reply.Replied? && IsSuccessful(reply.response))
      && (reply.Replied? && IsSuccessful(reply.response) ==>
            && r.error.None?
            && |r.state.journal| == |s.journal| + 1
            && r.state.journal[..|s.journal|] == s.journal
            && r.state.journal[|s.journal|].transactionType == Debit
            && r.state.journal[|s.journal|].status == TransactionStatus.Completed
            && r.state.journal[|s.journal|].externalTransactionId == reply.response.transactionId)
      && (!reply.Threw? && !(reply.Replied? && IsSuccessful(reply.response)) ==>
            && |s.journal| < |r.state.journal| <= |s.journal| + 2
            && r.state.journal[..|s.journal|] == s.journal
            && (forall i :: |s.journal| <= i < |r.state.journal| ==>
                  r.state.journal[i].transactionType == Debit && r.state.journal[i].IsFailed())
            && (r.error.None? ==> r.state.orders[orderId].status == OrderStatus.Failed)
            && (r.error.Some? ==> r.state.orders[orderId] == s.orders[orderId]))
    ensures orderId in s.orders && s.orders[orderId].IsPending() && reply.Errored? ==>
      var failed := FailOrderProcessing(s, orderId, Some(reply.message), now);
      r.state == failed.state && r.error == failed.error && r.requests == []
    ensures orderId in s.orders && s.orders[orderId].IsPending() && reply.Replied? && !IsSuccessful(reply.response) ==>
      var first := FailOrderProcessing(s, orderId, reply.response.errorMessage, now);
      && r.requests == []
      && (first.error.None? ==> r.state == first.state && r.error.None?)
      && (first.error.Some? ==>
            var second := FailOrderProcessing(first.state, orderId, first.error, now);
            r.state == second.state && r.error == second.error)
  {
    if orderId !in s.orders then Processed(s, [], [], Some("Order not found"))
    else
      var o := s.orders[orderId];
      if !o.IsPending() then Processed(s, [], [], Some("Order is not in pending status"))
      else
        var call := DebitCall(o);
        match reply
        case Threw(m) => Processed(s, [call], [], Some(m))
        case Errored(m) =>
          var failed := FailOrderProcessing(s, orderId, Some(m), now);
          Processed(failed.state, [call], [], failed.error)
        case Replied(response) =>
          if IsSuccessful(response) then
            var init := CompleteOrderProcessing(s, orderId, response, fault, now);
            Processed(init.state, [call], init.requests, None)
          else
            var first := FailOrderProcessing(s, orderId, response.errorMessage, now);
            if first.error.None? then Processed(first.state, [call], [], None)
            else
              var second := FailOrderProcessing(first.state, orderId, first.error, now);
              Processed(second.state, [call], [], second.error)
  }

  // ---------------------------------------------------------------------
  // Cancellation

  /** A nullable string as Java's string concatenation writes it. */
  function OrNull(m: Option<string>): string {
    match m
    case Some(v) => v
    case None => "null"
  }

  datatype Cancellation = Cancellation(state: State, calls: seq<LedgerCall>, error: Option<Error>)

  /** `completeCancellation`: a successful refund is recorded as a COMPLETED
      REFUND, every physical line is released, and the order is marked
      CANCELLED. A refused release raises with the refund and the releases
      before it kept and the order untouched. */
  function CompleteCancellation(s: State, orderId: OrderId, reason: string,
                                refund: Option<TransactionResponse>, now: Time): (r: Outcome)
    requires orderId in s.orders && !s.orders[orderId].IsCompleted()
    ensures var o := s.orders[orderId];
      && (refund.Some? && IsSuccessful(refund.value) ==>
            r.state.journal == RecordTransaction(s.journal, OriginOf(orderId, o), Refund, o.totalPoints,
                                                 refund.value.transactionId, TransactionStatus.Completed, now))
      && (!(refund.Some? && IsSuccessful(refund.value)) ==> r.state.journal == s.journal)
      && r.state.stock == ReleaseLines(s.stock, o.items).stock
      && r.error == ReleaseLines(s.stock, o.items).error
      && (r.error.None? ==>
            r.state.orders == s.orders[orderId := o.(status := OrderStatus.Cancelled, cancelledAt := Some(now),
                                                     cancellationReason := Some(reason))])
      && (r.error.Some? ==> r.state.orders == s.orders)
      && r.state.mail == s.mail && r.state.catalog == s.catalog && r.state.nextId == s.nextId
  {
    var o := s.orders[orderId];
    var journal :=
      if refund.Some? && IsSuccessful(refund.value) then
        RecordTransaction(s.journal, OriginOf(orderId, o), Refund, o.totalPoints,
                          refund.value.transactionId, TransactionStatus.Completed, now)
      else s.journal;
    var released := ReleaseLines(s.stock, o.items);
    if released.error.Some? then Outcome(s.(journal := journal, stock := released.stock), released.error)
    else
      var cancelled := MarkOrderCancelled(o, reason, now).value;
      Outcome(s.(journal := journal, stock := released.stock, orders := s.orders[orderId := cancelled]), None)
  }

  /** `cancelOrder`. Only a missing or COMPLETED order is refused outright.
      A PROCESSING order is refunded first, and a refund that fails, either
      by its reply or by raising, changes nothing; every other order,
      including a FAILED or already CANCELLED one, goes straight to the
      release and the status change, with no ledger call. */
  function CancelOrder(s: State, orderId: OrderId, reason: string, reply: LedgerReply, now: Time): (r: Cancellation)
    ensures orderId !in s.orders ==> r == Cancellation(s, [], Some("Order not found"))
    ensures orderId in s.orders && s.orders[orderId].IsCompleted() ==>
      r == Cancellation(s, [], Some("Cannot cancel a completed order"))
    ensures orderId in s.orders && s.orders[orderId].IsProcessing() ==>
      && r.calls == [RefundCall(s.orders[orderId])]
      && (reply.Replied? && !IsSuccessful(reply.response) ==>
            r == Cancellation(s, r.calls, Some("Failed to refund points: " + OrNull(reply.response.errorMessage))))
      && (!reply.Replied? ==> r == Cancellation(s, r.calls, Some(reply.message)))
      && (reply.Replied? && IsSuccessful(reply.response) ==>
            && |r.state.journal| == |s.journal| + 1
            && r.state.journal[|s.journal|].transactionType == Refund
            && r.state.journal[|s.journal|].status == TransactionStatus.Completed)
    ensures orderId in s.orders && !s.orders[orderId].IsCompleted() && !s.orders[orderId].IsProcessing() ==>
      && r.calls == []
      && r.state.journal == s.journal
    ensures (&& orderId in s.orders && !s.orders[orderId].IsCompleted()
             && (!s.orders[orderId].IsProcessing() || (reply.Replied? && IsSuccessful(reply.response)))) ==>
      && r.state.stock == ReleaseLines(s.stock, s.orders[orderId].items).stock
      && r.error == ReleaseLines(s.stock, s.orders[orderId].items).error
      && (r.error.None? ==> (&& orderId in r.state.orders
                             && r.state.orders[orderId].status == OrderStatus.Cancelled
                             && r.state.orders[orderId].cancellationReason == Some(reason)))
      && (r.error.Some? ==> r.state.orders == s.orders)
  {
    if orderId !in s.orders then Cancellation(s, [], Some("Order not found"))
    else
      var o := s.orders[orderId];
      if o.IsCompleted() then Cancellation(s, [], Some("Cannot cancel a completed order"))
      else if o.IsProcessing() then
        var call := RefundCall(o);
        match reply
        case Threw(m) => Cancellation(s, [call], Some(m))
        case Errored(m) => Cancellation(s, [call], Some(m))
        case Replied(response) =>
          if IsSuccessful(response) then
            var done := CompleteCancellation(s, orderId, reason, Some(response), now);
            Cancellation(done.state, [call], done.error)
          else Cancellation(s, [call], Some("Failed to refund points: " + OrNull(response.errorMessage)))
      else
        var done := CompleteCancellation(s, orderId, reason, None, now);
        Cancellation(done.state, [], done.error)
  }

  // ---------------------------------------------------------------------
  // Round trips

  /** The lines whose reservation went through name recorded products with
      positive quantities. */
  lemma {:induction false} CreateLinesHeldReservable(stock: Stock, lines: seq<LineData>, firstId: nat)
    ensures Reservable(stock, CreateLines(stock, lines, firstId).Held())
    decreases |lines|
  {
    if lines != [] {
      var item := LineItem(firstId, lines[0]);
      var c := CreateLines(stock, lines, firstId);
      var res := ReserveInventory(stock, lines[0].product.id, lines[0].quantity);
      if item.IsPhysicalProduct() && res.Failure? {
        assert c.Held() == [];
      } else {
        var after := if item.IsPhysicalProduct() then res.value else stock;
        var rest := CreateLines(after, lines[1..], firstId + 1);
        CreateLinesHeldReservable(after, lines[1..], firstId + 1);
        assert c == Created(rest.stock, [item] + rest.items, rest.error);
        HeldCons(item, rest);
        ReservableCons(stock, after, item, rest.Held());
      }
    }
  }

  /** Saving one more line in front keeps that line among the held ones. */
  lemma HeldCons(item: OrderItem, rest: Created)
    requires rest.error.Some? ==> |rest.items| > 0
    ensures Created(rest.stock, [item] + rest.items, rest.error).Held() == [item] + rest.Held()
  {
    var all := [item] + rest.items;
    if rest.error.Some? {
      assert all[..|all| - 1] == [item] + rest.items[..|rest.items| - 1];
    }
  }

  /** One line in front of lines that are reservable against a stock with
      the same records. */
  lemma ReservableCons(stock: Stock, after: Stock, item: OrderItem, rest: seq<OrderItem>)
    requires after.Keys == stock.Keys && Reservable(after, rest)
    requires item.IsPhysicalProduct() ==> item.product.value.id in stock && item.quantity > 0
    ensures Reservable(stock, [item] + rest)
  {
    var all := [item] + rest;
    assert forall i :: 1 <= i < |all| ==> all[i] == rest[i - 1];
  }

  /** Releasing what a creation loop reserved gives back the stock it
      started from, provided no reservation count was negative. */
  lemma ReleaseUndoesCreation(stock: Stock, c: Created)
    requires Reserves(stock, c) && Reservable(stock, c.Held())
    requires forall p :: p in stock ==> stock[p].reserved >= 0
    ensures ReleaseLines(c.stock, c.Held()) == Released(stock, None)
  {
    var held := c.Held();
    forall p | p in stock
      ensures c.stock[p].reserved >= PhysicalQuantity(held, p)
    {
      PhysicalQuantityNonNegative(held, p);
    }
    assert HoldsReservations(c.stock, held);
    ReleaseLinesSucceedsWhenHeld(c.stock, held);
    ReleaseLinesReleases(c.stock, held);
    var r := ReleaseLines(c.stock, held).stock;
    assert forall p :: p in stock ==> r[p] == stock[p];
  }

  /** A complete creation followed by a cancellation leaves the stock and
      the journal as they were, with no ledger call, and the order
      CANCELLED. */
  lemma CreateThenCancelRestoresStock(s: State, req: CreateOrderRequest, millis: nat, reason: string, reply: LedgerReply, now: Time)
    requires |req.items| > 0 && forall i :: 0 <= i < |req.items| ==> req.items[i].quantity >= 1
    requires forall p :: p in s.stock ==> s.stock[p].reserved >= 0
    requires CreateOrder(s, req, millis).error.None?
    ensures var r := CancelOrder(CreateOrder(s, req, millis).state, s.nextId, reason, reply, now);
      && r.error.None? && r.calls == []
      && r.state.stock == s.stock && r.state.journal == s.journal
      && r.state.orders[s.nextId].status == OrderStatus.Cancelled
  {
    var data := ValidateAndPrepareOrder(s.catalog, s.stock, req).value;
    var created := CreateLines(s.stock, data.lines, s.nextId + 1);
    CreatedOrderReserves(s, req, millis);
    CreateLinesHeldReservable(s.stock, data.lines, s.nextId + 1);
    ReleaseUndoesCreation(s.stock, created);
  }

  /** A complete creation followed by a refused debit leaves the stock as
      it was and the order FAILED, with one FAILED debit recorded. */
  lemma CreateThenRefusedDebitRestoresStock(s: State, req: CreateOrderRequest, millis: nat,
                                            reply: LedgerReply, fault: ItemId -> Option<string>, now: Time)
    requires |req.items| > 0 && forall i :: 0 <= i < |req.items| ==> req.items[i].quantity >= 1
    requires forall p :: p in s.stock ==> s.stock[p].reserved >= 0
    requires CreateOrder(s, req, millis).error.None?
    requires reply.Errored? || (reply.Replied? && !IsSuccessful(reply.response))
    ensures var r := ProcessOrder(CreateOrder(s, req, millis).state, s.nextId, reply, fault, now);
      && r.error.None? && r.calls == [DebitCall(CreateOrder(s, req, millis).state.orders[s.nextId])]
      && r.state.stock == s.stock
      && r.state.orders[s.nextId].status == OrderStatus.Failed
      && |r.state.journal| == |s.journal| + 1 && r.state.journal[|s.journal|].IsFailed()
  {
    var data := ValidateAndPrepareOrder(s.catalog, s.stock, req).value;
    var created := CreateLines(s.stock, data.lines, s.nextId + 1);
    CreatedOrderReserves(s, req, millis);
    CreateLinesHeldReservable(s.stock, data.lines, s.nextId + 1);
    ReleaseUndoesCreation(s.stock, created);
  }

  /** A successful debit of a PENDING order whose reservations the stock
      holds confirms every physical line: each is PROCESSING and the
      reservations are consumed. */
  lemma SuccessfulDebitConfirmsHeldLines(s: State, orderId: OrderId, response: TransactionResponse,
                                         fault: ItemId -> Option<string>, now: Time)
    requires orderId in s.orders && s.orders[orderId].IsPending() && IsSuccessful(response)
    requires HoldsReservations(s.stock, s.orders[orderId].items)
    ensures var items := s.orders[orderId].items;
      var r := ProcessOrder(s, orderId, Replied(response), fault, now);
      && r.error.None?
      && (forall i :: 0 <= i < |items| && items[i].IsPhysicalProduct() ==>
            r.state.orders[orderId].items[i] == items[i].(fulfillmentStatus := FulfillmentStatus.Processing))
      && (forall p :: p in s.stock ==>
            r.state.stock[p] == s.stock[p].(reserved := s.stock[p].reserved - PhysicalQuantity(items, p)))
  {
    var o := s.orders[orderId];
    var journal := RecordTransaction(s.journal, OriginOf(orderId, o), Debit, o.totalPoints,
                                     response.transactionId, TransactionStatus.Completed, now);
    var s1 := s.(journal := journal, orders := s.orders[orderId := MarkOrderProcessing(o).value]);
    assert s1.stock == s.stock && s1.orders[orderId].items == o.items;
    SuccessfulDebitInitiatesFulfillment(s, orderId, response, fault, now);
  }

  /** A complete creation followed by a successful debit confirms every
      physical line: each is PROCESSING (the stock side is
      `CreateThenDebitConsumesStock`). */
  lemma CreateThenDebitConfirmsLines(s: State, req: CreateOrderRequest, millis: nat,
                                     response: TransactionResponse, fault: ItemId -> Option<string>, now: Time)
    requires |req.items| > 0 && forall i :: 0 <= i < |req.items| ==> req.items[i].quantity >= 1
    requires forall p :: p in s.stock ==> s.stock[p].reserved >= 0
    requires CreateOrder(s, req, millis).error.None? && IsSuccessful(response)
    ensures var created := CreateOrder(s, req, millis).state;
      var items := created.orders[s.nextId].items;
      var r := ProcessOrder(created, s.nextId, Replied(response), fault, now);
      && r.error.None?
      && (forall i :: 0 <= i < |items| && items[i].IsPhysicalProduct() ==>
            r.state.orders[s.nextId].items[i].fulfillmentStatus == FulfillmentStatus.Processing)
  {
    var created := CreateOrder(s, req, millis).state;
    var lines := CreatedLinesHeld(s, req, millis);
    SuccessfulDebitConfirmsHeldLines(created, s.nextId, response, fault, now);
  }

  /** After a complete creation and a successful debit, the stock has the
      reservations it started with, and the order's physical quantities are
      gone from what is available. */
  lemma CreateThenDebitConsumesStock(s: State, req: CreateOrderRequest, millis: nat,
                                     response: TransactionResponse, fault: ItemId -> Option<string>, now: Time)
    requires |req.items| > 0 && forall i :: 0 <= i < |req.items| ==> req.items[i].quantity >= 1
    requires forall p :: p in s.stock ==> s.stock[p].reserved >= 0
    requires CreateOrder(s, req, millis).error.None? && IsSuccessful(response)
    ensures var created := CreateOrder(s, req, millis).state;
      var r := ProcessOrder(created, s.nextId, Replied(response), fault, now);
      forall p :: p in s.stock ==>
        r.state.stock[p] == s.stock[p].(available := s.stock[p].available - PhysicalQuantity(created.orders[s.nextId].items, p))
  {
    var lines := CreatedLinesHeld(s, req, millis);
    DebitConsumesReserved(s.stock, CreateOrder(s, req, millis).state, s.nextId, lines, response, fault, now);
  }

  /** A successful debit of a PENDING order whose lines were reserved on top
      of `start` brings the reservations back to those of `start`. */
  lemma DebitConsumesReserved(start: Stock, s: State, orderId: OrderId, lines: Created,
                              response: TransactionResponse, fault: ItemId -> Option<string>, now: Time)
    requires orderId in s.orders && s.orders[orderId].IsPending() && IsSuccessful(response)
    requires s.stock == lines.stock && s.orders[orderId].items == lines.items
    requires HoldsReservations(s.stock, lines.items)
    requires Reserves(start, lines) && lines.Held() == lines.items
    ensures var r := ProcessOrder(s, orderId, Replied(response), fault, now);
      forall p :: p in start ==>
        p in r.state.stock && r.state.stock[p] == start[p].(available := start[p].available - PhysicalQuantity(lines.items, p))
  {
    SuccessfulDebitConfirmsHeldLines(s, orderId, response, fault, now);
    ReserveThenConsume(start, s.stock, ProcessOrder(s, orderId, Replied(response), fault, now).state.stock, lines.items);
  }

  /** Reserving quantities and then consuming the same reservations leaves
      the reservations as they were and the quantities gone from what is
      available. */
  lemma ReserveThenConsume(start: Stock, reserved: Stock, consumed: Stock, items: seq<OrderItem>)
    requires reserved.Keys == start.Keys
    requires forall p :: p in start ==>
      reserved[p] == start[p].(reserved := start[p].reserved + PhysicalQuantity(items, p),
                               available := start[p].available - PhysicalQuantity(items, p))
    requires forall p :: p in reserved ==>
      p in consumed && consumed[p] == reserved[p].(reserved := reserved[p].reserved - PhysicalQuantity(items, p))
    ensures forall p :: p in start ==>
      p in consumed && consumed[p] == start[p].(available := start[p].available - PhysicalQuantity(items, p))
  {
  }

  /** What a complete creation leaves behind: a PENDING order whose lines
      the stock holds, on top of the stock it started from. */
  lemma CreatedLinesHeld(s: State, req: CreateOrderRequest, millis: nat) returns (lines: Created)
    requires |req.items| > 0 && forall i :: 0 <= i < |req.items| ==> req.items[i].quantity >= 1
    requires forall p :: p in s.stock ==> s.stock[p].reserved >= 0
    requires CreateOrder(s, req, millis).error.None?
    ensures var created := CreateOrder(s, req, millis).state;
      && s.nextId in created.orders && created.orders[s.nextId].IsPending()
      && created.stock == lines.stock && created.orders[s.nextId].items == lines.items
      && HoldsReservations(created.stock, created.orders[s.nextId].items)
      && Reserves(s.stock, lines) && lines.Held() == lines.items
  {
    var data := ValidateAndPrepareOrder(s.catalog, s.stock, req).value;
    lines := CreateLines(s.stock, data.lines, s.nextId + 1);
    CreatedOrderReserves(s, req, millis);
    CreateLinesHeldReservable(s.stock, data.lines, s.nextId + 1);
    forall p | p in s.stock
      ensures lines.stock[p].reserved >= PhysicalQuantity(lines.Held(), p)
    {
      PhysicalQuantityNonNegative(lines.Held(), p);
    }
  }

  /** A consistent mail log whose e-mails before the last all went to other
      recipients lists only that last e-mail for its recipient. */
  lemma OnlyLastForRecipient(log: MailLog, earlier: seq<EmailRecord>, last: EmailRecord)
    requires IndexConsistent(log) && log.sent == earlier + [last]
    requires forall i :: 0 <= i < |earlier| ==> earlier[i].recipient != last.recipient
    ensures EmailsByRecipient(log, last.recipient) == [last]
  {
    var who := last.recipient;
    var byWho := (e: EmailRecord) => e.recipient == who;
    FilterAppend(earlier, [last], byWho);
    FilterNone(earlier, byWho);
    assert Filter([last], byWho) == [last];
    assert EmailsByRecipient(log, who) == Filter(log.sent, byWho);
  }

  /** Initiating fulfilment from an empty mail log leaves exactly one e-mail
      for the account manager, the order confirmation, provided the manager
      is not the fulfilment team. */
  lemma InitiationConfirmsOnce(o: RedemptionOrder, now: Time)
    requires o.accountManager.email != FulfillmentTeam
    ensures EmailsByRecipient(InitiationMail(EmptyLog, o, now), o.accountManager.email)
      == [EmailRecord(o.accountManager.email, "Order Confirmation - " + o.orderNumber, OrderConfirmation, now)]
  {
    EmptyLogConsistent();
    var earlier := if o.HasPhysicalItems()
      then [EmailRecord(FulfillmentTeam, "Physical Fulfillment Required - " + o.orderNumber, PhysicalFulfillment, now)]
      else [];
    var confirmation := EmailRecord(o.accountManager.email, "Order Confirmation - " + o.orderNumber, OrderConfirmation, now);
    OnlyLastForRecipient(InitiationMail(EmptyLog, o, now), earlier, confirmation);
  }

  /** A successful debit records one completed debit, marks the order
      PROCESSING and then initiates fulfilment of that order. */
  lemma SuccessfulDebitInitiatesFulfillment(s: State, orderId: OrderId, response: TransactionResponse,
                                            fault: ItemId -> Option<string>, now: Time)
    requires orderId in s.orders && s.orders[orderId].IsPending() && IsSuccessful(response)
    ensures var o := s.orders[orderId];
      var journal := RecordTransaction(s.journal, OriginOf(orderId, o), Debit, o.totalPoints,
                                       response.transactionId, TransactionStatus.Completed, now);
      var s1 := s.(journal := journal, orders := s.orders[orderId := MarkOrderProcessing(o).value]);
      && s1.orders[orderId].accountManager == o.accountManager
      && s1.orders[orderId].orderNumber == o.orderNumber
      && ProcessOrder(s, orderId, Replied(response), fault, now).state == InitiateOrderFulfillment(s1, orderId, fault, now).state
  {
  }

  /** A debit that is refused or signals an error releases the order's
      physical reservations and fails the order. When that release itself
      raises, an error signal records one FAILED debit and keeps the order,
      while a refusal fails the order a second time with the release's
      error, so two FAILED debits are recorded and the release is tried
      again on the partly released stock. */
  lemma RefusedDebitReleasesAndFails(s: State, orderId: OrderId, reply: LedgerReply,
                                      fault: ItemId -> Option<string>, now: Time)
    requires orderId in s.orders && s.orders[orderId].IsPending()
    requires reply.Errored? || (reply.Replied? && !IsSuccessful(reply.response))
    ensures var o := s.orders[orderId];
      var r := ProcessOrder(s, orderId, reply, fault, now);
      var released := ReleaseLines(s.stock, o.items);
      && (released.error.None? ==>
            && r.error.None?
            && ReleasedExactly(s.stock, o.items, r.state.stock)
            && |r.state.journal| == |s.journal| + 1
            && r.state.orders == s.orders[orderId := o.(status := OrderStatus.Failed)])
      && (released.error.Some? && reply.Errored? ==>
            && r.error == released.error
            && r.state.stock == released.stock
            && |r.state.journal| == |s.journal| + 1
            && r.state.orders == s.orders)
      && (released.error.Some? && reply.Replied? ==>
            && r.state.stock == ReleaseLines(released.stock, o.items).stock
            && r.error == ReleaseLines(released.stock, o.items).error
            && |r.state.journal| == |s.journal| + 2
            && r.state.journal[|s.journal| + 1].errorMessage == released.error)
  {
    ReleaseLinesReleases(s.stock, s.orders[orderId].items);
  }

  /** Processing a PENDING order whose debit succeeds, from an empty mail
      log, leaves exactly one e-mail for the account manager: the order
      confirmation. The physical-fulfilment notice, if any, goes to the
      fulfilment team. */
  lemma ProcessingSendsOneConfirmation(s: State, orderId: OrderId, response: TransactionResponse,
                                       fault: ItemId -> Option<string>, now: Time)
    requires orderId in s.orders && s.orders[orderId].IsPending() && IsSuccessful(response)
    requires s.mail == EmptyLog && s.orders[orderId].accountManager.email != FulfillmentTeam
    ensures var r := ProcessOrder(s, orderId, Replied(response), fault, now);
      var o := s.orders[orderId];
      && r.error.None? && r.state.orders[orderId].IsProcessing()
      && EmailsByRecipient(r.state.mail, o.accountManager.email)
         == [EmailRecord(o.accountManager.email, "Order Confirmation - " + o.orderNumber, OrderConfirmation, now)]
  {
    var o := s.orders[orderId];
    var journal := RecordTransaction(s.journal, OriginOf(orderId, o), Debit, o.totalPoints,
                                     response.transactionId, TransactionStatus.Completed, now);
    var s1 := s.(journal := journal, orders := s.orders[orderId := MarkOrderProcessing(o).value]);
    SuccessfulDebitInitiatesFulfillment(s, orderId, response, fault, now);
    InitiationConfirmsOnce(s1.orders[orderId], now);
  }

  // ---------------------------------------------------------------------
  // Cancelling again

  /** A CANCELLED or FAILED order is not refused: cancelling it once more
      makes no ledger call and releases its physical lines a second time. */
  lemma ReCancelReleasesAgain(s: State, orderId: OrderId, reason: string, reply: LedgerReply, now: Time)
    requires orderId in s.orders
    requires s.orders[orderId].IsCancelled() || s.orders[orderId].status == OrderStatus.Failed
    requires HoldsReservations(s.stock, s.orders[orderId].items)
    ensures var r := CancelOrder(s, orderId, reason, reply, now);
      && r.error.None? && r.calls == []
      && ReleasedExactly(s.stock, s.orders[orderId].items, r.state.stock)
      && r.state.orders[orderId].IsCancelled()
  {
    ReleaseLinesSucceedsWhenHeld(s.stock, s.orders[orderId].items);
    ReleaseLinesReleases(s.stock, s.orders[orderId].items);
  }

  /** Creating an order, cancelling it, and cancelling it again releases
      its physical quantities twice: the stock ends with less reserved and
      more available than before the order existed. */
  lemma CancelTwiceReleasesTwice(s: State, req: CreateOrderRequest, millis: nat,
                                 reason1: string, reply1: LedgerReply, reason2: string, reply2: LedgerReply, now: Time)
    requires |req.items| > 0 && forall i :: 0 <= i < |req.items| ==> req.items[i].quantity >= 1
    requires forall p :: p in s.stock ==> s.stock[p].reserved >= 0
    requires CreateOrder(s, req, millis).error.None?
    requires HoldsReservations(s.stock, CreateOrder(s, req, millis).state.orders[s.nextId].items)
    ensures var created := CreateOrder(s, req, millis).state;
      var first := CancelOrder(created, s.nextId, reason1, reply1, now);
      var second := CancelOrder(first.state, s.nextId, reason2, reply2, now);
      && first.error.None? && second.error.None?
      && ReleasedExactly(s.stock, created.orders[s.nextId].items, second.state.stock)
  {
    var created := CreateOrder(s, req, millis).state;
    CreateThenCancelRestoresStock(s, req, millis, reason1, reply1, now);
    var first := CancelOrder(created, s.nextId, reason1, reply1, now);
    assert first.state.orders[s.nextId].items == created.orders[s.nextId].items;
    ReCancelReleasesAgain(first.state, s.nextId, reason2, reply2, now);
  }

  /** Cancelling a PROCESSING order whose physical reservation was already
      confirmed: the refund is recorded, then the release is refused and
      the order stays PROCESSING. */
  lemma ProcessingCancelAfterConfirmFails(s: State, orderId: OrderId, reason: string,
                                          response: TransactionResponse, now: Time)
    requires orderId in s.orders && s.orders[orderId].IsProcessing() && IsSuccessful(response)
    requires |s.orders[orderId].items| == 1 && s.orders[orderId].items[0].IsPhysicalProduct()
    requires s.orders[orderId].items[0].product.value.id in s.stock
    requires s.stock[s.orders[orderId].items[0].product.value.id].reserved < s.orders[orderId].items[0].quantity
    ensures var r := CancelOrder(s, orderId, reason, Replied(response), now);
      && r.error.Some? && r.state.orders == s.orders && r.state.stock == s.stock
      && |r.state.journal| == |s.journal| + 1
      && r.state.journal[|s.journal|].transactionType == Refund
      && r.state.journal[|s.journal|].status == TransactionStatus.Completed
  {
  }

  /** `cancelOrder` refusing orders that are already closed: a CANCELLED or
      FAILED order is left as it is; every other order is cancelled as
      before. */
  function CancelOrderCorrected(s: State, orderId: OrderId, reason: string, reply: LedgerReply, now: Time): (r: Cancellation)
    ensures orderId in s.orders && Closed(s.orders[orderId]) ==>
      r == Cancellation(s, [], Some("Order is already cancelled or failed"))
    ensures !(orderId in s.orders && Closed(s.orders[orderId])) ==> r == CancelOrder(s, orderId, reason, reply, now)
  {
    if orderId in s.orders && Closed(s.orders[orderId]) then
      Cancellation(s, [], Some("Order is already cancelled or failed"))
    else CancelOrder(s, orderId, reason, reply, now)
  }

  predicate Closed(o: RedemptionOrder) {
    o.IsCancelled() || o.status == OrderStatus.Failed
  }

  /** With the correction a cancellation takes effect once: after one that
      succeeds, another changes nothing and calls nothing. */
  lemma CorrectedCancelTakesEffectOnce(s: State, orderId: OrderId, reason1: string, reply1: LedgerReply,
                                       reason2: string, reply2: LedgerReply, now: Time)
    requires CancelOrderCorrected(s, orderId, reason1, reply1, now).error.None?
    ensures var first := CancelOrderCorrected(s, orderId, reason1, reply1, now);
      var second := CancelOrderCorrected(first.state, orderId, reason2, reply2, now);
      && second.state == first.state && second.calls == [] && second.error.Some?
  {
  }

  /** With the correction, creating an order and cancelling it any number
      of times leaves the stock as it was before the order. */
  lemma CorrectedCancelTwiceRestoresStock(s: State, req: CreateOrderRequest, millis: nat,
                                          reason1: string, reply1: LedgerReply, reason2: string, reply2: LedgerReply, now: Time)
    requires |req.items| > 0 && forall i :: 0 <= i < |req.items| ==> req.items[i].quantity >= 1
    requires forall p :: p in s.stock ==> s.stock[p].reserved >= 0
    requires CreateOrder(s, req, millis).error.None?
    ensures var created := CreateOrder(s, req, millis).state;
      var first := CancelOrderCorrected(created, s.nextId, reason1, reply1, now);
      var second := CancelOrderCorrected(first.state, s.nextId, reason2, reply2, now);
      && first.error.None? && second.state.stock == s.stock
  {
    var created := CreateOrder(s, req, millis).state;
    CreateThenCancelRestoresStock(s, req, millis, reason1, reply1, now);
    assert !Closed(created.orders[s.nextId]);
    CorrectedCancelTakesEffectOnce(created, s.nextId, reason1, reply1, reason2, reply2, now);
  }
}
