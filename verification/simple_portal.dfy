/** The legacy single-file backend: an order endpoint that validates a
    loosely typed request, a two-level approval workflow kept on string
    statuses and stages, rejection and shipping by an administrator, and user
    registration. It shares nothing with the main order model. */
module SimplePortal {
  import opened Wrappers
  import opened Text

  const Pending := "PENDING"
  const ApprovedLevel1 := "APPROVED_LEVEL_1"
  const ApprovedLevel2 := "APPROVED_LEVEL_2"
  const ApprovedFinal := "APPROVED_FINAL"
  const Rejected := "REJECTED"
  const Shipped := "SHIPPED"
  const Delivered := "DELIVERED"

  const Level1 := "LEVEL_1"
  const Level2 := "LEVEL_2"
  const Completed := "COMPLETED"

  const Virtual := "VIRTUAL"
  const DefaultRole := "USER"

  /** The user id the approval endpoint records as approver. */
  const AdminUserId := 1

  /** Every status an order of this backend is meant to carry. */
  predicate IsStatus(s: string) {
    s in {Pending, ApprovedLevel1, ApprovedLevel2, ApprovedFinal, Rejected, Shipped, Delivered}
  }

  /** Every workflow stage of the approval chain. */
  predicate IsStage(s: string) {
    s in {Level1, Level2, Completed}
  }

  /** How far along the approval chain a stage is. */
  function StageRank(stage: string): nat {
    if stage == Level1 then 0 else if stage == Level2 then 1 else 2
  }

  datatype Company = Company(name: Option<string>, loyaltyAccountId: Option<string>, tier: Option<string>)

  datatype AccountManager = AccountManager(firstName: Option<string>, lastName: Option<string>, email: Option<string>)

  /** A stored order; timestamps are the clock readings the endpoints took. */
  datatype Order = Order(
    orderNumber: string,
    status: string,
    workflowStage: string,
    totalPoints: int,
    totalItems: nat,
    shippingAddress: Option<string>,
    specialInstructions: Option<string>,
    rejectionReason: Option<string>,
    orderType: Option<string>,
    company: int,
    accountManager: int,
    createdAt: nat,
    level1ApprovedAt: Option<nat>,
    level2ApprovedAt: Option<nat>,
    finalApprovedAt: Option<nat>,
    shippedAt: Option<nat>)
  {
    predicate WellFormed() {
      IsStatus(status) && IsStage(workflowStage)
    }
  }

  /** One row of the approval history. The approver is absent when no user
      with the administrator's id exists. */
  datatype Approval = Approval(
    orderId: nat,
    approver: Option<nat>,
    level: string,
    action: string,
    comments: Option<string>,
    actionAt: nat)

  datatype User = User(
    email: string,
    passwordHash: string,
    firstName: Option<string>,
    lastName: Option<string>,
    role: string,
    active: bool,
    createdAt: nat,
    company: Option<int>)

  datatype State = State(
    companies: map<int, Company>,
    managers: map<int, AccountManager>,
    orders: map<nat, Order>,
    approvals: seq<Approval>,
    users: map<nat, User>,
    nextOrderId: nat,
    nextUserId: nat)
  {
    /** Every stored order carries a known status and stage, and the id
        counters are ahead of every stored row. */
    ghost predicate Valid() {
      && (forall id :: id in orders ==> orders[id].WellFormed())
      && FreshCounters()
    }

    /** The database's id sequences: the next id is above every stored row. */
    ghost predicate FreshCounters() {
      && (forall id :: id in orders ==> id < nextOrderId)
      && (forall id :: id in users ==> id < nextUserId)
    }
  }

  // ---------------------------------------------------------------------
  // Order creation
  // ---------------------------------------------------------------------

  /** One entry of the request's item list; only the number of entries is
      read by the endpoint. */
  datatype RequestItem = RequestItem(productId: Option<int>, quantity: Option<int>)

  /** The JSON body of an order request; `None` stands for a missing key or a
      null value. */
  datatype OrderRequest = OrderRequest(
    totalPoints: Option<int>,
    items: Option<seq<RequestItem>>,
    companyId: Option<int>,
    accountManagerId: Option<int>,
    shippingAddress: Option<string>,
    specialInstructions: Option<string>)

  datatype CreateReply =
    | OrderCreated(orderNumber: string, status: string, totalPoints: int)
    | CreationFailed(message: string)

  datatype Created = Created(state: State, reply: CreateReply)

  /** The request carries everything the endpoint requires of it. */
  predicate RequestComplete(request: Option<OrderRequest>) {
    && request.Some?
    && request.value.totalPoints.Some? && request.value.totalPoints.value > 0
    && request.value.items.Some? && request.value.items.value != []
    && request.value.companyId.Some? && request.value.accountManagerId.Some?
  }

  /** The request is complete and names a stored company and account manager. */
  predicate Admissible(s: State, request: Option<OrderRequest>) {
    && RequestComplete(request)
    && request.value.companyId.value in s.companies
    && request.value.accountManagerId.value in s.managers
  }

  /** The input checks, in the order the endpoint makes them; the first one
      that fails names the error. */
  function Validate(request: Option<OrderRequest>): (r: Result<OrderRequest, string>)
    ensures r.Success? <==> RequestComplete(request)
    ensures r.Success? ==> r.value == request.value
    ensures request.None? ==> r == Failure("Order request cannot be null")
    ensures (request.Some? && (request.value.totalPoints.None? || request.value.totalPoints.value <= 0))
            ==> r == Failure("Invalid total points")
    ensures (&& request.Some? && request.value.totalPoints.Some? && request.value.totalPoints.value > 0
             && (request.value.items.None? || request.value.items.value == []))
            ==> r == Failure("Order must contain at least one item")
    ensures (&& request.Some? && request.value.totalPoints.Some? && request.value.totalPoints.value > 0
             && request.value.items.Some? && request.value.items.value != []
             && (request.value.companyId.None? || request.value.accountManagerId.None?))
            ==> r == Failure("Company ID and Account Manager ID are required")
  {
    if request.None? then Failure("Order request cannot be null")
    else
      var q := request.value;
      if q.totalPoints.None? || q.totalPoints.value <= 0 then Failure("Invalid total points")
      else if q.items.None? || q.items.value == [] then Failure("Order must contain at least one item")
      else if q.companyId.None? || q.accountManagerId.None? then
        Failure("Company ID and Account Manager ID are required")
      else Success(q)
  }

  function OrderNumberAt(now: nat): string {
    "ORD-" + NatToString(now)
  }

  /** The order endpoint: validates the request, looks up the company and
      then the account manager, and saves a new PENDING order. Any failure
      is answered with a message and leaves nothing saved. */
  function CreateOrder(s: State, request: Option<OrderRequest>, now: nat): (r: Created)
    requires s.FreshCounters()
    ensures r.state.FreshCounters()
    ensures r.reply.OrderCreated? <==> Admissible(s, request)
    ensures r.reply.CreationFailed? ==> r.state == s
    ensures r.reply.OrderCreated? ==>
      && var id := s.nextOrderId;
      && var q := request.value;
      && r.state.orders.Keys == s.orders.Keys + {id}
      && id !in s.orders
      && r.state.orders[id].status == Pending
      && r.state.orders[id].workflowStage == Level1
      && r.state.orders[id].totalItems == |q.items.value|
      && r.state.orders[id].totalPoints == q.totalPoints.value
      && r.state.orders[id].orderType.None?
      && r.state.orders[id].company == q.companyId.value
      && r.state.orders[id].accountManager == q.accountManagerId.value
      && r.reply == OrderCreated(r.state.orders[id].orderNumber, Pending, q.totalPoints.value)
    ensures r.reply.OrderCreated? ==>
      forall id :: id in s.orders ==> id in r.state.orders && r.state.orders[id] == s.orders[id]
    ensures r.reply.OrderCreated? ==>
      r.state.approvals == s.approvals && r.state.users == s.users && r.state.nextOrderId > s.nextOrderId
  {
    match Validate(request)
    case Failure(e) => Created(s, CreationFailed("Order creation failed: " + e))
    case Success(q) =>
      var companyId := q.companyId.value;
      var managerId := q.accountManagerId.value;
      if companyId !in s.companies then
        Created(s, CreationFailed("Order creation failed: Company not found with id: " + IntToString(companyId)))
      else if managerId !in s.managers then
        Created(s, CreationFailed("Order creation failed: Account Manager not found with id: " + IntToString(managerId)))
      else
        var order := Order(
          OrderNumberAt(now), Pending, Level1, q.totalPoints.value, |q.items.value|,
          q.shippingAddress, q.specialInstructions, None, None, companyId, managerId,
          now, None, None, None, None);
        var id := s.nextOrderId;
        var s' := s.(orders := s.orders[id := order], nextOrderId := id + 1);
        Created(s', OrderCreated(order.orderNumber, order.status, order.totalPoints))
  }

  /** Creation keeps every stored order well formed and the counters ahead. */
  lemma CreateOrderPreservesValid(s: State, request: Option<OrderRequest>, now: nat)
    requires s.Valid()
    ensures CreateOrder(s, request, now).state.Valid()
  {
  }

  // ---------------------------------------------------------------------
  // The administrator's workflow
  // ---------------------------------------------------------------------

  datatype Reply =
    | NotFound
    | Done(message: string, orderNumber: string, nextStage: Option<string>)

  datatype Answer = Answer(state: State, reply: Reply)

  /** The final step of a level-two approval: a VIRTUAL order is delivered
      at once, any other order waits for manual processing. */
  function ProcessApproved(o: Order): (r: Order)
    ensures r == o.(status := r.status)
    ensures r.status == Delivered <==> o.orderType == Some(Virtual)
    ensures r.status != Delivered ==> r.status == ApprovedFinal
  {
    if o.orderType == Some(Virtual) then o.(status := Delivered) else o.(status := ApprovedFinal)
  }

  function ApprovalRecord(s: State, orderId: nat, level: string, comments: Option<string>, now: nat): Approval {
    Approval(orderId, if AdminUserId in s.users then Some(AdminUserId) else None, level, "APPROVED", comments, now)
  }

  /** The approval endpoint. It branches on the workflow stage alone: LEVEL_1
      moves the order to LEVEL_2, LEVEL_2 completes it, and at any other stage
      the order is saved unchanged, still answered as approved. */
  function ApproveOrder(s: State, orderId: nat, comments: Option<string>, now: nat): (r: Answer)
    ensures r.reply.NotFound? <==> orderId !in s.orders
    ensures r.reply.NotFound? ==> r.state == s
    ensures orderId in s.orders ==>
      && var o := s.orders[orderId];
      && r.state.orders.Keys == s.orders.Keys
      && r.state.users == s.users
      && r.state.nextOrderId == s.nextOrderId
      && r.reply == Done("Order approved at " + o.workflowStage + " successfully", o.orderNumber,
                         Some(r.state.orders[orderId].workflowStage))
      && (o.workflowStage == Level1 ==>
            && r.state.orders[orderId].status == ApprovedLevel1
            && r.state.orders[orderId].workflowStage == Level2
            && r.state.orders[orderId].level1ApprovedAt == Some(now)
            && r.state.approvals == s.approvals + [ApprovalRecord(s, orderId, Level1, comments, now)])
      && (o.workflowStage == Level2 ==>
            && r.state.orders[orderId].workflowStage == Completed
            && r.state.orders[orderId].status == (if o.orderType == Some(Virtual) then Delivered else ApprovedFinal)
            && r.state.orders[orderId].finalApprovedAt == Some(now)
            && r.state.approvals == s.approvals + [ApprovalRecord(s, orderId, Level2, comments, now)])
      && (o.workflowStage != Level1 && o.workflowStage != Level2 ==> r.state == s)
      && (forall id :: id in s.orders && id != orderId ==> r.state.orders[id] == s.orders[id])
  {
    if orderId !in s.orders then Answer(s, NotFound)
    else
      var o := s.orders[orderId];
      var stage := o.workflowStage;
      var o' :=
        if stage == Level1 then
          o.(status := ApprovedLevel1, workflowStage := Level2, level1ApprovedAt := Some(now))
        else if stage == Level2 then
          ProcessApproved(o.(status := ApprovedFinal, workflowStage := Completed,
                             level2ApprovedAt := Some(now), finalApprovedAt := Some(now)))
        else o;
      var records :=
        if stage == Level1 || stage == Level2 then [ApprovalRecord(s, orderId, stage, comments, now)] else [];
      var s' := s.(orders := s.orders[orderId := o'], approvals := s.approvals + records);
      Answer(s', Done("Order approved at " + stage + " successfully", o.orderNumber, Some(o'.workflowStage)))
  }

  /** The rejection endpoint: from any status, the order becomes REJECTED
      with the given reason; its stage is left where it was. */
  function RejectOrder(s: State, orderId: nat, reason: Option<string>): (r: Answer)
    ensures r.reply.NotFound? <==> orderId !in s.orders
    ensures r.reply.NotFound? ==> r.state == s
    ensures orderId in s.orders ==>
      && r.state.orders.Keys == s.orders.Keys
      && r.state == s.(orders := s.orders[orderId := r.state.orders[orderId]])
      && r.state.orders[orderId] == s.orders[orderId].(status := Rejected, rejectionReason := reason)
      && r.reply == Done("Order rejected successfully", s.orders[orderId].orderNumber, None)
  {
    if orderId !in s.orders then Answer(s, NotFound)
    else
      var o := s.orders[orderId].(status := Rejected, rejectionReason := reason);
      Answer(s.(orders := s.orders[orderId := o]), Done("Order rejected successfully", o.orderNumber, None))
  }

  /** The shipping endpoint: from any status, the order becomes SHIPPED and
      records the time; its stage is left where it was. */
  function MarkAsShipped(s: State, orderId: nat, now: nat): (r: Answer)
    ensures r.reply.NotFound? <==> orderId !in s.orders
    ensures r.reply.NotFound? ==> r.state == s
    ensures orderId in s.orders ==>
      && r.state.orders.Keys == s.orders.Keys
      && r.state == s.(orders := s.orders[orderId := r.state.orders[orderId]])
      && r.state.orders[orderId] == s.orders[orderId].(status := Shipped, shippedAt := Some(now))
      && r.reply == Done("Order marked as shipped", s.orders[orderId].orderNumber, None)
  {
    if orderId !in s.orders then Answer(s, NotFound)
    else
      var o := s.orders[orderId].(status := Shipped, shippedAt := Some(now));
      Answer(s.(orders := s.orders[orderId := o]), Done("Order marked as shipped", o.orderNumber, None))
  }

  /** Approval moves a well-staged order exactly one stage forward until it is
      COMPLETED, and never backward. */
  lemma ApprovalAdvancesStage(s: State, orderId: nat, comments: Option<string>, now: nat)
    requires orderId in s.orders && IsStage(s.orders[orderId].workflowStage)
    ensures var before := StageRank(s.orders[orderId].workflowStage);
            var after := StageRank(ApproveOrder(s, orderId, comments, now).state.orders[orderId].workflowStage);
            after == if before < 2 then before + 1 else before
  {
  }

  /** Two approvals complete any order still at LEVEL_1, leaving two approval
      rows behind, one per level. */
  lemma TwoApprovalsComplete(s: State, orderId: nat, c1: Option<string>, c2: Option<string>, t1: nat, t2: nat)
    requires orderId in s.orders && s.orders[orderId].workflowStage == Level1
    ensures var a1 := ApproveOrder(s, orderId, c1, t1).state;
            var a2 := ApproveOrder(a1, orderId, c2, t2).state;
            && a2.orders[orderId].workflowStage == Completed
            && a2.orders[orderId].status == (if s.orders[orderId].orderType == Some(Virtual) then Delivered else ApprovedFinal)
            && a2.orders[orderId].level1ApprovedAt == Some(t1)
            && a2.orders[orderId].finalApprovedAt == Some(t2)
            && a2.approvals == s.approvals + [ApprovalRecord(s, orderId, Level1, c1, t1), ApprovalRecord(a1, orderId, Level2, c2, t2)]
  {
    var a1 := ApproveOrder(s, orderId, c1, t1).state;
    assert a1.orders[orderId].workflowStage == Level2;
    assert a1.orders[orderId].orderType == s.orders[orderId].orderType;
  }

  /** Approval never reads the status: two states that differ only in the
      status of the approved order reach the same stage, and at LEVEL_1 or
      LEVEL_2 the very same order. A REJECTED or SHIPPED order is therefore
      approved like a PENDING one. */
  lemma ApprovalBranchesOnStageOnly(s: State, orderId: nat, status: string, comments: Option<string>, now: nat)
    requires orderId in s.orders
    ensures var t := s.(orders := s.orders[orderId := s.orders[orderId].(status := status)]);
            var a := ApproveOrder(s, orderId, comments, now).state.orders[orderId];
            var b := ApproveOrder(t, orderId, comments, now).state.orders[orderId];
            && a.workflowStage == b.workflowStage
            && (s.orders[orderId].workflowStage in {Level1, Level2} ==> a == b)
  {
  }

  /** The orders this endpoint creates carry no order type, so their second
      approval always yields APPROVED_FINAL and never DELIVERED. */
  lemma CreatedOrdersAreNeverDelivered(s: State, request: Option<OrderRequest>, now: nat,
                                      c1: Option<string>, c2: Option<string>, t1: nat, t2: nat)
    requires s.FreshCounters() && Admissible(s, request)
    ensures var c := CreateOrder(s, request, now).state;
            var id := s.nextOrderId;
            var a1 := ApproveOrder(c, id, c1, t1).state;
            var a2 := ApproveOrder(a1, id, c2, t2).state;
            && a2.orders[id].status == ApprovedFinal
            && a2.orders[id].workflowStage == Completed
  {
    var c := CreateOrder(s, request, now).state;
    TwoApprovalsComplete(c, s.nextOrderId, c1, c2, t1, t2);
  }

  /** Rejecting twice keeps the later reason; everything else is as after
      the first rejection. */
  lemma RejectTwiceKeepsLastReason(s: State, orderId: nat, first: Option<string>, second: Option<string>)
    ensures RejectOrder(RejectOrder(s, orderId, first).state, orderId, second).state
            == RejectOrder(s, orderId, second).state
  {
    if orderId in s.orders {
      var o := s.orders[orderId];
      assert o.(status := Rejected, rejectionReason := first).(status := Rejected, rejectionReason := second)
          == o.(status := Rejected, rejectionReason := second);
    }
  }

  /** Shipping twice is shipping once at the later time. */
  lemma ShipTwiceIsShipOnce(s: State, orderId: nat, t1: nat, t2: nat)
    ensures MarkAsShipped(MarkAsShipped(s, orderId, t1).state, orderId, t2).state
            == MarkAsShipped(s, orderId, t2).state
  {
  }

  /** Rejection after shipping, and shipping after rejection: the later call
      decides the status, and neither touches the workflow stage. */
  lemma RejectAndShipOverrideEachOther(s: State, orderId: nat, reason: Option<string>, now: nat)
    requires orderId in s.orders
    ensures RejectOrder(MarkAsShipped(s, orderId, now).state, orderId, reason).state.orders[orderId].status == Rejected
    ensures MarkAsShipped(RejectOrder(s, orderId, reason).state, orderId, now).state.orders[orderId].status == Shipped
    ensures RejectOrder(MarkAsShipped(s, orderId, now).state, orderId, reason).state.orders[orderId].workflowStage
            == s.orders[orderId].workflowStage
  {
  }

  /** Approval keeps the stored orders well formed. */
  lemma ApprovalPreservesValid(s: State, orderId: nat, comments: Option<string>, now: nat)
    requires s.Valid()
    ensures ApproveOrder(s, orderId, comments, now).state.Valid()
  {
  }

  /** Rejection and shipping keep the stored orders well formed. */
  lemma RejectAndShipPreserveValid(s: State, orderId: nat, reason: Option<string>, now: nat)
    requires s.Valid()
    ensures RejectOrder(s, orderId, reason).state.Valid()
    ensures MarkAsShipped(s, orderId, now).state.Valid()
  {
  }

  // ---------------------------------------------------------------------
  // Registration
  // ---------------------------------------------------------------------

  /** The `role` entry of the form: absent, present but null, or a value.
      `getOrDefault` tells only the first apart from the others. */
  datatype RoleField = Absent | Null | Given(value: string)

  /** What `getOrDefault("role", "USER")` yields; `None` stands for null. */
  function RoleValue(f: RoleField): (r: Option<string>)
    ensures f.Absent? ==> r == Some(DefaultRole)
    ensures f.Null? ==> r.None?
    ensures f.Given? ==> r == Some(f.value)
  {
    match f
    case Absent => Some(DefaultRole)
    case Null => None
    case Given(v) => Some(v)
  }

  /** The registration form. The password arrives already hashed, the
      encoder being outside the model. */
  datatype Registration = Registration(
    email: string,
    passwordHash: string,
    firstName: Option<string>,
    lastName: Option<string>,
    role: RoleField,
    companyId: Option<int>)

  /** Bean validation's `@NotBlank`: nothing but characters up to U+0020,
      which is what Java's `trim` removes. */
  predicate Blank(s: string) {
    forall i :: 0 <= i < |s| ==> s[i] <= ' '
  }

  /** The error the save raises when bean validation refuses the user. */
  const ValidationFailed := "Validation failed for User"

  /** The constraints the user entity declares and the save enforces: a
      non-blank e-mail that `isEmail` accepts, and a non-null, non-blank
      role. `isEmail` stands for the `@Email` validator. */
  predicate PassesValidation(data: Registration, isEmail: string -> bool) {
    && !Blank(data.email) && isEmail(data.email)
    && RoleValue(data.role).Some? && !Blank(RoleValue(data.role).value)
  }

  datatype Registered = Registered(state: State, user: Result<nat, string>)

  /** Some stored user already has this email. */
  predicate EmailTaken(users: map<nat, User>, email: string) {
    exists id :: id in users && users[id].email == email
  }

  /** No two stored users share an email (the column is declared unique). */
  ghost predicate UniqueEmails(users: map<nat, User>) {
    forall a, b :: a in users && b in users && users[a].email == users[b].email ==> a == b
  }

  /** Registration refuses an email already on file; then the save refuses
      a user that fails bean validation; otherwise it stores an active user
      with the role the form's entry yields, linked to the company when
      that id is stored. */
  function RegisterUser(s: State, data: Registration, isEmail: string -> bool, now: nat): (r: Registered)
    requires s.FreshCounters()
    ensures r.state.FreshCounters()
    ensures r.user.Failure? <==> EmailTaken(s.users, data.email) || !PassesValidation(data, isEmail)
    ensures EmailTaken(s.users, data.email) ==> r == Registered(s, Failure("Email already exists"))
    ensures !EmailTaken(s.users, data.email) && !PassesValidation(data, isEmail) ==>
      r == Registered(s, Failure(ValidationFailed))
    ensures !EmailTaken(s.users, data.email) && data.role.Null? ==> r == Registered(s, Failure(ValidationFailed))
    ensures r.user.Success? ==>
      && var id := r.user.value;
      && id !in s.users
      && r.state.users.Keys == s.users.Keys + {id}
      && r.state.users[id].email == data.email
      && r.state.users[id].active
      && (data.role.Absent? ==> r.state.users[id].role == DefaultRole)
      && (data.role.Given? ==> r.state.users[id].role == data.role.value)
      && (r.state.users[id].company.Some? <==> data.companyId.Some? && data.companyId.value in s.companies)
      && (forall u :: u in s.users ==> r.state.users[u] == s.users[u])
      && r.state.orders == s.orders
  {
    if EmailTaken(s.users, data.email) then Registered(s, Failure("Email already exists"))
    else
      var company := if data.companyId.Some? && data.companyId.value in s.companies then data.companyId else None;
      var role := RoleValue(data.role);
      if role.None? || Blank(role.value) || Blank(data.email) || !isEmail(data.email) then
        Registered(s, Failure(ValidationFailed))
      else
        var user := User(data.email, data.passwordHash, data.firstName, data.lastName,
                         role.value, true, now, company);
        var id := s.nextUserId;
        Registered(s.(users := s.users[id := user], nextUserId := id + 1), Success(id))
  }

  /** Once an email is registered, registering it again fails, whatever the
      rest of the form says, and stores nothing more. A first attempt that
      validation refused stores nothing, so it does not block the second. */
  lemma RegisterTwiceFails(s: State, first: Registration, second: Registration, isEmail: string -> bool, t1: nat, t2: nat)
    requires s.FreshCounters() && first.email == second.email
    ensures var r1 := RegisterUser(s, first, isEmail, t1);
            var r2 := RegisterUser(r1.state, second, isEmail, t2);
            && (r1.user.Success? || EmailTaken(s.users, first.email) ==>
                  r2.user == Failure("Email already exists") && r2.state == r1.state)
            && (r1.user.Failure? && !EmailTaken(s.users, first.email) ==>
                  r1.user == Failure(ValidationFailed) && r2 == RegisterUser(s, second, isEmail, t2))
  {
    var r1 := RegisterUser(s, first, isEmail, t1);
    if r1.user.Success? {
      assert r1.state.users[r1.user.value].email == second.email;
    }
  }

  /** Registration keeps stored emails unique. */
  lemma RegisterKeepsEmailsUnique(s: State, data: Registration, isEmail: string -> bool, now: nat)
    requires s.FreshCounters() && UniqueEmails(s.users)
    ensures UniqueEmails(RegisterUser(s, data, isEmail, now).state.users)
  {
  }

  /** Every stored user satisfies the entity's `@NotBlank` constraints. */
  lemma RegisteredUserIsNotBlank(s: State, data: Registration, isEmail: string -> bool, now: nat)
    requires s.FreshCounters()
    ensures var r := RegisterUser(s, data, isEmail, now);
      r.user.Success? ==> !Blank(r.state.users[r.user.value].email) && !Blank(r.state.users[r.user.value].role)
  {
  }
}
