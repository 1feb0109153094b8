/** The persistent state the order services work on: the catalogue, the
    inventory records, the orders with their lines, the transaction
    journal and the mail log, together with the next free id. */
module Portal {
  import opened Wrappers
  import opened Domain
  import opened InventoryService
  import opened TransactionRepository
  import opened OrderEntities
  import opened Notifications

  type Orders = map<OrderId, RedemptionOrder>

  datatype State = State(
    catalog: Catalog,
    stock: Stock,
    orders: Orders,
    journal: Journal,
    mail: MailLog,
    nextId: nat)

  /** The result of a use case: the state it leaves behind, including
      whatever it saved before failing, and the error it raised, if any. */
  datatype Outcome = Outcome(state: State, error: Option<Error>)

  /** The position of the first line of `items` with the given id. */
  function FindItem(items: seq<OrderItem>, itemId: ItemId): (r: Option<nat>)
    ensures r.Some? ==> r.value < |items| && items[r.value].id == itemId
    ensures r.Some? ==> forall k :: 0 <= k < r.value ==> items[k].id != itemId
    ensures r.None? <==> forall k :: 0 <= k < |items| ==> items[k].id != itemId
  {
    if items == [] then None
    else if items[0].id == itemId then Some(0)
    else match FindItem(items[1..], itemId)
      case None => None
      case Some(k) => Some(k + 1)
  }

  /** Saves one line of a stored order. */
  function SaveItem(orders: Orders, orderId: OrderId, k: nat, item: OrderItem): (r: Orders)
    requires orderId in orders && k < |orders[orderId].items|
    ensures r.Keys == orders.Keys
    ensures r[orderId] == orders[orderId].(items := orders[orderId].items[k := item])
    ensures forall o :: o in orders && o != orderId ==> r[o] == orders[o]
  {
    orders[orderId := orders[orderId].(items := orders[orderId].items[k := item])]
  }
}
