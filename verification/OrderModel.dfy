/**
 The order transactions as functions from database to database: what each one does when it runs
 alone. A transaction first reads its own cart or order (`Begin`), then works through its lines
 against the inventory (`RunTo`), then writes its result (`Finish`); raising leaves the
 database as it was (app/services/order_service.py).
 */
module OrderModel {
  import opened Std
  import opened InventoryService
  import Money

  // ---- entities ----

  datatype OrderStatus =
    Pending | Paid | Confirmed | InProduction | ReadyToShip | Shipped | Delivered | Cancelled | Returned

  /** Statuses that still hold a live reservation. */
  predicate HoldsReservation(status: OrderStatus) {
    status == Pending || status == Paid || status == Confirmed
  }

  datatype PaymentStatus = AwaitingPayment | PaymentReceived

  datatype Variant = Variant(productId: Option<int>, price: Option<real>)

  datatype CartItem = CartItem(
    variantId: Option<int>, quantity: Option<int>, priceSnapshot: Option<real>, variant: Option<Variant>)

  datatype OrderItem = OrderItem(
    variantId: Option<int>, productId: Option<int>, quantity: Option<int>, unitPrice: real)

  datatype Order = Order(
    id: int, userId: Option<int>, organizationId: Option<int>, shippingAddressId: Option<int>,
    status: OrderStatus, paymentStatus: PaymentStatus, totalAmount: real, items: seq<OrderItem>)

  datatype Invoice = Invoice(orderId: int, gstAmount: real, totalAmount: real)

  datatype Shipment = Shipment(orderId: int, courierName: string, trackingNumber: string)

  datatype Payment = Payment(
    orderId: Option<int>, method_: string, status: PaymentStatus, reference: string, amount: real)

  /** `carts` holds each user's active cart; `addresses` the (address, user) pairs on file. */
  datatype Db = Db(
    rows: seq<Row>, carts: map<int, seq<CartItem>>, addresses: set<(int, int)>,
    orders: seq<Order>, invoices: seq<Invoice>, shipments: seq<Shipment>, payments: seq<Payment>)

  datatype Settings = Settings(gstRate: real, defaultWarehouseId: Option<int>)

  // ---- transactions ----

  /** The id of a checkout is the one the orders sequence hands out. */
  datatype Txn =
    | Checkout(userId: int, organizationId: Option<int>, addressId: int, id: int)
    | CancelOrder(orderId: int, userId: int)
    | RecordShipment(orderId: int, courierName: string, trackingNumber: string)

  datatype OrderError =
    | EmptyCart
    | InvalidAddress
    | Stock(error: StockError)
    | OrderNotFound
    | NotCancellable(status: OrderStatus)
    | DuplicateOrderId

  datatype Outcome =
    | Placed(orderId: int, totalAmount: real)
    | CancelDone
    | AlreadyCancelled
    | ShipmentRecorded
    | Failed(error: OrderError)

  /** What a transaction knows once it has read its cart or order; `cart` is empty for an order. */
  datatype Start = Decided(outcome: Outcome) | Work(cart: seq<CartItem>, lines: seq<Line>)

  // ---- lines ----

  datatype LineOp = Reserve | Release | Fulfill

  datatype Line = Line(op: LineOp, variantId: Option<int>, quantity: int, warehouseId: Option<int>)

  /** Cancelling and shipping skip lines without a variant; reserving does not. */
  predicate Skips(line: Line) {
    line.op != Reserve && line.variantId.None?
  }

  function LineLocks(rows: seq<Row>, line: Line): set<nat> {
    if Skips(line) then {} else LockSet(rows, line.variantId, line.warehouseId)
  }

  function RunLine(rows: seq<Row>, line: Line): Result<seq<Row>, StockError> {
    if Skips(line) then Ok(rows)
    else
      match Pick(rows, line.variantId, line.warehouseId)
      case None =>
        if line.op == Reserve then Err(InsufficientStock(line.variantId, line.quantity, 0)) else Ok(rows)
      case Some(i) =>
        match line.op
        case Reserve => (
          match Reserved(rows[i], line.quantity)
          case Ok(row) => Ok(rows[i := row])
          case Err(e) => Err(e))
        case Release => Ok(rows[i := Released(rows[i], line.quantity)])
        case Fulfill => Ok(rows[i := Fulfilled(rows[i], line.quantity)])
  }

  /** The inventory after the first k lines, or the first error among them. */
  function RunTo(rows: seq<Row>, lines: seq<Line>, k: nat): Result<seq<Row>, StockError>
    requires k <= |lines|
  {
    if k == 0 then Ok(rows)
    else
      match RunTo(rows, lines, k - 1)
      case Err(e) => Err(e)
      case Ok(before) => RunLine(before, lines[k - 1])
  }

  /** Once a line has failed no later one is worked. */
  lemma {:induction false} RunToStopsAtError(rows: seq<Row>, lines: seq<Line>, k: nat, n: nat)
    requires k <= n <= |lines| && RunTo(rows, lines, k).Err?
    ensures RunTo(rows, lines, n) == RunTo(rows, lines, k)
  {
    if k < n {
      RunToStopsAtError(rows, lines, k, n - 1);
    }
  }

  function CheckoutLine(item: CartItem, warehouse: Option<int>): Line {
    Line(Reserve, item.variantId, item.quantity.GetOr(0), warehouse)
  }

  function CheckoutLines(items: seq<CartItem>, warehouse: Option<int>): seq<Line> {
    seq(|items|, k requires 0 <= k < |items| => CheckoutLine(items[k], warehouse))
  }

  function ItemLine(op: LineOp, item: OrderItem): Line {
    Line(op, item.variantId, item.quantity.GetOr(0), None)
  }

  function ItemLines(op: LineOp, items: seq<OrderItem>): seq<Line> {
    seq(|items|, k requires 0 <= k < |items| => ItemLine(op, items[k]))
  }

  // ---- orders ----

  /** Index of the order with that id among the first n. */
  function FindOrderUpTo(orders: seq<Order>, id: int, n: nat): (found: Option<nat>)
    requires n <= |orders|
    ensures found.Some? ==> found.value < n && orders[found.value].id == id
    ensures forall i :: 0 <= i < (if found.Some? then found.value else n) ==> orders[i].id != id
  {
    if n == 0 then None
    else
      var found := FindOrderUpTo(orders, id, n - 1);
      if found.Some? then found
      else if orders[n - 1].id == id then Some(n - 1)
      else None
  }

  function FindOrder(orders: seq<Order>, id: int): (found: Option<nat>)
    ensures found.Some? ==> found.value < |orders| && orders[found.value].id == id
    ensures forall i :: 0 <= i < (if found.Some? then found.value else |orders|) ==> orders[i].id != id
  {
    FindOrderUpTo(orders, id, |orders|)
  }

  /** A price that is null or zero counts as absent, as Python's `or` has it. */
  function Truthy(price: Option<real>): Option<real> {
    if price == Some(0.0) then None else price
  }

  /** The snapshot taken when the item was added, else the variant's price now, else zero. */
  function UnitPrice(item: CartItem): real {
    var snapshot := Truthy(item.priceSnapshot);
    if snapshot.Some? then snapshot.value
    else if item.variant.Some? then item.variant.value.price.GetOr(0.0)
    else 0.0
  }

  function PlannedItem(item: CartItem): OrderItem {
    OrderItem(item.variantId, if item.variant.Some? then item.variant.value.productId else None,
              Some(item.quantity.GetOr(0)), UnitPrice(item))
  }

  function PlannedItems(items: seq<CartItem>): seq<OrderItem> {
    seq(|items|, k requires 0 <= k < |items| => PlannedItem(items[k]))
  }

  function LineTotal(item: OrderItem): real {
    Money.Times(item.unitPrice, item.quantity.GetOr(0))
  }

  /** Sum of the line totals of the first k planned items. */
  function SubtotalTo(items: seq<OrderItem>, k: nat): real
    requires k <= |items|
  {
    if k == 0 then 0.0
    else SubtotalTo(items, k - 1) + LineTotal(items[k - 1])
  }

  function Subtotal(items: seq<OrderItem>): real {
    SubtotalTo(items, |items|)
  }

  // ---- running a transaction ----

  function Begin(db: Db, settings: Settings, t: Txn): Start {
    match t
    case Checkout(user, _, address, _) =>
      if user !in db.carts || db.carts[user] == [] then Decided(Failed(EmptyCart))
      else if (address, user) !in db.addresses then Decided(Failed(InvalidAddress))
      else Work(db.carts[user], CheckoutLines(db.carts[user], settings.defaultWarehouseId))
    case CancelOrder(id, user) => (
      match FindOrder(db.orders, id)
      case None => Decided(Failed(OrderNotFound))
      case Some(i) =>
        if db.orders[i].userId != Some(user) then Decided(Failed(OrderNotFound))
        else if db.orders[i].status == Cancelled then Decided(AlreadyCancelled)
        else if !HoldsReservation(db.orders[i].status) then Decided(Failed(NotCancellable(db.orders[i].status)))
        else Work([], ItemLines(Release, db.orders[i].items)))
    case RecordShipment(id, _, _) =>
      match FindOrder(db.orders, id)
      case None => Decided(Failed(OrderNotFound))
      case Some(i) => Work([], ItemLines(Fulfill, db.orders[i].items))
  }

  function NewOrder(settings: Settings, t: Txn, cart: seq<CartItem>): Order
    requires t.Checkout?
  {
    var items := PlannedItems(cart);
    Order(t.id, Some(t.userId), t.organizationId, Some(t.addressId), Pending, AwaitingPayment,
          Money.Total(Subtotal(items), settings.gstRate), items)
  }

  function NewInvoice(settings: Settings, order: Order): Invoice {
    Invoice(order.id, Money.Gst(Subtotal(order.items), settings.gstRate), order.totalAmount)
  }

  function SetStatus(orders: seq<Order>, i: nat, status: OrderStatus): seq<Order>
    requires i < |orders|
  {
    orders[i := orders[i].(status := status)]
  }

  /** What a transaction that read `cart` writes once its lines have produced `rows`. */
  function Finish(db: Db, settings: Settings, t: Txn, cart: seq<CartItem>, rows: seq<Row>): (Db, Outcome) {
    match t
    case Checkout(user, _, _, id) =>
      if FindOrder(db.orders, id).Some? then (db, Failed(DuplicateOrderId))
      else
        var order := NewOrder(settings, t, cart);
        (db.(rows := rows, carts := db.carts - {user}, orders := db.orders + [order],
             invoices := db.invoices + [NewInvoice(settings, order)]),
         Placed(id, order.totalAmount))
    case CancelOrder(id, _) => (
      match FindOrder(db.orders, id)
      case None => (db, Failed(OrderNotFound))
      case Some(i) => (db.(rows := rows, orders := SetStatus(db.orders, i, Cancelled)), CancelDone))
    case RecordShipment(id, courier, tracking) =>
      match FindOrder(db.orders, id)
      case None => (db, Failed(OrderNotFound))
      case Some(i) =>
        (db.(rows := rows, orders := SetStatus(db.orders, i, Shipped),
             shipments := db.shipments + [Shipment(id, courier, tracking)]),
         ShipmentRecorded)
  }

  /** A transaction run alone, start to end. */
  function Atomic(db: Db, settings: Settings, t: Txn): (Db, Outcome) {
    match Begin(db, settings, t)
    case Decided(outcome) => (db, outcome)
    case Work(cart, lines) =>
      match RunTo(db.rows, lines, |lines|)
      case Err(e) => (db, Failed(Stock(e)))
      case Ok(rows) => Finish(db, settings, t, cart, rows)
  }

  // ---- payments ----

  /** Index of the payment carrying that reference among the first n. */
  function FindPaymentUpTo(payments: seq<Payment>, reference: string, n: nat): (found: Option<nat>)
    requires n <= |payments|
    ensures found.Some? ==> found.value < n && payments[found.value].reference == reference
    ensures forall i :: 0 <= i < (if found.Some? then found.value else n) ==> payments[i].reference != reference
  {
    if n == 0 then None
    else
      var found := FindPaymentUpTo(payments, reference, n - 1);
      if found.Some? then found
      else if payments[n - 1].reference == reference then Some(n - 1)
      else None
  }

  function FindPayment(payments: seq<Payment>, reference: string): (found: Option<nat>)
    ensures found.Some? ==> found.value < |payments| && payments[found.value].reference == reference
    ensures forall i :: 0 <= i < (if found.Some? then found.value else |payments|) ==>
      payments[i].reference != reference
  {
    FindPaymentUpTo(payments, reference, |payments|)
  }

  /** Answers with the position of the payment for that reference, new or already there. */
  function RecordPayment(db: Db, orderId: int, userId: int, method_: string, reference: string, amount: real)
    : (Db, Result<nat, OrderError>)
  {
    match FindOrder(db.orders, orderId)
    case None => (db, Err(OrderNotFound))
    case Some(i) =>
      if db.orders[i].userId != Some(userId) then (db, Err(OrderNotFound))
      else
        match FindPayment(db.payments, reference)
        case Some(p) => (db, Ok(p))
        case None =>
          (db.(payments := db.payments + [Payment(Some(orderId), method_, AwaitingPayment, reference, amount)]),
           Ok(|db.payments|))
  }

  function PaidOrder(order: Order): Order {
    order.(paymentStatus := PaymentReceived,
           status := if order.status == Pending then Confirmed else order.status)
  }

  /** True when this call performed the transition. */
  function ConfirmPayment(db: Db, reference: string): (Db, bool) {
    match FindPayment(db.payments, reference)
    case None => (db, false)
    case Some(p) =>
      if db.payments[p].status == PaymentReceived then (db, false)
      else
        var paid := db.(payments := db.payments[p := db.payments[p].(status := PaymentReceived)]);
        var owner := if db.payments[p].orderId.None? then None
                     else FindOrder(db.orders, db.payments[p].orderId.value);
        match owner
        case None => (paid, true)
        case Some(i) => (paid.(orders := db.orders[i := PaidOrder(db.orders[i])]), true)
  }

  // ---- serial runs ----

  datatype Op =
    | Run(t: Txn)
    | Record(orderId: int, userId: int, method_: string, reference: string, amount: real)
    | Confirm(confirmed: string)

  function Apply(db: Db, settings: Settings, op: Op): Db {
    match op
    case Run(t) => Atomic(db, settings, t).0
    case Record(order, user, method_, reference, amount) => RecordPayment(db, order, user, method_, reference, amount).0
    case Confirm(reference) => ConfirmPayment(db, reference).0
  }

  /** The database after the first k operations of a serial run. */
  function After(db: Db, settings: Settings, ops: seq<Op>, k: nat): Db
    requires k <= |ops|
  {
    if k == 0 then db else Apply(After(db, settings, ops, k - 1), settings, ops[k - 1])
  }
}
