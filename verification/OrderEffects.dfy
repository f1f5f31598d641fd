/**
 What each order operation leaves on file, column by column: whom a placed order belongs to, what a cancellation, a
 shipment and a payment change and what they do not (app/services/order_service.py).
 */
module OrderEffects {
  import opened Std
  import opened InventoryService
  import opened OrderModel
  import opened Sums
  import PaymentLaws
  import PaymentRaces
  import StockLaws

  // ---- checkout ----

  /** A placed order says who ordered, for whom and where to, and starts pending and unpaid; nothing else is touched. */
  lemma {:induction false} PlacedOrder(db: Db, settings: Settings, t: Txn)
    requires t.Checkout? && Atomic(db, settings, t).1.Placed?
    ensures var (after, outcome) := Atomic(db, settings, t);
      && |after.orders| == |db.orders| + 1 && after.orders[..|db.orders|] == db.orders && outcome.orderId == t.id
      && |after.invoices| == |db.invoices| + 1 && after.invoices[..|db.invoices|] == db.invoices
      && after.invoices[|db.invoices|].orderId == t.id
      && after == db.(rows := after.rows, carts := db.carts - {t.userId}, orders := after.orders,
                      invoices := after.invoices)
    ensures var order := Atomic(db, settings, t).0.orders[|db.orders|];
      && order.id == t.id && order.userId == Some(t.userId) && order.organizationId == t.organizationId
      && order.shippingAddressId == Some(t.addressId)
      && order.status == Pending && order.paymentStatus == AwaitingPayment
  {
  }

  /** Its items are the lines of the cart, each at its snapshot, else at the variant's price now, else at nothing. */
  lemma {:induction false} PlacedItems(db: Db, settings: Settings, t: Txn)
    requires t.Checkout? && Atomic(db, settings, t).1.Placed?
    ensures t.userId in db.carts && |Atomic(db, settings, t).0.orders| == |db.orders| + 1
    ensures var cart, items := db.carts[t.userId], Atomic(db, settings, t).0.orders[|db.orders|].items;
      && |items| == |cart|
      && forall k :: 0 <= k < |cart| ==>
           && items[k].variantId == cart[k].variantId
           && items[k].productId == (if cart[k].variant.Some? then cart[k].variant.value.productId else None)
           && items[k].quantity == Some(if cart[k].quantity.Some? then cart[k].quantity.value else 0)
           && (cart[k].priceSnapshot.Some? && cart[k].priceSnapshot != Some(0.0) ==>
                 items[k].unitPrice == cart[k].priceSnapshot.value)
           && (cart[k].priceSnapshot.None? || cart[k].priceSnapshot == Some(0.0) ==>
                 items[k].unitPrice == if cart[k].variant.Some? && cart[k].variant.value.price.Some?
                                       then cart[k].variant.value.price.value else 0.0)
  {
  }

  /** Which checkout is refused for what. */
  lemma {:induction false} CheckoutRefusals(db: Db, settings: Settings, t: Txn)
    requires t.Checkout?
    ensures var outcome := Atomic(db, settings, t).1;
      var empty := t.userId !in db.carts || db.carts[t.userId] == [];
      var known := (t.addressId, t.userId) in db.addresses;
      && (outcome == Failed(EmptyCart) <==> empty)
      && (outcome == Failed(InvalidAddress) <==> !empty && !known)
      && (outcome.Failed? && outcome.error.Stock? ==> !empty && known)
      && (outcome == Failed(DuplicateOrderId) ==> exists i :: 0 <= i < |db.orders| && db.orders[i].id == t.id)
      && (outcome.Placed? ==> !empty && known && forall i :: 0 <= i < |db.orders| ==> db.orders[i].id != t.id)
      && (outcome.Placed? || outcome.Failed?)
  {
  }

  /** A line without any row to lock is refused as if its stock were zero. */
  lemma {:induction false} NoRowIsNoStock(rows: seq<Row>, line: Line)
    requires line.op == Reserve
    requires forall i :: 0 <= i < |rows| ==>
      rows[i].variantId != line.variantId || (line.warehouseId.Some? && rows[i].warehouseId != line.warehouseId)
    ensures RunLine(rows, line) == Err(InsufficientStock(line.variantId, line.quantity, 0))
  {
    assert Pick(rows, line.variantId, line.warehouseId).None?;
  }

  /** Right after a checkout its user can cancel the order, and no one else finds it. */
  lemma {:induction false} PlacedOrderIsTheUsers(db: Db, settings: Settings, t: Txn, user: int)
    requires t.Checkout? && Atomic(db, settings, t).1.Placed?
    ensures var after := Atomic(db, settings, t).0; var outcome := Atomic(after, settings, CancelOrder(t.id, user)).1;
      && (outcome == Failed(OrderNotFound) <==> user != t.userId)
      && (outcome == CancelDone <==> user == t.userId)
  {
    var after := Atomic(db, settings, t).0;
    PlacedOrder(db, settings, t);
    CheckoutRefusals(db, settings, t);
    PlacedIsFound(db.orders, after.orders[|db.orders|]);
    assert after.orders == db.orders + [after.orders[|db.orders|]];
    CancelOutcomes(after, settings, t.id, user);
  }

  lemma {:induction false} PlacedIsFound(orders: seq<Order>, order: Order)
    requires forall i :: 0 <= i < |orders| ==> orders[i].id != order.id
    ensures FindOrder(orders + [order], order.id) == Some(|orders|)
  {
    assert (orders + [order])[|orders|].id == order.id;
  }

  // ---- cancellation ----

  /** Which cancellation is refused for what: one finds only one's own orders; pending, paid or confirmed ones go. */
  lemma {:induction false} CancelOutcomes(db: Db, settings: Settings, id: int, user: int)
    ensures var outcome := Atomic(db, settings, CancelOrder(id, user)).1; var found := FindOrder(db.orders, id);
      if found.None? || db.orders[found.value].userId != Some(user) then outcome == Failed(OrderNotFound)
      else
        var status := db.orders[found.value].status;
        if status == Cancelled then outcome == AlreadyCancelled
        else if status in {Pending, Paid, Confirmed} then outcome == CancelDone
        else outcome == Failed(NotCancellable(status))
  {
    var found := FindOrder(db.orders, id);
    if found.Some? {
      var lines := ItemLines(Release, db.orders[found.value].items);
      StockLaws.GivingBackNeverFails(db.rows, lines, Release, |lines|);
    }
  }

  /** Apart from the stock given back, a cancellation changes the status of that one order. */
  lemma {:induction false} CancelChanges(db: Db, settings: Settings, id: int, user: int)
    requires Atomic(db, settings, CancelOrder(id, user)).1 == CancelDone
    ensures FindOrder(db.orders, id).Some?
    ensures var after := Atomic(db, settings, CancelOrder(id, user)).0; var i := FindOrder(db.orders, id).value;
      after == db.(rows := after.rows, orders := db.orders[i := db.orders[i].(status := Cancelled)])
  {
  }

  /** With one row per variant, cancelling what was just ordered gives back exactly what the checkout reserved. */
  lemma {:induction false} CancelUndoesCheckout(db: Db, settings: Settings, t: Txn, v: int)
    requires StockLaws.Sane(db) && StockLaws.OneRowPerVariant(db.rows)
    requires t.Checkout? && Atomic(db, settings, t).1.Placed?
    ensures var ordered := Atomic(db, settings, t).0;
      var after := Atomic(ordered, settings, CancelOrder(t.id, t.userId)).0;
      && StockLaws.Held(after, v) == StockLaws.Held(db, v)
      && Total(after.rows, StockLaws.OnHandOf(v)) == Total(db.rows, StockLaws.OnHandOf(v))
      && StockLaws.Demand(after, v) == StockLaws.Demand(db, v)
  {
    var ordered, cancel := Atomic(db, settings, t).0, CancelOrder(t.id, t.userId);
    PlacedOrder(db, settings, t);
    CheckoutRefusals(db, settings, t);
    PlacedOrderIsTheUsers(db, settings, t, t.userId);
    var order := ordered.orders[|db.orders|];
    PlacedIsFound(db.orders, order);
    assert ordered.orders == db.orders + [order];
    StockLaws.StepKeepsSane(db, settings, Run(t));
    CheckoutHolds(db, settings, t, order);
    StockLaws.GiveBackDemand(ordered, settings, cancel, v);
    StockLaws.CheckoutDemand(db, settings, t, v);
    StockLaws.GiveBackAllExactly(ordered.rows, order.items, Release, |order.items|, v);
    OnHandStays(db, settings, t, v);
  }

  /** What a checkout leaves: no second row for a variant, and at least the order's units reserved. */
  lemma {:induction false} CheckoutHolds(db: Db, settings: Settings, t: Txn, order: Order)
    requires StockLaws.Sane(db) && StockLaws.OneRowPerVariant(db.rows)
    requires t.Checkout? && Atomic(db, settings, t).1.Placed?
    requires |Atomic(db, settings, t).0.orders| == |db.orders| + 1
    requires order == Atomic(db, settings, t).0.orders[|db.orders|]
    ensures var rows := Atomic(db, settings, t).0.rows;
      && StockLaws.SaneRows(rows) && StockLaws.OneRowPerVariant(rows) && StockLaws.CountsForward(order.items)
      && forall w :: Total(order.items, StockLaws.UnitsOf(w)) <= Total(rows, StockLaws.HeldOf(w))
  {
    var after := Atomic(db, settings, t).0;
    StockLaws.StepKeepsSane(db, settings, Run(t));
    forall w ensures Total(order.items, StockLaws.UnitsOf(w)) <= Total(after.rows, StockLaws.HeldOf(w)) {
      StockLaws.CheckoutDemand(db, settings, t, w);
      StockLaws.HeldIsNatural(db.rows, w);
    }
    StockLaws.CheckoutDemand(db, settings, t, 0);
  }

  lemma {:induction false} OnHandStays(db: Db, settings: Settings, t: Txn, v: int)
    requires StockLaws.Sane(db) && t.Checkout? && Atomic(db, settings, t).1.Placed?
    ensures Total(Atomic(db, settings, t).0.rows, StockLaws.OnHandOf(v)) == Total(db.rows, StockLaws.OnHandOf(v))
  {
    var lines := Begin(db, settings, t).lines;
    StockLaws.BeginLines(db, settings, t);
    StockLaws.LinesEffect(db.rows, lines, Reserve, |lines|, v);
  }

  // ---- shipment ----

  /** A shipment of an order on file is filed with its courier and tracking number, and marks that order shipped. */
  lemma {:induction false} ShipmentIsFiled(db: Db, settings: Settings, t: Txn)
    requires t.RecordShipment?
    ensures var (after, outcome) := Atomic(db, settings, t); var found := FindOrder(db.orders, t.orderId);
      if found.None? then after == db && outcome == Failed(OrderNotFound)
      else
        && outcome == ShipmentRecorded
        && after == db.(rows := after.rows,
                        orders := db.orders[found.value := db.orders[found.value].(status := Shipped)],
                        shipments := db.shipments + [Shipment(t.orderId, t.courierName, t.trackingNumber)])
  {
    var found := FindOrder(db.orders, t.orderId);
    if found.Some? {
      var lines := ItemLines(Fulfill, db.orders[found.value].items);
      StockLaws.GivingBackNeverFails(db.rows, lines, Fulfill, |lines|);
    }
  }

  /** What the first k operations file: each shipment of an order then on file. */
  function FiledTo(db: Db, settings: Settings, ops: seq<Op>, k: nat): seq<Shipment>
    requires k <= |ops|
  {
    if k == 0 then []
    else
      FiledTo(db, settings, ops, k - 1)
      + if ops[k - 1].Run? && ops[k - 1].t.RecordShipment?
           && FindOrder(After(db, settings, ops, k - 1).orders, ops[k - 1].t.orderId).Some?
        then [Shipment(ops[k - 1].t.orderId, ops[k - 1].t.courierName, ops[k - 1].t.trackingNumber)] else []
  }

  /** Over any serial run exactly those shipments are added, in that order. */
  lemma {:induction false} ShipmentsOnFile(db: Db, settings: Settings, ops: seq<Op>, k: nat)
    requires k <= |ops|
    ensures After(db, settings, ops, k).shipments == db.shipments + FiledTo(db, settings, ops, k)
  {
    if k > 0 {
      ShipmentsOnFile(db, settings, ops, k - 1);
      var before, op := After(db, settings, ops, k - 1), ops[k - 1];
      if op.Run? && op.t.RecordShipment? {
        ShipmentIsFiled(before, settings, op.t);
      } else {
        OthersFileNone(before, settings, op);
      }
    }
  }

  lemma {:induction false} OthersFileNone(db: Db, settings: Settings, op: Op)
    requires op.Run? ==> !op.t.RecordShipment?
    ensures Apply(db, settings, op).shipments == db.shipments
  {
  }

  // ---- payments ----

  /** A payment is recorded for the user's own order; a reference on file answers with the payment there is. */
  lemma {:induction false} PaymentIsRecorded(
    db: Db, orderId: int, userId: int, method_: string, reference: string, amount: real)
    ensures var (after, answer) := RecordPayment(db, orderId, userId, method_, reference, amount);
      var order, known := FindOrder(db.orders, orderId), FindPayment(db.payments, reference);
      if order.None? || db.orders[order.value].userId != Some(userId) then after == db && answer == Err(OrderNotFound)
      else
        && answer.Ok? && answer.value < |after.payments|
        && FindPayment(after.payments, reference) == Some(answer.value)
        && (known.Some? ==> after == db)
        && (known.None? ==>
              after == db.(payments := db.payments
                                       + [Payment(Some(orderId), method_, AwaitingPayment, reference, amount)]))
  {
    var after := RecordPayment(db, orderId, userId, method_, reference, amount).0;
    if after != db {
      assert after.payments[|db.payments|].reference == reference;
    }
  }

  /** A confirmation of an unpaid reference marks that payment received and its order paid; nothing else changes. */
  lemma {:induction false} ConfirmationChanges(db: Db, reference: string)
    ensures var (after, answer) := ConfirmPayment(db, reference); var p := FindPayment(db.payments, reference);
      && (answer <==> p.Some? && db.payments[p.value].status == AwaitingPayment)
      && (!answer ==> after == db)
      && (answer ==>
            && after == db.(payments := after.payments, orders := after.orders)
            && after.payments == db.payments[p.value := db.payments[p.value].(status := PaymentReceived)]
            && |after.orders| == |db.orders|
            && forall i :: 0 <= i < |db.orders| ==>
                 after.orders[i] ==
                   if db.payments[p.value].orderId.Some?
                      && FindOrder(db.orders, db.payments[p.value].orderId.value) == Some(i)
                   then db.orders[i].(paymentStatus := PaymentReceived,
                                      status := if db.orders[i].status == Pending then Confirmed
                                                else db.orders[i].status)
                   else db.orders[i])
  {
  }

  /**
   What was recorded under a new reference can be confirmed: whatever runs in between, other than a confirmation of
   that reference, the webhook's answer is true, and the order is paid, and confirmed if it was pending.
   */
  lemma {:induction false} RecordedCanBeConfirmed(db: Db, settings: Settings, orderId: int, userId: int,
      method_: string, reference: string, amount: real, ops: seq<Op>, k: nat)
    requires FindOrder(db.orders, orderId).Some?
    requires db.orders[FindOrder(db.orders, orderId).value].userId == Some(userId)
    requires FindPayment(db.payments, reference).None?
    requires k <= |ops| && forall j :: 0 <= j < k ==> ops[j] != Confirm(reference)
    ensures var recorded := RecordPayment(db, orderId, userId, method_, reference, amount).0;
      var now := After(recorded, settings, ops, k); var (paid, answer) := ConfirmPayment(now, reference);
      var i := FindOrder(db.orders, orderId).value;
      && answer && FindOrder(now.orders, orderId) == Some(i) && |paid.orders| == |now.orders|
      && paid.orders[i].paymentStatus == PaymentReceived
      && paid.orders[i].status == (if now.orders[i].status == Pending then Confirmed else now.orders[i].status)
  {
    var recorded := RecordPayment(db, orderId, userId, method_, reference, amount).0;
    var p, i := |db.payments|, FindOrder(db.orders, orderId).value;
    PaymentIsRecorded(db, orderId, userId, method_, reference, amount);
    assert recorded.payments[p].reference == reference;
    PaymentRaces.StaysAimed(recorded, settings, ops, k, reference, p, i);
    StaysUnpaid(recorded, settings, ops, k, reference);
    ConfirmationChanges(After(recorded, settings, ops, k), reference);
  }

  lemma {:induction false} StaysUnpaid(db: Db, settings: Settings, ops: seq<Op>, k: nat, reference: string)
    requires k <= |ops| && forall j :: 0 <= j < k ==> ops[j] != Confirm(reference)
    requires !PaymentLaws.IsPaid(db.payments, reference)
    ensures !PaymentLaws.IsPaid(After(db, settings, ops, k).payments, reference)
  {
    if k == 0 {
      assert After(db, settings, ops, 0) == db;
    } else {
      StaysUnpaid(db, settings, ops, k - 1, reference);
      PaymentLaws.OthersDoNotPay(After(db, settings, ops, k - 1), settings, ops[k - 1], reference);
      assert After(db, settings, ops, k) == Apply(After(db, settings, ops, k - 1), settings, ops[k - 1]);
    }
  }

  /** The payment an operation adds: one under a new reference, for the user's own order. */
  function Recorded(db: Db, op: Op): seq<Payment> {
    if op.Record? && FindPayment(db.payments, op.reference).None? && FindOrder(db.orders, op.orderId).Some?
       && db.orders[FindOrder(db.orders, op.orderId).value].userId == Some(op.userId)
    then [Payment(Some(op.orderId), op.method_, AwaitingPayment, op.reference, op.amount)] else []
  }

  /** What the first k operations record. */
  function RecordedTo(db: Db, settings: Settings, ops: seq<Op>, k: nat): seq<Payment>
    requires k <= |ops|
  {
    if k == 0 then []
    else RecordedTo(db, settings, ops, k - 1) + Recorded(After(db, settings, ops, k - 1), ops[k - 1])
  }

  /** The payments as they were recorded. */
  function AsRecorded(payments: seq<Payment>): seq<Payment> {
    seq(|payments|, i requires 0 <= i < |payments| => payments[i].(status := AwaitingPayment))
  }

  lemma {:induction false} StepRecords(db: Db, settings: Settings, op: Op)
    ensures AsRecorded(Apply(db, settings, op).payments) == AsRecorded(db.payments) + Recorded(db, op)
  {
    var after := Apply(db, settings, op);
    match op {
      case Run(t) => assert after.payments == db.payments;
      case Record(order, user, method_, reference, amount) =>
        PaymentIsRecorded(db, order, user, method_, reference, amount);
        assert after.payments == db.payments + Recorded(db, op);
      case Confirm(reference) => ConfirmationChanges(db, reference);
    }
  }

  /** Over any serial run exactly those payments are added, in that order, and only their statuses change. */
  lemma {:induction false} PaymentsOnFile(db: Db, settings: Settings, ops: seq<Op>, k: nat)
    requires k <= |ops|
    ensures AsRecorded(After(db, settings, ops, k).payments)
         == AsRecorded(db.payments) + RecordedTo(db, settings, ops, k)
  {
    if k == 0 {
      assert After(db, settings, ops, 0) == db;
    } else {
      PaymentsOnFile(db, settings, ops, k - 1);
      StepRecords(After(db, settings, ops, k - 1), settings, ops[k - 1]);
      assert After(db, settings, ops, k) == Apply(After(db, settings, ops, k - 1), settings, ops[k - 1]);
    }
  }

  // ---- orders over a run ----

  /** What of an order no operation changes. */
  function Paper(order: Order): Order {
    order.(status := Pending, paymentStatus := AwaitingPayment)
  }

  function Papers(orders: seq<Order>): seq<Order> {
    seq(|orders|, i requires 0 <= i < |orders| => Paper(orders[i]))
  }

  /** The id of the order an operation places. */
  function Places(db: Db, settings: Settings, op: Op): seq<int> {
    if op.Run? && op.t.Checkout? && Atomic(db, settings, op.t).1.Placed? then [op.t.id] else []
  }

  function PlacesTo(db: Db, settings: Settings, ops: seq<Op>, k: nat): seq<int>
    requires k <= |ops|
  {
    if k == 0 then []
    else PlacesTo(db, settings, ops, k - 1) + Places(After(db, settings, ops, k - 1), settings, ops[k - 1])
  }

  function OrderIds(orders: seq<Order>): seq<int> {
    seq(|orders|, i requires 0 <= i < |orders| => orders[i].id)
  }

  function InvoicedIds(invoices: seq<Invoice>): seq<int> {
    seq(|invoices|, i requires 0 <= i < |invoices| => invoices[i].orderId)
  }

  lemma {:induction false} StepKeepsPapers(db: Db, settings: Settings, op: Op)
    ensures var after := Apply(db, settings, op); var placed := Places(db, settings, op);
      && |after.orders| == |db.orders| + |placed|
      && Papers(after.orders)[..|db.orders|] == Papers(db.orders)
      && OrderIds(after.orders) == OrderIds(db.orders) + placed
      && InvoicedIds(after.invoices) == InvoicedIds(db.invoices) + placed
      && db.invoices <= after.invoices
  {
    var after := Apply(db, settings, op);
    match op {
      case Run(t) => TxnKeepsPapers(db, settings, t);
      case Record(order, user, method_, reference, amount) =>
        PaymentIsRecorded(db, order, user, method_, reference, amount);
      case Confirm(reference) => ConfirmationChanges(db, reference);
    }
    assert forall i :: 0 <= i < |db.orders| ==> Papers(after.orders)[..|db.orders|][i] == Papers(db.orders)[i];
    assert forall i :: 0 <= i < |db.orders| ==> after.orders[i].id == Papers(after.orders)[i].id;
  }

  /**
   Over any serial run orders and invoices are added by exactly the checkouts that succeed, in that order, and of an
   order on file only the two statuses ever change: user, address, items and amounts stay.
   */
  lemma {:induction false} OrdersOnFile(db: Db, settings: Settings, ops: seq<Op>, k: nat)
    requires k <= |ops|
    ensures var after := After(db, settings, ops, k);
      && |db.orders| <= |after.orders| && Papers(after.orders)[..|db.orders|] == Papers(db.orders)
      && OrderIds(after.orders) == OrderIds(db.orders) + PlacesTo(db, settings, ops, k)
      && InvoicedIds(after.invoices) == InvoicedIds(db.invoices) + PlacesTo(db, settings, ops, k)
      && db.invoices <= after.invoices
  {
    if k == 0 {
      assert After(db, settings, ops, 0) == db;
    } else {
      OrdersOnFile(db, settings, ops, k - 1);
      var before := After(db, settings, ops, k - 1);
      StepKeepsPapers(before, settings, ops[k - 1]);
      var after := Apply(before, settings, ops[k - 1]);
      assert After(db, settings, ops, k) == after;
      assert Papers(after.orders)[..|db.orders|] == Papers(after.orders)[..|before.orders|][..|db.orders|];
    }
  }

  lemma {:induction false} TxnKeepsPapers(db: Db, settings: Settings, t: Txn)
    ensures var (after, outcome) := Atomic(db, settings, t);
      && |after.orders| >= |db.orders| && Papers(after.orders)[..|db.orders|] == Papers(db.orders)
      && (!outcome.Placed? ==> |after.orders| == |db.orders| && after.invoices == db.invoices)
  {
    match t {
      case Checkout(_, _, _, _) =>
        if Atomic(db, settings, t).1.Placed? {
          PlacedOrder(db, settings, t);
        }
      case CancelOrder(id, user) =>
        if Atomic(db, settings, t).1 == CancelDone {
          CancelChanges(db, settings, id, user);
        }
      case RecordShipment(_, _, _) => ShipmentIsFiled(db, settings, t);
    }
  }
}
