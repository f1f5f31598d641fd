/**
 The order service as it is written: methods that lock a row, update it in place, and roll back on
 an error. Each is proved to do what the function of the same name in `OrderModel` says.
 */
module OrderService {
  import opened Std
  import opened InventoryService
  import opened OrderModel
  import Money

  class Store {
    const settings: Settings
    var rows: seq<Inventory>
    var carts: map<int, seq<CartItem>>
    var addresses: set<(int, int)>
    var orders: seq<Order>
    var invoices: seq<Invoice>
    var shipments: seq<Shipment>
    var payments: seq<Payment>

    constructor (settings: Settings, rows: seq<Inventory>)
      requires forall i, j :: 0 <= i < j < |rows| ==> rows[i] != rows[j]
      ensures Valid() && this.rows == rows && this.settings == settings
      ensures State() == Db(Values(), map[], {}, [], [], [], [])
    {
      this.settings := settings;
      this.rows := rows;
      carts := map[];
      addresses := {};
      orders, invoices, shipments, payments := [], [], [], [];
    }

    /** Table rows are distinct objects. */
    ghost predicate Valid()
      reads this
    {
      forall i, j :: 0 <= i < j < |rows| ==> rows[i] != rows[j]
    }

    function Values(): seq<Row>
      reads this`rows, rows
    {
      var table := rows;
      seq(|table|, i requires 0 <= i < |table| reads table => table[i].Value())
    }

    function State(): Db
      reads this, rows
    {
      Db(Values(), carts, addresses, orders, invoices, shipments, payments)
    }

    /** Scans the matching rows and keeps the best one so far. */
    method LockForVariant(variant: Option<int>, warehouse: Option<int>) returns (chosen: Option<nat>)
      ensures chosen == Pick(Values(), variant, warehouse)
    {
      chosen := None;
      for n := 0 to |rows|
        invariant chosen == PickUpTo(Values(), variant, warehouse, n)
      {
        var row := rows[n].Value();
        if Matches(row, variant, warehouse) {
          if chosen.None? || Better(row, rows[chosen.value].Value(), warehouse) {
            chosen := Some(n);
          }
        }
      }
    }

    /** Works one line against the row it locks. */
    method RunLineInPlace(line: Line) returns (error: Option<StockError>)
      requires Valid()
      modifies rows
      ensures SameKeys(old(Values()), Values())
      ensures error.None? ==> RunLine(old(Values()), line) == Ok(Values())
      ensures error.Some? ==> RunLine(old(Values()), line) == Err(error.value) && Values() == old(Values())
    {
      if Skips(line) {
        return None;
      }
      var chosen := LockForVariant(line.variantId, line.warehouseId);
      if chosen.None? {
        return if line.op == Reserve then Some(InsufficientStock(line.variantId, line.quantity, 0)) else None;
      }
      var i := chosen.value;
      error := None;
      match line.op {
        case Reserve => error := rows[i].Reserve(line.quantity);
        case Release => rows[i].Release(line.quantity);
        case Fulfill => rows[i].Fulfill(line.quantity);
      }
      assert error.None? ==> Values() == old(Values())[i := rows[i].Value()];
      assert error.Some? ==> Values() == old(Values());
    }

    /** Puts every row back to what it was when the transaction began. */
    method Rollback(before: seq<Row>)
      requires Valid() && SameKeys(before, Values())
      modifies rows
      ensures Values() == before
    {
      for k := 0 to |rows|
        invariant SameKeys(before, Values())
        invariant forall i :: 0 <= i < k ==> rows[i].Value() == before[i]
      {
        rows[k].quantity := before[k].quantity;
        rows[k].reservedQuantity := before[k].reserved;
      }
    }

    /** Reserves every line in cart order while summing what they cost; stops at the first error. */
    method ReserveCart(items: seq<CartItem>)
      returns (error: Option<StockError>, planned: seq<OrderItem>, subtotal: real)
      requires Valid()
      modifies rows
      ensures SameKeys(old(Values()), Values())
      ensures var lines := CheckoutLines(items, settings.defaultWarehouseId);
        RunTo(old(Values()), lines, |items|) == if error.None? then Ok(Values()) else Err(error.value)
      ensures error.None? ==> planned == PlannedItems(items) && subtotal == Subtotal(planned)
    {
      ghost var lines := CheckoutLines(items, settings.defaultWarehouseId);
      ghost var before, plan := Values(), PlannedItems(items);
      error, planned, subtotal := None, [], 0.0;
      for k := 0 to |items|
        invariant error.None? && RunTo(before, lines, k) == Ok(Values())
        invariant SameKeys(before, Values())
        invariant planned == plan[..k]
        invariant subtotal == SubtotalTo(plan, k)
      {
        ghost var reached := Values();
        error := RunLineInPlace(CheckoutLine(items[k], settings.defaultWarehouseId));
        RunToStep(before, lines, k, reached);
        if error.Some? {
          return;
        }
        var item := PlannedItem(items[k]);
        assert plan[..k + 1] == plan[..k] + [item];
        subtotal := subtotal + LineTotal(item);
        planned := planned + [item];
      }
    }

    method PlaceOrder(userId: int, organizationId: Option<int>, addressId: int, id: int) returns (outcome: Outcome)
      requires Valid()
      modifies this, rows
      ensures Valid() && rows == old(rows)
      ensures (State(), outcome) == Atomic(old(State()), settings, Checkout(userId, organizationId, addressId, id))
    {
      if userId !in carts || carts[userId] == [] {
        return Failed(EmptyCart);
      }
      if (addressId, userId) !in addresses {
        return Failed(InvalidAddress);
      }
      var before := Values();
      var error, planned, subtotal := ReserveCart(carts[userId]);
      if error.Some? {
        Rollback(before);
        return Failed(Stock(error.value));
      }
      if FindOrder(orders, id).Some? {
        Rollback(before);
        return Failed(DuplicateOrderId);
      }
      var gst := Money.Gst(subtotal, settings.gstRate);
      var total := Money.Total(subtotal, settings.gstRate);
      orders := orders + [Order(id, Some(userId), organizationId, Some(addressId), Pending, AwaitingPayment,
                                total, planned)];
      invoices := invoices + [Invoice(id, gst, total)];
      carts := carts - {userId};
      outcome := Placed(id, total);
    }

    method Cancel(orderId: int, userId: int) returns (outcome: Outcome)
      requires Valid()
      modifies this, rows
      ensures Valid() && rows == old(rows)
      ensures (State(), outcome) == Atomic(old(State()), settings, CancelOrder(orderId, userId))
    {
      var found := FindOrder(orders, orderId);
      if found.None? || orders[found.value].userId != Some(userId) {
        return Failed(OrderNotFound);
      }
      var order := orders[found.value];
      if order.status == Cancelled {
        return AlreadyCancelled;
      }
      if !HoldsReservation(order.status) {
        return Failed(NotCancellable(order.status));
      }
      RunItems(Release, order.items);
      orders := orders[found.value := order.(status := Cancelled)];
      outcome := CancelDone;
    }

    method Ship(orderId: int, courierName: string, trackingNumber: string) returns (outcome: Outcome)
      requires Valid()
      modifies this, rows
      ensures Valid() && rows == old(rows)
      ensures (State(), outcome)
           == Atomic(old(State()), settings, RecordShipment(orderId, courierName, trackingNumber))
    {
      var found := FindOrder(orders, orderId);
      if found.None? {
        return Failed(OrderNotFound);
      }
      var order := orders[found.value];
      RunItems(Fulfill, order.items);
      shipments := shipments + [Shipment(orderId, courierName, trackingNumber)];
      orders := orders[found.value := order.(status := Shipped)];
      outcome := ShipmentRecorded;
    }

    /** The loop cancelling and shipping share: every line releases or fulfils, none can fail. */
    method RunItems(op: LineOp, items: seq<OrderItem>)
      requires Valid() && op != Reserve
      modifies rows
      ensures RunTo(old(Values()), ItemLines(op, items), |items|) == Ok(Values())
    {
      ghost var lines := ItemLines(op, items);
      for k := 0 to |items|
        invariant RunTo(old(Values()), lines, k) == Ok(Values())
      {
        var error := RunLineInPlace(ItemLine(op, items[k]));
        assert error.None?;
      }
    }

    method RecordPaymentInPlace(orderId: int, userId: int, method_: string, reference: string, amount: real)
      returns (result: Result<nat, OrderError>)
      modifies this`payments
      ensures (State(), result) == RecordPayment(old(State()), orderId, userId, method_, reference, amount)
    {
      var found := FindOrder(orders, orderId);
      if found.None? || orders[found.value].userId != Some(userId) {
        return Err(OrderNotFound);
      }
      var existing := FindPayment(payments, reference);
      if existing.Some? {
        return Ok(existing.value);
      }
      payments := payments + [Payment(Some(orderId), method_, AwaitingPayment, reference, amount)];
      result := Ok(|payments| - 1);
    }

    method ConfirmPaymentInPlace(reference: string) returns (applied: bool)
      modifies this`payments, this`orders
      ensures (State(), applied) == ConfirmPayment(old(State()), reference)
    {
      var found := FindPayment(payments, reference);
      if found.None? || payments[found.value].status == PaymentReceived {
        return false;
      }
      var payment := payments[found.value];
      payments := payments[found.value := payment.(status := PaymentReceived)];
      if payment.orderId.Some? {
        var owner := FindOrder(orders, payment.orderId.value);
        if owner.Some? {
          var order := orders[owner.value].(paymentStatus := PaymentReceived);
          if order.status == Pending {
            order := order.(status := Confirmed);
          }
          orders := orders[owner.value := order];
        }
      }
      applied := true;
    }
  }

  /** One more line: the run goes on from where it was, or has failed for good. */
  lemma {:induction false} RunToStep(rows: seq<Row>, lines: seq<Line>, k: nat, reached: seq<Row>)
    requires k < |lines| && RunTo(rows, lines, k) == Ok(reached)
    ensures RunLine(reached, lines[k]).Ok? ==> RunTo(rows, lines, k + 1) == RunLine(reached, lines[k])
    ensures RunLine(reached, lines[k]).Err? ==> RunTo(rows, lines, |lines|) == RunLine(reached, lines[k])
  {
    if RunLine(reached, lines[k]).Err? {
      RunToStopsAtError(rows, lines, k + 1, |lines|);
    }
  }
}
