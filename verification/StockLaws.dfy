/**
 What every serial run of the order transactions keeps about stock: rows stay sane, reservations
 cover live orders, and with one row per variant they match them exactly.
 */
module StockLaws {
  import opened Std
  import opened Sums
  import opened InventoryService
  import opened OrderModel

  // ---- measures, per variant ----

  function HeldOf(v: int): Row -> int {
    (row: Row) => if row.variantId == Some(v) then row.Held() else 0
  }

  function OnHandOf(v: int): Row -> int {
    (row: Row) => if row.variantId == Some(v) then row.OnHand() else 0
  }

  function UnitsOf(v: int): OrderItem -> int {
    (item: OrderItem) => if item.variantId == Some(v) then item.quantity.GetOr(0) else 0
  }

  function LineUnitsOf(v: int): Line -> int {
    (line: Line) => if line.variantId == Some(v) then line.quantity else 0
  }

  function LiveUnitsOf(v: int): Order -> int {
    (order: Order) => if HoldsReservation(order.status) then Total(order.items, UnitsOf(v)) else 0
  }

  function ShippedUnitsOf(v: int): Order -> int {
    (order: Order) => if order.status == Shipped then Total(order.items, UnitsOf(v)) else 0
  }

  /** Units of v reserved over all warehouses. */
  function Held(db: Db, v: int): int { Total(db.rows, HeldOf(v)) }

  /** Units of v in orders whose status still holds a reservation. */
  function Demand(db: Db, v: int): int { Total(db.orders, LiveUnitsOf(v)) }

  /** Units of v in the warehouses plus units in shipped orders. */
  function Accounted(db: Db, v: int): int {
    Total(db.rows, OnHandOf(v)) + Total(db.orders, ShippedUnitsOf(v))
  }

  // ---- invariants ----

  ghost predicate SaneRows(rows: seq<Row>) {
    forall i :: 0 <= i < |rows| ==> rows[i].Sane()
  }

  ghost predicate CountsForward(items: seq<OrderItem>) {
    forall i :: 0 <= i < |items| ==> items[i].quantity.GetOr(0) >= 0
  }

  ghost predicate Sane(db: Db) {
    SaneRows(db.rows) && forall i :: 0 <= i < |db.orders| ==> CountsForward(db.orders[i].items)
  }

  ghost predicate Covered(db: Db) {
    forall v :: Demand(db, v) <= Held(db, v)
  }

  /** No two rows for the same variant. */
  ghost predicate OneRowPerVariant(rows: seq<Row>) {
    forall i, j :: 0 <= i < j < |rows| && rows[i].variantId.Some? ==> rows[i].variantId != rows[j].variantId
  }

  ghost predicate Exact(db: Db) {
    OneRowPerVariant(db.rows) && forall v :: Demand(db, v) == Held(db, v)
  }

  ghost predicate AllOp(lines: seq<Line>, op: LineOp) {
    forall k :: 0 <= k < |lines| ==> lines[k].op == op
  }

  ghost predicate AllForward(lines: seq<Line>) {
    forall k :: 0 <= k < |lines| ==> lines[k].quantity >= 0
  }

  // ---- one line ----

  /** Effect of a line on the rows: sanity kept, keys kept, held units moved by at most its quantity. */
  lemma {:induction false} LineEffect(rows: seq<Row>, line: Line, v: int)
    requires SaneRows(rows) && RunLine(rows, line).Ok?
    requires line.op != Reserve ==> line.quantity >= 0
    ensures var after := RunLine(rows, line).value; var units := LineUnitsOf(v)(line);
      && SaneRows(after) && SameKeys(rows, after)
      && (line.op == Reserve ==>
            && line.quantity > 0
            && Total(after, HeldOf(v)) == Total(rows, HeldOf(v)) + units)
      && (line.op != Reserve ==> Total(after, HeldOf(v)) >= Total(rows, HeldOf(v)) - units)
      && (line.op != Fulfill ==> Total(after, OnHandOf(v)) == Total(rows, OnHandOf(v)))
  {
    var after := RunLine(rows, line).value;
    if !Skips(line) && Pick(rows, line.variantId, line.warehouseId).Some? {
      var i := Pick(rows, line.variantId, line.warehouseId).value;
      TotalUpdate(rows, HeldOf(v), i, after[i]);
      TotalUpdate(rows, OnHandOf(v), i, after[i]);
      assert after == rows[i := after[i]];
    }
  }

  // ---- many lines ----

  lemma {:induction false} LinesEffect(rows: seq<Row>, lines: seq<Line>, op: LineOp, k: nat, v: int)
    requires k <= |lines| && AllOp(lines, op) && SaneRows(rows) && RunTo(rows, lines, k).Ok?
    requires op != Reserve ==> AllForward(lines)
    ensures var after := RunTo(rows, lines, k).value; var units := Sum(lines, LineUnitsOf(v), k);
      && SaneRows(after) && SameKeys(rows, after)
      && (op == Reserve ==> Total(after, HeldOf(v)) == Total(rows, HeldOf(v)) + units)
      && (op != Reserve ==> Total(after, HeldOf(v)) >= Total(rows, HeldOf(v)) - units)
      && (op != Fulfill ==> Total(after, OnHandOf(v)) == Total(rows, OnHandOf(v)))
  {
    if k > 0 {
      LinesEffect(rows, lines, op, k - 1, v);
      LineEffect(RunTo(rows, lines, k - 1).value, lines[k - 1], v);
    }
  }

  /** Reserving asks a positive quantity of every line. */
  lemma {:induction false} ReservedLinesArePositive(rows: seq<Row>, lines: seq<Line>, k: nat)
    requires k <= |lines| && AllOp(lines, Reserve) && RunTo(rows, lines, k).Ok?
    ensures forall j :: 0 <= j < k ==> lines[j].quantity > 0
  {
    if k > 0 {
      ReservedLinesArePositive(rows, lines, k - 1);
    }
  }

  /** Releasing and fulfilling never raise. */
  lemma {:induction false} GivingBackNeverFails(rows: seq<Row>, lines: seq<Line>, op: LineOp, k: nat)
    requires k <= |lines| && AllOp(lines, op) && op != Reserve
    ensures RunTo(rows, lines, k).Ok?
  {
    if k > 0 {
      GivingBackNeverFails(rows, lines, op, k - 1);
    }
  }

  lemma {:induction false} CheckoutUnits(cart: seq<CartItem>, warehouse: Option<int>, v: int)
    ensures Total(CheckoutLines(cart, warehouse), LineUnitsOf(v)) == Total(PlannedItems(cart), UnitsOf(v))
  {
    SumSame(CheckoutLines(cart, warehouse), LineUnitsOf(v), PlannedItems(cart), UnitsOf(v), |cart|);
  }

  lemma {:induction false} ItemUnits(op: LineOp, items: seq<OrderItem>, v: int)
    ensures Total(ItemLines(op, items), LineUnitsOf(v)) == Total(items, UnitsOf(v))
  {
    SumSame(ItemLines(op, items), LineUnitsOf(v), items, UnitsOf(v), |items|);
  }

  // ---- one operation ----

  function OpOf(t: Txn): LineOp {
    match t
    case Checkout(_, _, _, _) => Reserve
    case CancelOrder(_, _) => Release
    case RecordShipment(_, _, _) => Fulfill
  }

  lemma {:induction false} BeginLines(db: Db, settings: Settings, t: Txn)
    requires Sane(db) && Begin(db, settings, t).Work?
    ensures AllOp(Begin(db, settings, t).lines, OpOf(t))
    ensures !t.Checkout? ==> AllForward(Begin(db, settings, t).lines)
  {
    if !t.Checkout? {
      var i := FindOrder(db.orders, t.orderId).value;
      assert CountsForward(db.orders[i].items);
    }
  }

  /** Every operation keeps rows sane: repeated shipment, shipping after cancelling, over-release included. */
  lemma {:induction false} StepKeepsSane(db: Db, settings: Settings, op: Op)
    requires Sane(db)
    ensures Sane(Apply(db, settings, op))
  {
    if op.Run? && Begin(db, settings, op.t).Work? {
      var Work(cart, lines) := Begin(db, settings, op.t);
      BeginLines(db, settings, op.t);
      if RunTo(db.rows, lines, |lines|).Ok? {
        LinesEffect(db.rows, lines, OpOf(op.t), |lines|, 0);
        if op.t.Checkout? {
          ReservedLinesArePositive(db.rows, lines, |lines|);
          assert forall k :: 0 <= k < |cart| ==> lines[k].quantity == cart[k].quantity.GetOr(0);
        }
      }
    }
  }

  /** In every reachable state of every serial run, each row has 0 <= reserved <= on hand. */
  lemma {:induction false} RowsStaySane(db: Db, settings: Settings, ops: seq<Op>, k: nat)
    requires Sane(db) && k <= |ops|
    ensures Sane(After(db, settings, ops, k))
  {
    if k > 0 {
      RowsStaySane(db, settings, ops, k - 1);
      StepKeepsSane(After(db, settings, ops, k - 1), settings, ops[k - 1]);
    }
  }

  // ---- reservations cover live orders ----

  /** Shipping an order that no longer holds a reservation. */
  predicate ShipsUnreserved(db: Db, op: Op) {
    op.Run? && op.t.RecordShipment?
    && var found := FindOrder(db.orders, op.t.orderId);
       found.Some? && !HoldsReservation(db.orders[found.value].status)
  }

  lemma {:induction false} CheckoutDemand(db: Db, settings: Settings, t: Txn, v: int)
    requires Sane(db) && t.Checkout?
    requires Atomic(db, settings, t).1.Placed?
    ensures var after := Atomic(db, settings, t).0; var units := Total(PlannedItems(db.carts[t.userId]), UnitsOf(v));
      && Demand(after, v) == Demand(db, v) + units
      && Held(after, v) == Held(db, v) + units
      && Accounted(after, v) == Accounted(db, v)
      && SameKeys(db.rows, after.rows)
  {
    var Work(cart, lines) := Begin(db, settings, t);
    BeginLines(db, settings, t);
    var order := NewOrder(settings, t, cart);
    LinesEffect(db.rows, lines, Reserve, |lines|, v);
    CheckoutUnits(cart, settings.defaultWarehouseId, v);
    TotalAppend(db.orders, LiveUnitsOf(v), order);
    TotalAppend(db.orders, ShippedUnitsOf(v), order);
  }

  /** Cancelling or shipping a reserved order takes its units off demand, and at most that many off the rows. */
  lemma {:induction false} GiveBackDemand(db: Db, settings: Settings, t: Txn, v: int)
    requires Sane(db) && !t.Checkout? && Begin(db, settings, t).Work?
    requires !ShipsUnreserved(db, Run(t))
    ensures var after := Atomic(db, settings, t).0; var i := FindOrder(db.orders, t.orderId).value;
      && Demand(after, v) == Demand(db, v) - Total(db.orders[i].items, UnitsOf(v))
      && Held(after, v) >= Held(db, v) - Total(db.orders[i].items, UnitsOf(v))
      && SameKeys(db.rows, after.rows)
  {
    var Work(cart, lines) := Begin(db, settings, t);
    BeginLines(db, settings, t);
    GivingBackNeverFails(db.rows, lines, OpOf(t), |lines|);
    LinesEffect(db.rows, lines, OpOf(t), |lines|, v);
    var i := FindOrder(db.orders, t.orderId).value;
    ItemUnits(OpOf(t), db.orders[i].items, v);
    var status := if t.CancelOrder? then Cancelled else Shipped;
    TotalUpdate(db.orders, LiveUnitsOf(v), i, db.orders[i].(status := status));
  }

  /** Payments move no stock. */
  lemma {:induction false} PaymentsMoveNothing(db: Db, settings: Settings, op: Op, v: int)
    requires !op.Run?
    ensures var after := Apply(db, settings, op);
      after.rows == db.rows && Demand(after, v) == Demand(db, v) && Accounted(after, v) == Accounted(db, v)
  {
    if op.Confirm? && Apply(db, settings, op).orders != db.orders {
      var p := FindPayment(db.payments, op.confirmed).value;
      var i := FindOrder(db.orders, db.payments[p].orderId.value).value;
      TotalUpdate(db.orders, LiveUnitsOf(v), i, PaidOrder(db.orders[i]));
      TotalUpdate(db.orders, ShippedUnitsOf(v), i, PaidOrder(db.orders[i]));
    }
  }

  // ---- shipping an order that holds no reservation ----

  /** Units the line takes off the row it lands on: all it asks, or all that row holds. */
  function Taken(rows: seq<Row>, line: Line): int {
    if Skips(line) then 0
    else
      var chosen := Pick(rows, line.variantId, line.warehouseId);
      if chosen.None? then 0 else Min(line.quantity, rows[chosen.value].Held())
  }

  /** Units of v the first k lines take off the rows. */
  function TakenTo(rows: seq<Row>, lines: seq<Line>, k: nat, v: int): int
    requires k <= |lines|
  {
    if k == 0 then 0
    else
      var before := RunTo(rows, lines, k - 1);
      TakenTo(rows, lines, k - 1, v)
      + if before.Ok? && lines[k - 1].variantId == Some(v) then Taken(before.value, lines[k - 1]) else 0
  }

  lemma {:induction false} HeldAfterTaking(rows: seq<Row>, lines: seq<Line>, op: LineOp, k: nat, v: int)
    requires k <= |lines| && AllOp(lines, op) && op != Reserve && AllForward(lines) && SaneRows(rows)
    ensures RunTo(rows, lines, k).Ok? && SaneRows(RunTo(rows, lines, k).value)
    ensures Total(RunTo(rows, lines, k).value, HeldOf(v)) == Total(rows, HeldOf(v)) - TakenTo(rows, lines, k, v)
  {
    if k > 0 {
      HeldAfterTaking(rows, lines, op, k - 1, v);
      var before, line := RunTo(rows, lines, k - 1).value, lines[k - 1];
      LineEffect(before, line, v);
      if !Skips(line) && Pick(before, line.variantId, line.warehouseId).Some? {
        var i := Pick(before, line.variantId, line.warehouseId).value;
        TotalUpdate(before, HeldOf(v), i, RunTo(rows, lines, k).value[i]);
      }
    }
  }

  /** Such a shipment takes no more of any variant than is reserved beyond what live orders are owed. */
  ghost predicate Affordable(db: Db, settings: Settings, op: Op) {
    ShipsUnreserved(db, op) ==>
      var lines := Begin(db, settings, op.t).lines;
      forall v :: TakenTo(db.rows, lines, |lines|, v) <= Held(db, v) - Demand(db, v)
  }

  /** Shipping without a reservation takes units off the rows and none off the demand. */
  lemma {:induction false} UnreservedShipmentTakes(db: Db, settings: Settings, t: Txn, v: int)
    requires Sane(db) && ShipsUnreserved(db, Run(t))
    ensures var after := Atomic(db, settings, t).0; var lines := Begin(db, settings, t).lines;
      Demand(after, v) == Demand(db, v) && Held(after, v) == Held(db, v) - TakenTo(db.rows, lines, |lines|, v)
  {
    var lines := Begin(db, settings, t).lines;
    var i := FindOrder(db.orders, t.orderId).value;
    BeginLines(db, settings, t);
    HeldAfterTaking(db.rows, lines, Fulfill, |lines|, v);
    TotalUpdate(db.orders, LiveUnitsOf(v), i, db.orders[i].(status := Shipped));
  }

  /** One step keeps reservations covering live orders exactly when it is affordable. */
  lemma {:induction false} StepKeepsCoveredIff(db: Db, settings: Settings, op: Op)
    requires Sane(db) && Covered(db)
    ensures Covered(Apply(db, settings, op)) <==> Affordable(db, settings, op)
  {
    var after := Apply(db, settings, op);
    if ShipsUnreserved(db, op) {
      forall v ensures Demand(after, v) <= Held(after, v) <==>
        TakenTo(db.rows, Begin(db, settings, op.t).lines, |Begin(db, settings, op.t).lines|, v)
          <= Held(db, v) - Demand(db, v)
      {
        UnreservedShipmentTakes(db, settings, op.t, v);
      }
    } else {
      StepKeepsCovered(db, settings, op);
    }
  }

  lemma {:induction false} StepKeepsCovered(db: Db, settings: Settings, op: Op)
    requires Sane(db) && Covered(db) && !ShipsUnreserved(db, op)
    ensures Covered(Apply(db, settings, op))
  {
    var after := Apply(db, settings, op);
    forall v ensures Demand(after, v) <= Held(after, v) {
      assert Demand(db, v) <= Held(db, v);
      if !op.Run? {
        PaymentsMoveNothing(db, settings, op, v);
      } else if op.t.Checkout? {
        if Atomic(db, settings, op.t).1.Placed? {
          CheckoutDemand(db, settings, op.t, v);
        } else {
          assert after == db;
        }
      } else if Begin(db, settings, op.t).Work? {
        GiveBackDemand(db, settings, op.t, v);
      }
    }
  }

  /** Each of the first k operations is affordable where it comes. */
  ghost predicate AffordableTo(db: Db, settings: Settings, ops: seq<Op>, k: nat)
    requires k <= |ops|
  {
    k > 0 ==>
      AffordableTo(db, settings, ops, k - 1) && Affordable(After(db, settings, ops, k - 1), settings, ops[k - 1])
  }

  /** In every state of the run up to the k-th, each variant's reserved total is at least what live orders are owed. */
  ghost predicate CoveredTo(db: Db, settings: Settings, ops: seq<Op>, k: nat)
    requires k <= |ops|
  {
    Covered(After(db, settings, ops, k)) && (k > 0 ==> CoveredTo(db, settings, ops, k - 1))
  }

  /**
   Over any serial run, whichever warehouse a cancellation or shipment hits, reservations cover live orders
   all along exactly when every shipment of an order without a reservation is affordable.
   */
  lemma {:induction false} ReservationsCoverOrdersIff(db: Db, settings: Settings, ops: seq<Op>, k: nat)
    requires k <= |ops| && Sane(db) && Covered(db)
    ensures CoveredTo(db, settings, ops, k) <==> AffordableTo(db, settings, ops, k)
  {
    if k > 0 {
      ReservationsCoverOrdersIff(db, settings, ops, k - 1);
      if CoveredTo(db, settings, ops, k - 1) {
        RowsStaySane(db, settings, ops, k - 1);
        StepKeepsCoveredIff(After(db, settings, ops, k - 1), settings, ops[k - 1]);
      }
    }
  }

  // ---- one row per variant: exactly ----

  /** The row the line lands on holds all of the line's quantity, so the clamp at zero does not fire. */
  predicate Unclamped(rows: seq<Row>, line: Line) {
    Skips(line)
    || var chosen := Pick(rows, line.variantId, line.warehouseId);
       if chosen.None? then line.quantity == 0 else line.quantity <= rows[chosen.value].Held()
  }

  lemma {:induction false} OneRowHoldsAll(rows: seq<Row>, i: nat, v: int)
    requires OneRowPerVariant(rows) && i < |rows| && rows[i].variantId == Some(v)
    ensures Total(rows, HeldOf(v)) == rows[i].Held()
    ensures Total(rows, OnHandOf(v)) == rows[i].OnHand()
  {
    SumSingle(rows, HeldOf(v), i, |rows|);
    SumSingle(rows, OnHandOf(v), i, |rows|);
  }

  /** Giving back no more than is held moves exactly the asked units, with no clamp. */
  lemma {:induction false} GiveBackExactly(rows: seq<Row>, line: Line, v: int)
    requires SaneRows(rows) && OneRowPerVariant(rows)
    requires line.op != Reserve && line.quantity >= 0 && line.warehouseId.None?
    requires line.variantId.Some? ==> line.quantity <= Total(rows, HeldOf(line.variantId.value))
    ensures Unclamped(rows, line)
    ensures var after := RunLine(rows, line).value; var units := LineUnitsOf(v)(line);
      && Total(after, HeldOf(v)) == Total(rows, HeldOf(v)) - units
      && Total(after, OnHandOf(v)) == Total(rows, OnHandOf(v)) - if line.op == Fulfill then units else 0
  {
    if line.variantId.Some? {
      var w := line.variantId.value;
      PickIsBest(rows, line.variantId, None);
      var chosen := Pick(rows, line.variantId, None);
      if chosen.Some? {
        var i := chosen.value;
        OneRowHoldsAll(rows, i, w);
        var after := RunLine(rows, line).value;
        TotalUpdate(rows, HeldOf(v), i, after[i]);
        TotalUpdate(rows, OnHandOf(v), i, after[i]);
      } else {
        forall j | 0 <= j < |rows| ensures HeldOf(w)(rows[j]) == 0 {
          assert j !in LockSet(rows, line.variantId, None);
        }
        SumZero(rows, HeldOf(w), |rows|);
      }
    }
  }

  ghost predicate UnclampedTo(rows: seq<Row>, lines: seq<Line>, k: nat)
    requires k <= |lines|
  {
    k > 0 ==>
      && UnclampedTo(rows, lines, k - 1)
      && RunTo(rows, lines, k - 1).Ok? && Unclamped(RunTo(rows, lines, k - 1).value, lines[k - 1])
  }

  lemma {:induction false} GiveBackAllExactly(rows: seq<Row>, items: seq<OrderItem>, op: LineOp, k: nat, v: int)
    requires k <= |items| && op != Reserve
    requires SaneRows(rows) && OneRowPerVariant(rows) && CountsForward(items)
    requires forall w :: Total(items, UnitsOf(w)) <= Total(rows, HeldOf(w))
    ensures var lines := ItemLines(op, items);
      && RunTo(rows, lines, k).Ok? && UnclampedTo(rows, lines, k)
      && var after := RunTo(rows, lines, k).value; var units := Sum(items, UnitsOf(v), k);
         && OneRowPerVariant(after) && SaneRows(after)
         && Total(after, HeldOf(v)) == Total(rows, HeldOf(v)) - units
         && Total(after, OnHandOf(v)) == Total(rows, OnHandOf(v)) - if op == Fulfill then units else 0
  {
    if k > 0 {
      var lines := ItemLines(op, items);
      var line := lines[k - 1];
      GiveBackAllExactly(rows, items, op, k - 1, v);
      var before := RunTo(rows, lines, k - 1).value;
      if line.variantId.Some? {
        var w := line.variantId.value;
        GiveBackAllExactly(rows, items, op, k - 1, w);
        SumMonotone(items, UnitsOf(w), k, |items|);
        assert Total(items, UnitsOf(w)) <= Total(rows, HeldOf(w));
      }
      GiveBackExactly(before, line, v);
      LineEffect(before, line, v);
    }
  }

  /** An order's units are part of the demand. */
  lemma {:induction false} OrderWithinDemand(db: Db, i: nat, v: int)
    requires Sane(db) && i < |db.orders| && HoldsReservation(db.orders[i].status)
    ensures 0 <= Total(db.orders[i].items, UnitsOf(v)) <= Demand(db, v)
  {
    forall j | 0 <= j < |db.orders| ensures LiveUnitsOf(v)(db.orders[j]) >= 0 {
      assert CountsForward(db.orders[j].items);
      SumMonotone(db.orders[j].items, UnitsOf(v), 0, |db.orders[j].items|);
    }
    SumMonotone(db.orders, LiveUnitsOf(v), 0, i);
    SumMonotone(db.orders, LiveUnitsOf(v), i + 1, |db.orders|);
  }

  /** With one row per variant the lines take the variant's units, or all there is. */
  lemma {:induction false} TakenIsMin(rows: seq<Row>, items: seq<OrderItem>, k: nat, v: int)
    requires k <= |items| && SaneRows(rows) && OneRowPerVariant(rows) && CountsForward(items)
    ensures TakenTo(rows, ItemLines(Fulfill, items), k, v) == Min(Sum(items, UnitsOf(v), k), Total(rows, HeldOf(v)))
  {
    var lines := ItemLines(Fulfill, items);
    if k == 0 {
      HeldIsNatural(rows, v);
    } else {
      TakenIsMin(rows, items, k - 1, v);
      HeldAfterTaking(rows, lines, Fulfill, k - 1, v);
      LinesEffect(rows, lines, Fulfill, k - 1, v);
      if lines[k - 1].variantId == Some(v) {
        OneRowTaken(RunTo(rows, lines, k - 1).value, lines[k - 1], v);
      }
    }
  }

  lemma {:induction false} HeldIsNatural(rows: seq<Row>, v: int)
    requires SaneRows(rows)
    ensures Total(rows, HeldOf(v)) >= 0
  {
    SumMonotone(rows, HeldOf(v), 0, |rows|);
  }

  lemma {:induction false} OneRowTaken(rows: seq<Row>, line: Line, v: int)
    requires SaneRows(rows) && OneRowPerVariant(rows) && line.variantId == Some(v) && line.warehouseId.None?
    requires line.quantity >= 0
    ensures Taken(rows, line) == Min(line.quantity, Total(rows, HeldOf(v)))
  {
    PickIsBest(rows, line.variantId, None);
    var chosen := Pick(rows, line.variantId, None);
    if chosen.Some? {
      OneRowHoldsAll(rows, chosen.value, v);
    } else {
      forall j | 0 <= j < |rows| ensures HeldOf(v)(rows[j]) == 0 {
        assert j !in LockSet(rows, line.variantId, None);
      }
      SumZero(rows, HeldOf(v), |rows|);
    }
  }

  /**
   With one row per variant, shipping an order without a reservation keeps live orders covered exactly when
   each of its variants is owed to no one or has that many units reserved beyond what is owed.
   */
  lemma {:induction false} UnreservedShipmentIff(db: Db, settings: Settings, t: Txn)
    requires Sane(db) && Covered(db) && OneRowPerVariant(db.rows) && ShipsUnreserved(db, Run(t))
    ensures var order := db.orders[FindOrder(db.orders, t.orderId).value];
      Covered(Atomic(db, settings, t).0) <==>
        forall v :: Demand(db, v) == 0 || Demand(db, v) + Total(order.items, UnitsOf(v)) <= Held(db, v)
  {
    var i := FindOrder(db.orders, t.orderId).value;
    var items := db.orders[i].items;
    assert Begin(db, settings, t).lines == ItemLines(Fulfill, items);
    StepKeepsCoveredIff(db, settings, Run(t));
    forall v
      ensures TakenTo(db.rows, ItemLines(Fulfill, items), |items|, v) <= Held(db, v) - Demand(db, v) <==>
        Demand(db, v) == 0 || Demand(db, v) + Total(items, UnitsOf(v)) <= Held(db, v)
    {
      TakenIsMin(db.rows, items, |items|, v);
      DemandIsNatural(db, v);
    }
  }

  lemma {:induction false} DemandIsNatural(db: Db, v: int)
    requires Sane(db)
    ensures Demand(db, v) >= 0
  {
    forall j | 0 <= j < |db.orders| ensures LiveUnitsOf(v)(db.orders[j]) >= 0 {
      assert CountsForward(db.orders[j].items);
      SumMonotone(db.orders[j].items, UnitsOf(v), 0, |db.orders[j].items|);
    }
    SumMonotone(db.orders, LiveUnitsOf(v), 0, |db.orders|);
  }

  /** The lines an operation would work meet no clamp. */
  ghost predicate MeetsNoClamp(db: Db, settings: Settings, op: Op) {
    op.Run? && !op.t.Checkout? && Begin(db, settings, op.t).Work? ==>
      var lines := Begin(db, settings, op.t).lines;
      UnclampedTo(db.rows, lines, |lines|)
  }

  lemma {:induction false} GiveBackKeepsExact(db: Db, settings: Settings, t: Txn, v: int)
    requires Sane(db) && Exact(db) && !t.Checkout? && Begin(db, settings, t).Work? && !ShipsUnreserved(db, Run(t))
    ensures var after := Atomic(db, settings, t).0; var lines := Begin(db, settings, t).lines;
      && Demand(after, v) == Held(after, v) && Accounted(after, v) == Accounted(db, v)
      && OneRowPerVariant(after.rows) && UnclampedTo(db.rows, lines, |lines|)
  {
    var i := FindOrder(db.orders, t.orderId).value;
    var items := db.orders[i].items;
    forall w ensures Total(items, UnitsOf(w)) <= Held(db, w) {
      OrderWithinDemand(db, i, w);
      assert Demand(db, w) == Held(db, w);
    }
    GiveBackAllExactly(db.rows, items, OpOf(t), |items|, v);
    GiveBackDemand(db, settings, t, v);
    assert Demand(db, v) == Held(db, v);
    var status := if t.CancelOrder? then Cancelled else Shipped;
    TotalUpdate(db.orders, ShippedUnitsOf(v), i, db.orders[i].(status := status));
  }

  lemma {:induction false} StepKeepsExact(db: Db, settings: Settings, op: Op)
    requires Sane(db) && Exact(db) && !ShipsUnreserved(db, op)
    ensures Exact(Apply(db, settings, op))
    ensures forall v :: Accounted(Apply(db, settings, op), v) == Accounted(db, v)
    ensures MeetsNoClamp(db, settings, op)
  {
    var after := Apply(db, settings, op);
    if op.Run? && !op.t.Checkout? && Begin(db, settings, op.t).Work? {
      GiveBackKeepsExact(db, settings, op.t, 0);
    }
    forall v ensures Demand(after, v) == Held(after, v) && Accounted(after, v) == Accounted(db, v) {
      assert Demand(db, v) == Held(db, v);
      if !op.Run? {
        PaymentsMoveNothing(db, settings, op, v);
      } else if op.t.Checkout? {
        if Atomic(db, settings, op.t).1.Placed? {
          CheckoutDemand(db, settings, op.t, v);
        } else {
          assert after == db;
        }
      } else if Begin(db, settings, op.t).Work? {
        GiveBackKeepsExact(db, settings, op.t, v);
      }
    }
    if op.Run? && op.t.Checkout? && Atomic(db, settings, op.t).1.Placed? {
      CheckoutDemand(db, settings, op.t, 0);
    }
  }

  /** Shipping without a reservation, if at all, an order without units. */
  ghost predicate ShipsNoUnits(db: Db, op: Op) {
    ShipsUnreserved(db, op) ==>
      var order := db.orders[FindOrder(db.orders, op.t.orderId).value];
      forall v :: Total(order.items, UnitsOf(v)) == 0
  }

  /** Reserved equals what is owed, nothing is unaccounted for, and no clamp fired on the way. */
  ghost predicate StepBalances(db: Db, settings: Settings, op: Op) {
    var after := Apply(db, settings, op);
    && Exact(after) && (forall v :: Accounted(after, v) == Accounted(db, v)) && MeetsNoClamp(db, settings, op)
  }

  lemma {:induction false} EmptyShipmentBalances(db: Db, settings: Settings, t: Txn)
    requires Sane(db) && Exact(db) && ShipsUnreserved(db, Run(t)) && ShipsNoUnits(db, Run(t))
    ensures StepBalances(db, settings, Run(t))
  {
    var i := FindOrder(db.orders, t.orderId).value;
    var items := db.orders[i].items;
    var after := Atomic(db, settings, t).0;
    forall w ensures Total(items, UnitsOf(w)) <= Total(db.rows, HeldOf(w)) {
      HeldIsNatural(db.rows, w);
    }
    GiveBackAllExactly(db.rows, items, Fulfill, |items|, 0);
    forall v ensures Demand(after, v) == Held(after, v) && Accounted(after, v) == Accounted(db, v) {
      assert Demand(db, v) == Held(db, v) && Total(items, UnitsOf(v)) == 0;
      GiveBackAllExactly(db.rows, items, Fulfill, |items|, v);
      TotalUpdate(db.orders, LiveUnitsOf(v), i, db.orders[i].(status := Shipped));
      TotalUpdate(db.orders, ShippedUnitsOf(v), i, db.orders[i].(status := Shipped));
    }
  }

  lemma {:induction false} ShipmentOfUnitsUnbalances(db: Db, settings: Settings, t: Txn)
    requires Sane(db) && Exact(db) && ShipsUnreserved(db, Run(t)) && !ShipsNoUnits(db, Run(t))
    ensures !StepBalances(db, settings, Run(t))
  {
    var i := FindOrder(db.orders, t.orderId).value;
    var lines := Begin(db, settings, t).lines;
    var after := Atomic(db, settings, t).0;
    var v :| Total(db.orders[i].items, UnitsOf(v)) != 0;
    BeginLines(db, settings, t);
    LossOfLines(db.rows, lines, Fulfill, |lines|);
    if UnclampedTo(db.rows, lines, |lines|) {
      ItemUnits(Fulfill, db.orders[i].items, v);
      TotalUpdate(db.orders, LiveUnitsOf(v), i, db.orders[i].(status := Shipped));
      assert Held(after, v) == Held(db, v) - Total(db.orders[i].items, UnitsOf(v));
      assert Demand(db, v) == Held(db, v) && Demand(after, v) != Held(after, v);
    }
  }

  lemma {:induction false} StepBalancesIff(db: Db, settings: Settings, op: Op)
    requires Sane(db) && Exact(db)
    ensures StepBalances(db, settings, op) <==> ShipsNoUnits(db, op)
  {
    if !ShipsUnreserved(db, op) {
      StepKeepsExact(db, settings, op);
    } else if ShipsNoUnits(db, op) {
      EmptyShipmentBalances(db, settings, op.t);
    } else {
      ShipmentOfUnitsUnbalances(db, settings, op.t);
    }
  }

  ghost predicate BalancesTo(db: Db, settings: Settings, ops: seq<Op>, k: nat)
    requires k <= |ops|
  {
    k > 0 ==>
      && BalancesTo(db, settings, ops, k - 1)
      && StepBalances(After(db, settings, ops, k - 1), settings, ops[k - 1])
  }

  ghost predicate ShipsNoUnitsTo(db: Db, settings: Settings, ops: seq<Op>, k: nat)
    requires k <= |ops|
  {
    k > 0 ==>
      ShipsNoUnitsTo(db, settings, ops, k - 1) && ShipsNoUnits(After(db, settings, ops, k - 1), ops[k - 1])
  }

  /**
   With one row per variant the books balance at every step of a serial run - reserved equals what live
   orders are owed, on hand plus shipped does not change, no clamp fires - exactly when no order with
   units is ever shipped without its reservation.
   */
  lemma {:induction false} BooksBalanceIff(db: Db, settings: Settings, ops: seq<Op>, k: nat)
    requires k <= |ops| && Sane(db) && Exact(db)
    ensures BalancesTo(db, settings, ops, k) <==> ShipsNoUnitsTo(db, settings, ops, k)
    ensures BalancesTo(db, settings, ops, k) ==> var after := After(db, settings, ops, k);
      Exact(after) && forall v :: Accounted(after, v) == Accounted(db, v)
  {
    if k > 0 {
      BooksBalanceIff(db, settings, ops, k - 1);
      if BalancesTo(db, settings, ops, k - 1) {
        RowsStaySane(db, settings, ops, k - 1);
        StepBalancesIff(After(db, settings, ops, k - 1), settings, ops[k - 1]);
      }
    }
  }

  // ---- several rows per variant: exactly when the books still balance ----

  /** One line gives back all its units exactly when it is not clamped; a clamp loses some for good. */
  lemma {:induction false} LossOfLine(rows: seq<Row>, line: Line, v: int)
    requires SaneRows(rows) && line.op != Reserve && line.quantity >= 0
    ensures var after := RunLine(rows, line).value; var units := LineUnitsOf(v)(line);
      && Total(after, HeldOf(v)) >= Total(rows, HeldOf(v)) - units
      && (line.variantId == Some(v) ==>
            (Total(after, HeldOf(v)) == Total(rows, HeldOf(v)) - units <==> Unclamped(rows, line)))
      && (line.variantId != Some(v) ==> Total(after, HeldOf(v)) == Total(rows, HeldOf(v)))
  {
    if !Skips(line) && Pick(rows, line.variantId, line.warehouseId).Some? {
      var i := Pick(rows, line.variantId, line.warehouseId).value;
      var after := RunLine(rows, line).value;
      TotalUpdate(rows, HeldOf(v), i, after[i]);
    }
  }

  /** Held units after k lines are short of the mark for no variant exactly when none was clamped. */
  lemma {:induction false} LossOfLines(rows: seq<Row>, lines: seq<Line>, op: LineOp, k: nat)
    requires k <= |lines| && AllOp(lines, op) && op != Reserve && AllForward(lines) && SaneRows(rows)
    ensures RunTo(rows, lines, k).Ok?
    ensures UnclampedTo(rows, lines, k) <==>
      forall v :: Total(RunTo(rows, lines, k).value, HeldOf(v))
               == Total(rows, HeldOf(v)) - Sum(lines, LineUnitsOf(v), k)
  {
    if k > 0 {
      LossOfLines(rows, lines, op, k - 1);
      var before := RunTo(rows, lines, k - 1).value;
      var after := RunTo(rows, lines, k).value;
      LinesEffect(rows, lines, op, k - 1, 0);
      if UnclampedTo(rows, lines, k) {
        forall v ensures Total(after, HeldOf(v)) == Total(rows, HeldOf(v)) - Sum(lines, LineUnitsOf(v), k) {
          LossOfLine(before, lines[k - 1], v);
        }
      } else {
        var lost :| !UnclampedTo(rows, lines, k - 1) ==>
          Total(before, HeldOf(lost)) != Total(rows, HeldOf(lost)) - Sum(lines, LineUnitsOf(lost), k - 1);
        var v := if UnclampedTo(rows, lines, k - 1) then lines[k - 1].variantId.value else lost;
        LinesEffect(rows, lines, op, k - 1, v);
        LossOfLine(before, lines[k - 1], v);
        assert Total(after, HeldOf(v)) > Total(rows, HeldOf(v)) - Sum(lines, LineUnitsOf(v), k);
      }
    }
  }

  ghost predicate Balanced(db: Db) {
    forall v :: Demand(db, v) == Held(db, v)
  }

  /**
   However many warehouses hold a variant: cancelling or shipping a reserved order keeps reserved equal
   to demand exactly when no line is clamped, that is when each line lands on a row holding its quantity.
   */
  lemma {:induction false} BalanceKeptIffUnclamped(db: Db, settings: Settings, t: Txn)
    requires Sane(db) && Balanced(db)
    requires !t.Checkout? && Begin(db, settings, t).Work? && !ShipsUnreserved(db, Run(t))
    ensures Balanced(Atomic(db, settings, t).0) <==>
      UnclampedTo(db.rows, Begin(db, settings, t).lines, |Begin(db, settings, t).lines|)
  {
    var lines := Begin(db, settings, t).lines;
    var after := Atomic(db, settings, t).0;
    var i := FindOrder(db.orders, t.orderId).value;
    BeginLines(db, settings, t);
    LossOfLines(db.rows, lines, OpOf(t), |lines|);
    forall v
      ensures Demand(after, v) == Demand(db, v) - Total(lines, LineUnitsOf(v)) && Demand(db, v) == Held(db, v)
      ensures Demand(after, v) == Held(after, v) <==>
        Total(after.rows, HeldOf(v)) == Total(db.rows, HeldOf(v)) - Sum(lines, LineUnitsOf(v), |lines|)
    {
      GiveBackDemand(db, settings, t, v);
      ItemUnits(OpOf(t), db.orders[i].items, v);
    }
  }

  /** The case does arise: cancelling lands on the other warehouse's row and reserved stays too high. */
  lemma {:induction false} CancelCanLeaveStockReserved(settings: Settings)
    ensures exists db: Db ::
      && Sane(db) && Balanced(db)
      && Atomic(db, settings, CancelOrder(1, 7)).1 == CancelDone
      && !Balanced(Atomic(db, settings, CancelOrder(1, 7)).0)
  {
    var here := Row(Some(5), Some(1), Some(3), Some(3));
    var there := Row(Some(5), Some(2), Some(4), Some(0));
    var item := OrderItem(Some(5), None, Some(3), 1.0);
    var order := Order(1, Some(7), None, None, Pending, AwaitingPayment, 3.0, [item]);
    var db := Db([here, there], map[], {}, [order], [], [], []);
    forall v ensures Demand(db, v) == Held(db, v) {
      TotalOfOne(order, LiveUnitsOf(v));
      TotalOfOne(item, UnitsOf(v));
      TotalOfTwo(here, there, HeldOf(v));
    }
    assert FindOrder(db.orders, 1) == Some(0) by {
      assert FindOrderUpTo(db.orders, 1, 1) == Some(0);
    }
    var lines := Begin(db, settings, CancelOrder(1, 7)).lines;
    assert Pick(db.rows, Some(5), None) == Some(1) by {
      PickIsBest(db.rows, Some(5), None);
      assert 1 in LockSet(db.rows, Some(5), None);
    }
    assert !Unclamped(db.rows, lines[0]);
    assert RunTo(db.rows, lines, 0) == Ok(db.rows);
    assert !UnclampedTo(db.rows, lines, 1);
    GivingBackNeverFails(db.rows, lines, Release, 1);
    BalanceKeptIffUnclamped(db, settings, CancelOrder(1, 7));
  }

  lemma {:induction false} TotalOfOne<T>(x: T, f: T -> int)
    ensures Total([x], f) == f(x)
  {
    assert Sum([x], f, 0) == 0;
  }

  lemma {:induction false} TotalOfTwo<T>(x: T, y: T, f: T -> int)
    ensures Total([x, y], f) == f(x) + f(y)
  {
    assert Sum([x, y], f, 1) == Sum([x, y], f, 0) + f(x);
  }
}
