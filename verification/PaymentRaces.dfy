/**
 A payment confirmation is not one step: it reads the payment and its order without a lock and writes them
 later, and other operations may commit in between. When the late write still does what a confirmation run
 whole at that point would have done, and what goes wrong when it does not.
 */
module PaymentRaces {
  import opened Std
  import opened InventoryService
  import opened OrderModel
  import opened PaymentLaws
  import opened Shop
  import StockLaws

  /** What a confirmation has decided to write: the payment's place, its order's, and whether to confirm the order. */
  datatype Decision = Decision(payment: nat, order: Option<nat>, promotes: bool)

  /**
   The reads: the payment in one database, its order in a later one; None when the payment already tells that the
   answer is false.
   */
  function Decide(db: Db, later: Db, reference: string): Option<Decision> {
    match FindPayment(db.payments, reference)
    case None => None
    case Some(p) =>
      if db.payments[p].status == PaymentReceived then None
      else
        var owner := if db.payments[p].orderId.None? then None
                     else FindOrder(later.orders, db.payments[p].orderId.value);
        Some(Decision(p, owner, owner.Some? && later.orders[owner.value].status == Pending))
  }

  predicate Fits(db: Db, d: Decision) {
    d.payment < |db.payments| && (d.order.Some? ==> d.order.value < |db.orders|)
  }

  /** The writes: the columns that were set, whatever the rows hold by now. */
  function Write(db: Db, d: Decision): Db
    requires Fits(db, d)
  {
    var paid := db.(payments := db.payments[d.payment := db.payments[d.payment].(status := PaymentReceived)]);
    match d.order
    case None => paid
    case Some(i) =>
      var order := db.orders[i].(paymentStatus := PaymentReceived);
      paid.(orders := db.orders[i := if d.promotes then order.(status := Confirmed) else order])
  }

  /** With nothing in between, deciding and writing is the confirmation. */
  lemma {:induction false} ConfirmIsDecideThenWrite(db: Db, reference: string)
    ensures var d := Decide(db, db, reference);
      && (d.Some? ==> Fits(db, d.value))
      && ConfirmPayment(db, reference) == if d.None? then (db, false) else (Write(db, d.value), true)
  {
    var d := Decide(db, db, reference);
    if d.Some? && d.value.order.Some? {
      var order := db.orders[d.value.order.value];
      assert !d.value.promotes ==> PaidOrder(order) == order.(paymentStatus := PaymentReceived);
    }
  }

  // ---- what the operations in between leave alone ----

  /** Orders keep their places and their ids, and none becomes pending again. */
  ghost predicate OrdersKept(before: Db, after: Db) {
    && |before.orders| <= |after.orders|
    && forall i :: 0 <= i < |before.orders| ==>
         && after.orders[i].id == before.orders[i].id
         && (after.orders[i].status == Pending ==> before.orders[i].status == Pending)
  }

  lemma {:induction false} StepKeepsOrders(db: Db, settings: Settings, op: Op)
    ensures OrdersKept(db, Apply(db, settings, op))
  {
  }

  lemma {:induction false} SamePlace(before: Db, after: Db, id: int)
    requires OrdersKept(before, after) && FindOrder(before.orders, id).Some?
    ensures FindOrder(after.orders, id) == FindOrder(before.orders, id)
  {
    assert after.orders[FindOrder(before.orders, id).value].id == id;
  }

  lemma {:induction false} RunKeepsOrders(db: Db, settings: Settings, ops: seq<Op>, j: nat, k: nat)
    requires j <= k <= |ops|
    ensures OrdersKept(After(db, settings, ops, j), After(db, settings, ops, k))
  {
    if j < k {
      RunKeepsOrders(db, settings, ops, j, k - 1);
      StepKeepsOrders(After(db, settings, ops, k - 1), settings, ops[k - 1]);
      assert After(db, settings, ops, k) == Apply(After(db, settings, ops, k - 1), settings, ops[k - 1]);
    }
  }

  /** That payment, unpaid at first, of the order at that place. */
  predicate PaymentOf(db: Db, reference: string, p: nat, i: nat) {
    && FindPayment(db.payments, reference) == Some(p)
    && db.payments[p].orderId.Some? && FindOrder(db.orders, db.payments[p].orderId.value) == Some(i)
  }

  /** The same payment of the same order; if it has been paid, the order is not pending. */
  predicate StillAimed(db: Db, after: Db, reference: string, p: nat, i: nat)
    requires PaymentOf(db, reference, p, i)
  {
    && PaymentOf(after, reference, p, i)
    && after.payments[p].orderId == db.payments[p].orderId
    && (after.payments[p].status == PaymentReceived ==> after.orders[i].status != Pending)
  }

  lemma {:induction false} StepKeepsAim(db: Db, before: Db, settings: Settings, op: Op, reference: string,
      p: nat, i: nat)
    requires PaymentOf(db, reference, p, i) && StillAimed(db, before, reference, p, i)
    ensures StillAimed(db, Apply(before, settings, op), reference, p, i)
  {
    StepKeepsOrders(before, settings, op);
    StillRecorded(before, settings, op, reference);
    SamePlace(before, Apply(before, settings, op), db.payments[p].orderId.value);
  }

  lemma {:induction false} StaysAimed(db: Db, settings: Settings, ops: seq<Op>, k: nat, reference: string,
      p: nat, i: nat)
    requires k <= |ops| && PaymentOf(db, reference, p, i) && db.payments[p].status != PaymentReceived
    ensures StillAimed(db, After(db, settings, ops, k), reference, p, i)
  {
    if k == 0 {
      assert After(db, settings, ops, 0) == db;
    } else {
      StaysAimed(db, settings, ops, k - 1, reference, p, i);
      StepKeepsAim(db, After(db, settings, ops, k - 1), settings, ops[k - 1], reference, p, i);
      assert After(db, settings, ops, k) == Apply(After(db, settings, ops, k - 1), settings, ops[k - 1]);
    }
  }

  // ---- the late write ----

  /** A decision to confirm the order was overtaken: the order is neither pending nor confirmed now. */
  predicate Overtaken(now: Db, d: Decision)
    requires Fits(now, d)
  {
    d.promotes && d.order.Some? && now.orders[d.order.value].status !in {Pending, Confirmed}
  }

  /**
   Whatever runs between the reading of the payment, that of its order and the writes of a confirmation, the late write
   leaves the database a confirmation run whole at that point would leave, exactly when it was not overtaken.
   */
  lemma {:induction false} LateConfirmationIsSerialIff(
      db: Db, settings: Settings, ops: seq<Op>, j: nat, k: nat, reference: string, d: Decision)
    requires j <= k <= |ops| && Consistent(db)
    requires Decide(db, After(db, settings, ops, j), reference) == Some(d)
    ensures var now := After(db, settings, ops, k);
      && Fits(now, d)
      && (Write(now, d) == ConfirmPayment(now, reference).0 <==> !Overtaken(now, d))
  {
    var later, now, p := After(db, settings, ops, j), After(db, settings, ops, k), d.payment;
    var i := FindOrder(db.orders, db.payments[p].orderId.value).value;
    StaysAimed(db, settings, ops, j, reference, p, i);
    StaysAimed(db, settings, ops, k, reference, p, i);
    RunKeepsOrders(db, settings, ops, j, k);
    PaymentsStayConsistent(db, settings, ops, k);
    WriteIsSerialIff(later, now, reference, p, i, d);
  }

  lemma {:induction false} WriteIsSerialIff(later: Db, now: Db, reference: string, p: nat, i: nat, d: Decision)
    requires PaymentOf(later, reference, p, i) && StillAimed(later, now, reference, p, i)
    requires d == Decision(p, Some(i), later.orders[i].status == Pending) && OrdersKept(later, now) && Consistent(now)
    ensures Fits(now, d)
    ensures Write(now, d) == ConfirmPayment(now, reference).0 <==> !Overtaken(now, d)
  {
    if now.payments[p].status == PaymentReceived {
      assert HasPaidPayment(now.payments, now.orders[i].id);
      assert now.payments[p := now.payments[p].(status := PaymentReceived)] == now.payments;
      if !Overtaken(now, d) {
        assert Write(now, d).orders == now.orders;
      }
    }
    assert Write(now, d).orders[i].status == if d.promotes then Confirmed else now.orders[i].status;
  }

  /**
   Overlapping replays of one webhook: when each reads before either writes, both answer true, exactly when
   the reference is on file unpaid; the second write changes nothing more.
   */
  lemma {:induction false} OverlappingReplays(db: Db, reference: string)
    requires Consistent(db)
    ensures Decide(db, db, reference).Some? <==> ConfirmPayment(db, reference).1
    ensures Decide(db, db, reference).Some? ==>
      var d := Decide(db, db, reference).value;
      && Fits(Write(db, d), d)
      && Write(Write(db, d), d) == Write(db, d) == ConfirmPayment(db, reference).0
      && !ConfirmPayment(ConfirmPayment(db, reference).0, reference).1
  {
    ConfirmIsDecideThenWrite(db, reference);
    if Decide(db, db, reference).Some? {
      var d := Decide(db, db, reference).value;
      var once := Write(db, d);
      assert once.payments[d.payment := once.payments[d.payment].(status := PaymentReceived)] == once.payments;
      if d.order.Some? {
        assert Write(once, d).orders == once.orders;
      }
      ConfirmTrueIff(db, reference);
      ConfirmTrueIff(once, reference);
    }
  }

  // ---- a decision that is overtaken ----

  const REFERENCE := "r"
  const CANCEL := CancelOrder(1, 7)

  /** The small shop with a payment recorded for its first order. */
  function Unpaid(): Db {
    Stocked(1, 7, 4, 4, Pending).(payments := [Payment(Some(1), "", AwaitingPayment, REFERENCE, 2.0)])
  }

  /** Payments play no part in giving stock back. */
  lemma {:induction false} CancelledUnpaid(settings: Settings)
    ensures Atomic(Unpaid(), settings, CANCEL).0 == Stocked(1, 7, 4, 2, Cancelled).(payments := Unpaid().payments)
  {
    GiveBackFirst(settings, 1, 7, 4, 4, Pending, CANCEL);
    assert Begin(Unpaid(), settings, CANCEL) == Begin(Stocked(1, 7, 4, 4, Pending), settings, CANCEL);
  }

  lemma {:induction false} PaymentsCoverNoStock(db: Db, payments: seq<Payment>)
    ensures StockLaws.Covered(db.(payments := payments)) <==> StockLaws.Covered(db)
  {
    forall v ensures StockLaws.Demand(db.(payments := payments), v) == StockLaws.Demand(db, v)
                  && StockLaws.Held(db.(payments := payments), v) == StockLaws.Held(db, v)
    {
    }
  }

  /** The status of the order with that id. */
  function StatusOf(orders: seq<Order>, id: int): Option<OrderStatus> {
    var found := FindOrder(orders, id);
    if found.None? then None else Some(orders[found.value].status)
  }

  lemma {:induction false} DecidesToPromote()
    ensures Decide(Unpaid(), Unpaid(), REFERENCE) == Some(Decision(0, Some(0), true))
  {
    assert Unpaid().payments[0].reference == REFERENCE;
    FirstOrderFound(1, 7, Pending);
  }

  /** A cancellation of a reserved order succeeds, whatever the payment columns hold. */
  lemma {:induction false} CancelSucceeds(db: Db, settings: Settings)
    requires FindOrder(db.orders, 1) == Some(0) && db.orders[0].userId == Some(7)
    requires HoldsReservation(db.orders[0].status)
    ensures Atomic(db, settings, CANCEL).0.orders == SetStatus(db.orders, 0, Cancelled)
  {
    var lines := ItemLines(Release, db.orders[0].items);
    StockLaws.GivingBackNeverFails(db.rows, lines, Release, |lines|);
  }

  /** Both orders live, two units held. */
  lemma {:induction false} ConfirmedIsUncovered(order: Order, payments: seq<Payment>)
    requires order.items == [ITEM] && order.status == Confirmed
    ensures !StockLaws.Covered(Db([Shelf(4, 2)], map[], {}, [order, PendingOrder(2, 7)], [], [], payments))
  {
    var db := Db([Shelf(4, 2)], map[], {}, [order, PendingOrder(2, 7)], [], [], payments);
    StockLaws.TotalOfTwo(order, PendingOrder(2, 7), StockLaws.LiveUnitsOf(5));
    StockLaws.TotalOfOne(ITEM, StockLaws.UnitsOf(5));
    StockLaws.TotalOfOne(Shelf(4, 2), StockLaws.HeldOf(5));
    assert StockLaws.Demand(db, 5) == 4 && StockLaws.Held(db, 5) == 2;
  }

  lemma {:induction false} CoveredUntilThen(settings: Settings)
    ensures StockLaws.Covered(Unpaid()) && StockLaws.Covered(Atomic(Unpaid(), settings, CANCEL).0)
  {
    CancelledUnpaid(settings);
    CoveredIff(1, 7, 4, 4, Pending);
    CoveredIff(1, 7, 4, 2, Cancelled);
    PaymentsCoverNoStock(Stocked(1, 7, 4, 4, Pending), Unpaid().payments);
    PaymentsCoverNoStock(Stocked(1, 7, 4, 2, Cancelled), Unpaid().payments);
  }

  /** The order's row after a confirmation has written it, late or in time. */
  const PROMOTED := PendingOrder(1, 7).(status := Confirmed, paymentStatus := PaymentReceived)

  lemma {:induction false} WritesPromoted(db: Db, order: Order)
    requires |db.payments| == 1 && db.orders == [order, PendingOrder(2, 7)]
    requires order == PendingOrder(1, 7).(status := order.status)
    ensures Write(db, Decision(0, Some(0), true)).orders == [PROMOTED, PendingOrder(2, 7)]
  {
  }

  lemma {:induction false} FirstFound(order: Order)
    requires order.id == 1
    ensures FindOrder([order, PendingOrder(2, 7)], 1) == Some(0)
  {
    assert [order, PendingOrder(2, 7)][0].id == 1;
  }

  lemma {:induction false} ConfirmedAfterCancelling()
    ensures var cancelled := Stocked(1, 7, 4, 2, Cancelled).(payments := Unpaid().payments);
      StatusOf(ConfirmPayment(cancelled, REFERENCE).0.orders, 1) == Some(Cancelled)
  {
    var cancelled := Stocked(1, 7, 4, 2, Cancelled).(payments := Unpaid().payments);
    assert cancelled.payments[0].reference == REFERENCE;
    FirstOrderFound(1, 7, Cancelled);
    var order := PaidOrder(PendingOrder(1, 7).(status := Cancelled));
    assert cancelled.orders[0 := order] == [order, PendingOrder(2, 7)];
    FirstFound(order);
  }

  lemma {:induction false} ConfirmedBeforeCancelling(settings: Settings)
    ensures StatusOf(Atomic(ConfirmPayment(Unpaid(), REFERENCE).0, settings, CANCEL).0.orders, 1) == Some(Cancelled)
  {
    DecidesToPromote();
    ConfirmIsDecideThenWrite(Unpaid(), REFERENCE);
    assert PendingOrder(1, 7) == PendingOrder(1, 7).(status := Pending);
    WritesPromoted(Unpaid(), PendingOrder(1, 7));
    FirstFound(PROMOTED);
    CancelSucceeds(ConfirmPayment(Unpaid(), REFERENCE).0, settings);
    assert SetStatus([PROMOTED, PendingOrder(2, 7)], 0, Cancelled)
        == [PROMOTED.(status := Cancelled), PendingOrder(2, 7)];
    FirstFound(PROMOTED.(status := Cancelled));
  }

  /** A confirmation decided, the order cancelled, then the confirmation written. */
  lemma {:induction false} WrittenAfterCancelling(settings: Settings)
    ensures var cancelled := Atomic(Unpaid(), settings, CANCEL).0; var d := Decision(0, Some(0), true);
      && Fits(cancelled, d)
      && !StockLaws.Covered(Write(cancelled, d))
      && StatusOf(Write(cancelled, d).orders, 1) == Some(Confirmed)
  {
    var cancelled, d := Stocked(1, 7, 4, 2, Cancelled).(payments := Unpaid().payments), Decision(0, Some(0), true);
    CancelledUnpaid(settings);
    WritesPromoted(cancelled, PendingOrder(1, 7).(status := Cancelled));
    var late := Write(cancelled, d);
    FirstFound(PROMOTED);
    ConfirmedIsUncovered(PROMOTED, late.payments);
    assert late == Db([Shelf(4, 2)], map[], {}, [PROMOTED, PendingOrder(2, 7)], [], [], late.payments);
  }

  /**
   A cancellation between the reads and the writes is undone by them: the order ends confirmed with its units
   released, so reservations no longer cover the live orders. Either serial order leaves it cancelled.
   */
  lemma {:induction false} ConfirmationRevivesCancelledOrder(settings: Settings)
    ensures exists db: Db, reference: string ::
      var cancelled := Atomic(db, settings, CANCEL).0;
      && StockLaws.Covered(db) && StockLaws.Covered(cancelled)
      && Decide(db, db, reference).Some? && Fits(cancelled, Decide(db, db, reference).value)
      && !StockLaws.Covered(Write(cancelled, Decide(db, db, reference).value))
      && StatusOf(Write(cancelled, Decide(db, db, reference).value).orders, 1) == Some(Confirmed)
      && StatusOf(ConfirmPayment(cancelled, reference).0.orders, 1) == Some(Cancelled)
      && StatusOf(Atomic(ConfirmPayment(db, reference).0, settings, CANCEL).0.orders, 1) == Some(Cancelled)
  {
    DecidesToPromote();
    CancelledUnpaid(settings);
    CoveredUntilThen(settings);
    WrittenAfterCancelling(settings);
    ConfirmedAfterCancelling();
    ConfirmedBeforeCancelling(settings);
    var db, reference := Unpaid(), REFERENCE;
    assert Decide(db, db, reference) == Some(Decision(0, Some(0), true));
    assert StatusOf(Atomic(ConfirmPayment(db, reference).0, settings, CANCEL).0.orders, 1) == Some(Cancelled);
  }
}
