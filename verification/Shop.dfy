/** A small database for the failing runs: one shelf of stock and two orders of two units each, of one user. */
module Shop {
  import opened Std
  import opened InventoryService
  import opened OrderModel
  import StockLaws

  const ITEM := OrderItem(Some(5), None, Some(2), 1.0)

  function PendingOrder(id: int, user: int): Order {
    Order(id, Some(user), None, None, Pending, AwaitingPayment, 2.0, [ITEM])
  }

  function Shelf(onHand: int, held: int): Row {
    Row(Some(5), Some(1), Some(onHand), Some(held))
  }

  /** The order with that id, in that status, and the next one. */
  function Orders(id: int, user: int, status: OrderStatus): seq<Order> {
    [PendingOrder(id, user).(status := status), PendingOrder(id + 1, user)]
  }

  /** That many units on hand, `held` of them reserved. */
  function Stocked(id: int, user: int, onHand: int, held: int, status: OrderStatus): Db {
    Db([Shelf(onHand, held)], map[], {}, Orders(id, user, status), [], [], [])
  }

  lemma {:induction false} Owed(id: int, user: int, onHand: int, held: int, status: OrderStatus, v: int)
    ensures StockLaws.Held(Stocked(id, user, onHand, held, status), v) == if v == 5 then held else 0
    ensures StockLaws.Demand(Stocked(id, user, onHand, held, status), v)
         == if v != 5 then 0 else if HoldsReservation(status) then 4 else 2
  {
    StockLaws.TotalOfTwo(PendingOrder(id, user).(status := status), PendingOrder(id + 1, user),
                         StockLaws.LiveUnitsOf(v));
    StockLaws.TotalOfOne(ITEM, StockLaws.UnitsOf(v));
    StockLaws.TotalOfOne(Shelf(onHand, held), StockLaws.HeldOf(v));
  }

  /** Live orders are covered exactly while that many units are held. */
  lemma {:induction false} CoveredIff(id: int, user: int, onHand: int, held: int, status: OrderStatus)
    requires 0 <= held <= onHand
    ensures StockLaws.Sane(Stocked(id, user, onHand, held, status))
    ensures StockLaws.Covered(Stocked(id, user, onHand, held, status)) <==>
      held >= if HoldsReservation(status) then 4 else 2
  {
    var db, owed := Stocked(id, user, onHand, held, status), if HoldsReservation(status) then 4 else 2;
    Owed(id, user, onHand, held, status, 5);
    if held >= owed {
      forall v ensures StockLaws.Demand(db, v) <= StockLaws.Held(db, v) {
        Owed(id, user, onHand, held, status, v);
      }
    }
  }

  lemma {:induction false} FirstOrderFound(id: int, user: int, status: OrderStatus)
    ensures FindOrder(Orders(id, user, status), id) == Some(0)
  {
    assert Orders(id, user, status)[0].id == id;
  }

  /** Giving back the two units of an order, or shipping them. */
  lemma {:induction false} WorkTwo(onHand: int, held: int, op: LineOp)
    requires 2 <= held <= onHand && op != Reserve
    ensures RunLine([Shelf(onHand, held)], ItemLine(op, ITEM))
         == Ok([Shelf(if op == Fulfill then onHand - 2 else onHand, held - 2)])
  {
    assert PickUpTo([Shelf(onHand, held)], Some(5), None, 0) == None;
    var after := Shelf(if op == Fulfill then onHand - 2 else onHand, held - 2);
    assert [Shelf(onHand, held)][0 := after] == [after];
  }

  /** A cancellation of that order by its user, or a shipment of it. */
  predicate GivesBack(t: Txn, id: int, user: int) {
    t == CancelOrder(id, user) || (t.RecordShipment? && t.orderId == id)
  }

  /** What it leaves, its units given back. */
  lemma {:induction false} FinishFirst(settings: Settings, id: int, user: int, onHand: int, held: int,
      status: OrderStatus, t: Txn, db: Db)
    requires GivesBack(t, id, user)
    requires var given := Stocked(id, user, onHand, held, status); db == given.(shipments := db.shipments)
    ensures var rows := [Shelf(if t.CancelOrder? then onHand else onHand - 2, held - 2)];
      var end := Finish(db, settings, t, [], rows);
      && (end.1 == if t.CancelOrder? then CancelDone else ShipmentRecorded)
      && end.0 == (if t.CancelOrder? then Stocked(id, user, onHand, held - 2, Cancelled)
                   else Stocked(id, user, onHand - 2, held - 2, Shipped)).(shipments := end.0.shipments)
  {
    FirstOrderFound(id, user, status);
    var target := if t.CancelOrder? then Cancelled else Shipped;
    assert SetStatus(Orders(id, user, status), 0, target) == Orders(id, user, target);
  }

  /** It can begin on a pending order, and a shipment on any. */
  lemma {:induction false} BeginFirst(settings: Settings, id: int, user: int, onHand: int, held: int,
      status: OrderStatus, t: Txn)
    requires GivesBack(t, id, user) && (t.CancelOrder? ==> HoldsReservation(status))
    ensures Begin(Stocked(id, user, onHand, held, status), settings, t)
         == Work([], [ItemLine(if t.CancelOrder? then Release else Fulfill, ITEM)])
  {
    FirstOrderFound(id, user, status);
    var op := if t.CancelOrder? then Release else Fulfill;
    assert ItemLines(op, [ITEM]) == [ItemLine(op, ITEM)];
  }

  /** Run alone. */
  lemma {:induction false} GiveBackFirst(settings: Settings, id: int, user: int, onHand: int, held: int,
      status: OrderStatus, t: Txn)
    requires 2 <= held <= onHand && GivesBack(t, id, user) && (t.CancelOrder? ==> HoldsReservation(status))
    ensures var after := Atomic(Stocked(id, user, onHand, held, status), settings, t).0;
      after == (if t.CancelOrder? then Stocked(id, user, onHand, held - 2, Cancelled)
                else Stocked(id, user, onHand - 2, held - 2, Shipped)).(shipments := after.shipments)
  {
    var db := Stocked(id, user, onHand, held, status);
    var op := if t.CancelOrder? then Release else Fulfill;
    BeginFirst(settings, id, user, onHand, held, status, t);
    WorkTwo(onHand, held, op);
    var lines := [ItemLine(op, ITEM)];
    assert RunTo(db.rows, lines, 0) == Ok(db.rows);
    assert RunTo(db.rows, lines, 1) == RunLine(db.rows, lines[0]);
    FinishFirst(settings, id, user, onHand, held, status, t, db);
  }

  /** Shipments on file cover no one and owe nothing. */
  lemma {:induction false} ShipmentsDoNotMatter(db: Db, shipments: seq<Shipment>)
    ensures StockLaws.Covered(db.(shipments := shipments)) <==> StockLaws.Covered(db)
    ensures StockLaws.Sane(db.(shipments := shipments)) <==> StockLaws.Sane(db)
  {
    forall v ensures StockLaws.Demand(db.(shipments := shipments), v) == StockLaws.Demand(db, v)
                  && StockLaws.Held(db.(shipments := shipments), v) == StockLaws.Held(db, v)
    {
    }
  }
}
