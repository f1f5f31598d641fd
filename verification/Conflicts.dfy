/**
 Which sets of order transactions are serializable: exactly those without a conflicting pair. For every
 conflicting pair there are a database and an interleaving that no serial order explains.
 */
module Conflicts {
  import opened Std
  import opened InventoryService
  import opened OrderModel
  import opened Interleaving

  /** Every run from every database is accounted for by the order its transactions ended in. */
  ghost predicate Serializable(settings: Settings, txns: seq<Txn>) {
    forall db: Db, actions: seq<Action> ::
      Explained(db, settings, txns, Exec(Initially(db, txns), settings, txns, actions, |actions|))
  }

  // ---- running two of them ----

  /** Both have read, neither holds a lock, and no other transaction has begun. */
  function BothRead(txns: seq<Txn>, db: Db, x: nat, px: Phase, y: nat, py: Phase): Machine
    requires x < |txns| && y < |txns|
  {
    Machine(db, seq(|txns|, _ => Idle)[x := px][y := py], [])
  }

  function Started(cart: seq<CartItem>, lines: seq<Line>): Phase {
    Running(cart, lines, 0, map[], {})
  }

  lemma {:induction false} TwoBegin(
    settings: Settings, txns: seq<Txn>, db: Db, x: nat, y: nat, cx: seq<CartItem>, lx: seq<Line>,
    cy: seq<CartItem>, ly: seq<Line>)
    requires x < |txns| && y < |txns| && x != y
    requires Begin(db, settings, txns[x]) == Work(cx, lx) && Begin(db, settings, txns[y]) == Work(cy, ly)
    ensures Step(Step(Initially(db, txns), settings, txns, BeginTxn(x)), settings, txns, BeginTxn(y))
         == BothRead(txns, db, x, Started(cx, lx), y, Started(cy, ly))
  {
  }

  lemma {:induction false} FourSteps(m: Machine, settings: Settings, txns: seq<Txn>, a: Action, b: Action,
      c: Action, d: Action)
    requires |m.phases| == |txns|
    ensures var m2 := Step(Step(m, settings, txns, a), settings, txns, b);
      |m2.phases| == |txns|
      && Exec(m, settings, txns, [a, b, c, d], 4) == Step(Step(m2, settings, txns, c), settings, txns, d)
  {
    var actions := [a, b, c, d];
    assert Exec(m, settings, txns, actions, 0) == m;
    assert Exec(m, settings, txns, actions, 1) == Step(m, settings, txns, a);
    assert Exec(m, settings, txns, actions, 2) == Step(Step(m, settings, txns, a), settings, txns, b);
    assert Exec(m, settings, txns, actions, 3) == Step(Exec(m, settings, txns, actions, 2), settings, txns, c);
  }

  // ---- one order, cancelled twice or shipped and cancelled ----

  /** One pending order of that user, without items. */
  function OneOrder(id: int, user: int): Db {
    Db([], map[], {}, [Order(id, Some(user), None, None, Pending, AwaitingPayment, 0.0, [])], [], [], [])
  }

  lemma {:induction false} OneOrderFound(orders: seq<Order>)
    requires |orders| == 1
    ensures FindOrder(orders, orders[0].id) == Some(0)
  {
  }

  /** Transactions without lines, both begun: the second commits on top of the first. */
  lemma {:induction false} TwoCommits(settings: Settings, txns: seq<Txn>, db: Db, x: nat, y: nat)
    requires x < |txns| && y < |txns| && x != y
    requires Begin(db, settings, txns[x]) == Work([], []) && Begin(db, settings, txns[y]) == Work([], [])
    ensures var first := Finish(db, settings, txns[x], [], db.rows);
      Exec(Initially(db, txns), settings, txns, [BeginTxn(x), BeginTxn(y), Commit(x), Commit(y)], 4).log
        == [Entry(x, Reported(first.1)),
            Entry(y, Reported(Finish(first.0, settings, txns[y], [], first.0.rows).1))]
  {
    TwoBegin(settings, txns, db, x, y, [], [], [], []);
    FourSteps(Initially(db, txns), settings, txns, BeginTxn(x), BeginTxn(y), Commit(x), Commit(y));
    var m2 := BothRead(txns, db, x, Started([], []), y, Started([], []));
    CommitsUnchanged(m2, settings, txns, x);
    CommitsUnchanged(Step(m2, settings, txns, Commit(x)), settings, txns, y);
  }

  lemma {:induction false} CommitsUnchanged(m: Machine, settings: Settings, txns: seq<Txn>, i: nat)
    requires |m.phases| == |txns| && i < |txns| && m.phases[i] == Started([], [])
    ensures var end := Finish(m.db, settings, txns[i], [], m.db.rows);
      Step(m, settings, txns, Commit(i)) == Machine(end.0, m.phases[i := Ended], m.log + [Entry(i, Reported(end.1))])
  {
    assert View(m.db.rows, map[]) == m.db.rows;
  }

  /** From a pending order either goes on; after the first a cancellation run alone no longer succeeds. */
  lemma {:induction false} OneOrderTwice(settings: Settings, first: Txn, second: Txn)
    requires second.CancelOrder?
    requires first == second || (first.RecordShipment? && first.orderId == second.orderId)
    ensures var db := OneOrder(second.orderId, second.userId);
      var (db1, outcome) := Finish(db, settings, first, [], db.rows);
      && Begin(db, settings, first) == Work([], []) && Begin(db, settings, second) == Work([], [])
      && Atomic(db, settings, first) == (db1, outcome)
      && Finish(db1, settings, second, [], db1.rows).1 == CancelDone && Atomic(db1, settings, second).1 != CancelDone
  {
    var db := OneOrder(second.orderId, second.userId);
    OneOrderFound(db.orders);
    var db1 := Finish(db, settings, first, [], db.rows).0;
    assert db1.orders == [db.orders[0].(status := if first.CancelOrder? then Cancelled else Shipped)];
    OneOrderFound(db1.orders);
    assert RunTo(db.rows, [], 0) == Ok(db.rows);
  }

  /** Both go on from a pending order; the second to commit reports success on one that is no longer pending. */
  lemma {:induction false} SecondCommitUnexplained(settings: Settings, txns: seq<Txn>, x: nat, y: nat)
    requires x < |txns| && y < |txns| && x != y && txns[y].CancelOrder?
    requires txns[x] == txns[y] || (txns[x].RecordShipment? && txns[x].orderId == txns[y].orderId)
    ensures !Serializable(settings, txns)
  {
    var db := OneOrder(txns[y].orderId, txns[y].userId);
    var actions := [BeginTxn(x), BeginTxn(y), Commit(x), Commit(y)];
    OneOrderTwice(settings, txns[x], txns[y]);
    TwoCommits(settings, txns, db, x, y);
    var m := Exec(Initially(db, txns), settings, txns, actions, 4);
    assert m.log[0].txn == x && m.log[1].txn == y;
    SecondOutcomeDiffers(settings, txns, db, m);
    assert |actions| == 4;
  }

  /** The second outcome in the log is not the one that transaction has after the first. */
  lemma {:induction false} SecondOutcomeDiffers(settings: Settings, txns: seq<Txn>, db: Db, m: Machine)
    requires |m.log| == 2 && m.log[0].txn < |txns| && m.log[1].txn < |txns|
    requires m.log[0].ending.Reported? && m.log[1].ending.Reported?
    requires m.log[1].ending.outcome
          != Atomic(Atomic(db, settings, txns[m.log[0].txn]).0, settings, txns[m.log[1].txn]).1
    ensures !Explained(db, settings, txns, m)
  {
    assert Replay(db, settings, txns, m.log, 0) == db;
    assert Replay(db, settings, txns, m.log, 1) == Atomic(db, settings, txns[m.log[0].txn]).0;
    assert !OutcomesAgree(db, settings, txns, m.log, 2);
  }

  // ---- one line each, worked after both have read ----

  /** Both read, then one works and commits, then the other does. */
  function Overlap(x: nat, y: nat): seq<Action> {
    [BeginTxn(x), BeginTxn(y), WorkLine(x), Commit(x), WorkLine(y), Commit(y)]
  }

  /** A transaction whose neighbours hold no locks works its one line and commits. */
  lemma {:induction false} OneLineGoesOn(m: Machine, settings: Settings, txns: seq<Txn>, i: nat, cart: seq<CartItem>,
      line: Line, rows: seq<Row>)
    requires |m.phases| == |txns| && i < |txns| && m.phases[i] == Started(cart, [line])
    requires forall j :: 0 <= j < |txns| && j != i ==> Locks(m.phases[j]) == {}
    requires RunLine(m.db.rows, line) == Ok(rows)
    ensures var end := Finish(m.db, settings, txns[i], cart, rows);
      Step(Step(m, settings, txns, WorkLine(i)), settings, txns, Commit(i))
        == Machine(end.0, m.phases[i := Ended], m.log + [Entry(i, Reported(end.1))])
  {
    var p := m.phases[i];
    assert !Blocked(m, i, LineLocks(m.db.rows, line));
    assert p.lines[0] == line && View(m.db.rows, map[]) == m.db.rows;
    WorkedView(m.db.rows, p, line);
    var q := Worked(m.db.rows, p, line, LineLocks(m.db.rows, line));
    assert q.Running? && q.done == 1 && q.cart == cart && q.lines == p.lines;
    assert View(m.db.rows, q.written) == rows;
    assert m.phases[i := q][i := Ended] == m.phases[i := Ended];
  }

  lemma {:induction false} NoLocksYet(txns: seq<Txn>, db: Db, x: nat, px: Phase, y: nat, py: Phase)
    requires x < |txns| && y < |txns| && x != y && Locks(px) == {} && Locks(py) == {}
    ensures var m := BothRead(txns, db, x, px, y, py); var phases := m.phases[x := Ended];
      && m.phases[x] == px && phases[y] == py
      && (forall j :: 0 <= j < |txns| ==> Locks(m.phases[j]) == {} && Locks(phases[j]) == {})
  {
  }

  lemma {:induction false} SixSteps(m: Machine, settings: Settings, txns: seq<Txn>, x: nat, y: nat)
    requires |m.phases| == |txns|
    ensures var m2 := Step(Step(m, settings, txns, BeginTxn(x)), settings, txns, BeginTxn(y));
      && |m2.phases| == |txns|
      && var m4 := Step(Step(m2, settings, txns, WorkLine(x)), settings, txns, Commit(x));
         && |m4.phases| == |txns|
         && Exec(m, settings, txns, Overlap(x, y), 6)
            == Step(Step(m4, settings, txns, WorkLine(y)), settings, txns, Commit(y))
  {
    var actions := Overlap(x, y);
    FourSteps(m, settings, txns, actions[0], actions[1], actions[2], actions[3]);
    SamePrefix(m, settings, txns, actions, actions[..4], 4);
    assert actions[..4] == [actions[0], actions[1], actions[2], actions[3]];
    assert Exec(m, settings, txns, actions, 5) == Step(Exec(m, settings, txns, actions, 4), settings, txns, actions[4]);
  }

  /** What such a run comes to: the second commits what it had read, on the rows the first has left. */
  lemma {:induction false} OverlapRuns(settings: Settings, txns: seq<Txn>, db: Db, x: nat, y: nat,
      cx: seq<CartItem>, lx: Line, rx: seq<Row>, cy: seq<CartItem>, ly: Line, ry: seq<Row>)
    requires x < |txns| && y < |txns| && x != y
    requires Begin(db, settings, txns[x]) == Work(cx, [lx]) && Begin(db, settings, txns[y]) == Work(cy, [ly])
    requires RunLine(db.rows, lx) == Ok(rx)
    requires RunLine(Finish(db, settings, txns[x], cx, rx).0.rows, ly) == Ok(ry)
    ensures var m := Exec(Initially(db, txns), settings, txns, Overlap(x, y), 6);
      var first := Finish(db, settings, txns[x], cx, rx);
      var second := Finish(first.0, settings, txns[y], cy, ry);
      && m.db == second.0 && m.log == [Entry(x, Reported(first.1)), Entry(y, Reported(second.1))]
  {
    var m2 := BothRead(txns, db, x, Started(cx, [lx]), y, Started(cy, [ly]));
    SixSteps(Initially(db, txns), settings, txns, x, y);
    TwoBegin(settings, txns, db, x, y, cx, [lx], cy, [ly]);
    NoLocksYet(txns, db, x, Started(cx, [lx]), y, Started(cy, [ly]));
    OneLineGoesOn(m2, settings, txns, x, cx, lx, rx);
    var m4 := Step(Step(m2, settings, txns, WorkLine(x)), settings, txns, Commit(x));
    OneLineGoesOn(m4, settings, txns, y, cy, ly, ry);
  }

  // ---- one cart, checked out twice ----

  const CARTED := CartItem(Some(5), Some(1), Some(1.0), None)

  /** A user with that one item in the cart and two addresses, and a shelf of four. */
  function OneCart(settings: Settings, user: int, a: int, b: int, held: int): Db {
    Db([CartShelf(settings, held)], map[user := [CARTED]], {(a, user), (b, user)}, [], [], [], [])
  }

  function CartShelf(settings: Settings, held: int): Row {
    Row(Some(5), settings.defaultWarehouseId, Some(4), Some(held))
  }

  lemma {:induction false} ReserveOne(settings: Settings, held: int)
    requires 0 <= held < 4
    ensures RunLine([CartShelf(settings, held)], CheckoutLine(CARTED, settings.defaultWarehouseId))
         == Ok([CartShelf(settings, held + 1)])
  {
    var rows, warehouse := [CartShelf(settings, held)], settings.defaultWarehouseId;
    assert PickUpTo(rows, Some(5), warehouse, 0) == None;
    assert PickUpTo(rows, Some(5), warehouse, 1) == Some(0);
    assert rows[0 := CartShelf(settings, held + 1)] == [CartShelf(settings, held + 1)];
  }

  /** Either checkout reads the cart; alone it places its order, after which the other finds no cart. */
  lemma {:induction false} OneCartTwice(settings: Settings, first: Txn, second: Txn, db: Db)
    requires first.Checkout? && second.Checkout? && first.userId == second.userId
    requires db == OneCart(settings, first.userId, first.addressId, second.addressId, 0)
    ensures var work := Work([CARTED], [CheckoutLine(CARTED, settings.defaultWarehouseId)]);
      var end := Finish(db, settings, first, [CARTED], [CartShelf(settings, 1)]);
      && Begin(db, settings, first) == work && Begin(db, settings, second) == work
      && Atomic(db, settings, first) == end && end.1.Placed?
      && Atomic(end.0, settings, second).1 == Failed(EmptyCart) && end.0.rows == [CartShelf(settings, 1)]
  {
    var lines := CheckoutLines([CARTED], settings.defaultWarehouseId);
    ReserveOne(settings, 0);
    assert lines == [CheckoutLine(CARTED, settings.defaultWarehouseId)];
    assert RunTo(db.rows, lines, 0) == Ok(db.rows);
    assert RunTo(db.rows, lines, 1) == Ok([CartShelf(settings, 1)]);
    assert FindOrder(db.orders, first.id).None?;
  }

  /** Interleaved, each places what it has read. */
  lemma {:induction false} BothCheckOut(settings: Settings, txns: seq<Txn>, x: nat, y: nat, db: Db)
    requires x < |txns| && y < |txns| && x != y
    requires txns[x].Checkout? && txns[y].Checkout? && txns[x].userId == txns[y].userId
    requires db == OneCart(settings, txns[x].userId, txns[x].addressId, txns[y].addressId, 0)
    ensures var m := Exec(Initially(db, txns), settings, txns, Overlap(x, y), 6);
      var first := Finish(db, settings, txns[x], [CARTED], [CartShelf(settings, 1)]);
      var second := Finish(first.0, settings, txns[y], [CARTED], [CartShelf(settings, 2)]);
      && m.db == second.0 && m.log == [Entry(x, Reported(first.1)), Entry(y, Reported(second.1))]
  {
    var line, rows := CheckoutLine(CARTED, settings.defaultWarehouseId), [CartShelf(settings, 1)];
    OneCartTwice(settings, txns[x], txns[y], db);
    assert RunLine(db.rows, line) == Ok(rows) by {
      ReserveOne(settings, 0);
    }
    assert RunLine(rows, line) == Ok([CartShelf(settings, 2)]) by {
      ReserveOne(settings, 1);
    }
    assert Finish(db, settings, txns[x], [CARTED], rows).0.rows == rows;
    OverlapRuns(settings, txns, db, x, y, [CARTED], line, rows, [CARTED], line, [CartShelf(settings, 2)]);
  }

  lemma {:induction false} SameUserCheckoutsUnexplained(settings: Settings, txns: seq<Txn>, x: nat, y: nat)
    requires x < |txns| && y < |txns| && x != y
    requires txns[x].Checkout? && txns[y].Checkout? && txns[x].userId == txns[y].userId
    ensures !Serializable(settings, txns)
  {
    var db := OneCart(settings, txns[x].userId, txns[x].addressId, txns[y].addressId, 0);
    OneCartTwice(settings, txns[x], txns[y], db);
    BothCheckOut(settings, txns, x, y, db);
    var m := Exec(Initially(db, txns), settings, txns, Overlap(x, y), 6);
    assert m.log[1].ending.outcome != Failed(EmptyCart);
    SecondOutcomeDiffers(settings, txns, db, m);
    assert |Overlap(x, y)| == 6;
  }

  // ---- the exact condition ----

  lemma {:induction false} ConflictsAreNotSerializable(settings: Settings, txns: seq<Txn>, i: nat, j: nat)
    requires i < j < |txns| && Conflict(txns[i], txns[j])
    ensures !Serializable(settings, txns)
  {
    if txns[i].Checkout? {
      SameUserCheckoutsUnexplained(settings, txns, i, j);
    } else if txns[j].CancelOrder? {
      SecondCommitUnexplained(settings, txns, i, j);
    } else {
      SecondCommitUnexplained(settings, txns, j, i);
    }
  }

  /**
   A set of order transactions is serializable, from every database and however they interleave and are
   aborted, exactly when no two of them conflict.
   */
  lemma {:induction false} SerializableIff(settings: Settings, txns: seq<Txn>)
    ensures Serializable(settings, txns) <==> ConflictFree(txns)
  {
    if ConflictFree(txns) {
      forall db: Db, actions: seq<Action>
        ensures Explained(db, settings, txns, Exec(Initially(db, txns), settings, txns, actions, |actions|))
      {
        RunsAreSerializable(db, settings, txns, actions, |actions|);
      }
    } else {
      var i, j :| 0 <= i < j < |txns| && Conflict(txns[i], txns[j]);
      ConflictsAreNotSerializable(settings, txns, i, j);
    }
  }
}
