/**
 Stock while order transactions interleave: rows stay sane whatever runs, and without conflicts and repeated
 shipments nothing is oversold at any moment.
 */
module ConcurrentStock {
  import opened Std
  import opened Sums
  import opened InventoryService
  import opened OrderModel
  import opened StockLaws
  import opened Interleaving

  // ---- every row, whatever runs ----

  /** What a transaction under way would commit is sane: its rows, and the quantities of the order it would place. */
  ghost predicate SanePhase(settings: Settings, t: Txn, p: Phase) {
    p.Running? ==>
      && p.done <= |p.lines| && AllOp(p.lines, OpOf(t))
      && (forall i :: i in p.written ==> p.written[i].Sane())
      && (t.Checkout? ==>
            && p.lines == CheckoutLines(p.cart, settings.defaultWarehouseId)
            && forall k :: 0 <= k < p.done ==> p.lines[k].quantity > 0)
      && (!t.Checkout? ==> AllForward(p.lines))
  }

  ghost predicate SaneMachine(settings: Settings, txns: seq<Txn>, m: Machine) {
    |m.phases| == |txns| && Sane(m.db) && forall i :: 0 <= i < |txns| ==> SanePhase(settings, txns[i], m.phases[i])
  }

  lemma {:induction false} ViewIsSane(rows: seq<Row>, written: map<nat, Row>)
    requires SaneRows(rows) && forall i :: i in written ==> written[i].Sane()
    ensures SaneRows(View(rows, written))
  {
  }

  lemma {:induction false} BeginIsSane(db: Db, settings: Settings, t: Txn)
    requires Sane(db) && Begin(db, settings, t).Work?
    ensures var Work(cart, lines) := Begin(db, settings, t); SanePhase(settings, t, Running(cart, lines, 0, map[], {}))
  {
    BeginLines(db, settings, t);
  }

  lemma {:induction false} WorkIsSane(db: Db, settings: Settings, t: Txn, p: Phase)
    requires Sane(db) && SanePhase(settings, t, p) && p.Running? && p.done < |p.lines|
    ensures SanePhase(settings, t, Worked(db.rows, p, p.lines[p.done], LineLocks(db.rows, p.lines[p.done])))
  {
    var line, before := p.lines[p.done], View(db.rows, p.written);
    ViewIsSane(db.rows, p.written);
    if RunLine(before, line).Ok? {
      LineEffect(before, line, 0);
    }
  }

  lemma {:induction false} FinishIsSane(db: Db, settings: Settings, t: Txn, p: Phase)
    requires Sane(db) && SanePhase(settings, t, p) && p.Running? && p.done == |p.lines|
    ensures Sane(Finish(db, settings, t, p.cart, View(db.rows, p.written)).0)
  {
    ViewIsSane(db.rows, p.written);
    if t.Checkout? {
      assert forall k :: 0 <= k < |p.cart| ==> p.lines[k].quantity == p.cart[k].quantity.GetOr(0);
      assert CountsForward(NewOrder(settings, t, p.cart).items);
    }
  }

  lemma {:induction false} StepIsSane(settings: Settings, txns: seq<Txn>, m: Machine, a: Action)
    requires SaneMachine(settings, txns, m)
    ensures SaneMachine(settings, txns, Step(m, settings, txns, a))
  {
    if a.txn < |txns| {
      var i, p := a.txn, m.phases[a.txn];
      match a {
        case BeginTxn(_) =>
          if p.Idle? && Begin(m.db, settings, txns[i]).Work? {
            BeginIsSane(m.db, settings, txns[i]);
          }
        case WorkLine(_) =>
          if p.Running? && p.done < |p.lines| {
            WorkIsSane(m.db, settings, txns[i], p);
          }
        case Commit(_) =>
          if p.Running? && p.done == |p.lines| {
            FinishIsSane(m.db, settings, txns[i], p);
          }
        case Rollback(_) =>
        case Abort(_) =>
      }
    }
  }

  /**
   Any transactions at all, conflicting ones included, interleaved and aborted in any way: every committed
   row always has 0 <= reserved <= on hand.
   */
  lemma {:induction false} RowsStaySaneConcurrently(
    db: Db, settings: Settings, txns: seq<Txn>, actions: seq<Action>, k: nat)
    requires k <= |actions| && Sane(db)
    ensures SaneMachine(settings, txns, Exec(Initially(db, txns), settings, txns, actions, k))
  {
    if k > 0 {
      RowsStaySaneConcurrently(db, settings, txns, actions, k - 1);
      StepIsSane(settings, txns, Exec(Initially(db, txns), settings, txns, actions, k - 1), actions[k - 1]);
    }
  }

  // ---- live orders ----

  /** If on file, the order still holds its reservation. */
  predicate Shippable(db: Db, id: int) {
    var found := FindOrder(db.orders, id);
    found.None? || HoldsReservation(db.orders[found.value].status)
  }

  /** Every order these transactions ship still holds its reservation. */
  ghost predicate ShipsReserved(db: Db, txns: seq<Txn>) {
    forall i :: 0 <= i < |txns| && txns[i].RecordShipment? ==> Shippable(db, txns[i].orderId)
  }

  /** Both can go on to give back the units of one order: cancellations by two users cannot, one is refused. */
  predicate Clash(a: Txn, b: Txn) {
    !a.Checkout? && !b.Checkout? && a.orderId == b.orderId
    && (a.CancelOrder? && b.CancelOrder? ==> a.userId == b.userId)
  }

  ghost predicate GiveBacksApart(txns: seq<Txn>) {
    forall i, j :: 0 <= i < j < |txns| ==> !Clash(txns[i], txns[j])
  }

  /** The database with the cart a checkout has read put back, should another checkout have emptied it. */
  function AsRead(db: Db, t: Txn, p: Phase): Db {
    if t.Checkout? && p.Running?
    then db.(carts := db.carts[t.userId := p.cart], addresses := db.addresses + {(t.addressId, t.userId)})
    else db
  }

  /** Under way, it has done what it would have done alone on that database. */
  ghost predicate OnCourse(db: Db, settings: Settings, t: Txn, p: Phase) {
    p.Running? ==> OnTrack(AsRead(db, t, p), settings, t, p)
  }

  /** What every step keeps: stock is in order, and what is under way or to be shipped will leave it so. */
  ghost predicate StockInOrder(settings: Settings, txns: seq<Txn>, m: Machine) {
    && |m.phases| == |txns| && LocksExclusive(m.phases)
    && Sane(m.db) && Covered(m.db)
    && (forall i :: 0 <= i < |txns| ==> OnCourse(m.db, settings, txns[i], m.phases[i]))
    && (forall i :: 0 <= i < |txns| && txns[i].RecordShipment? && !m.phases[i].Ended? ==>
          Shippable(m.db, txns[i].orderId))
  }

  lemma {:induction false} StockAlike(a: Db, b: Db)
    requires a.rows == b.rows && a.orders == b.orders
    ensures Sane(a) <==> Sane(b)
    ensures Covered(a) <==> Covered(b)
  {
    assert forall v :: Demand(a, v) == Demand(b, v) && Held(a, v) == Held(b, v);
  }

  /** A commit leaves stock in order: for a checkout, even of a cart that another one has ordered meanwhile. */
  lemma {:induction false} FinishLeavesOrder(db: Db, settings: Settings, t: Txn, p: Phase)
    requires Sane(db) && Covered(db) && OnCourse(db, settings, t, p) && p.Running? && p.done == |p.lines|
    requires t.RecordShipment? ==> Shippable(db, t.orderId)
    ensures var after := Finish(db, settings, t, p.cart, View(db.rows, p.written)).0; Sane(after) && Covered(after)
  {
    var read := AsRead(db, t, p);
    StockAlike(db, read);
    CommitIsAtomic(read, settings, t, p);
    StepKeepsSane(read, settings, Run(t));
    StepKeepsCovered(read, settings, Run(t));
    StockAlike(Finish(db, settings, t, p.cart, View(db.rows, p.written)).0, Atomic(read, settings, t).0);
  }

  /** ... and everyone else on course who may not give back the same order. */
  lemma {:induction false} OthersStayOnCourse(db: Db, settings: Settings, t: Txn, p: Phase, other: Txn, q: Phase)
    requires OnCourse(db, settings, t, p) && p.Running? && OnCourse(db, settings, other, q)
    requires !Clash(t, other) && Locks(p) !! Locks(q)
    ensures OnCourse(Finish(db, settings, t, p.cart, View(db.rows, p.written)).0, settings, other, q)
  {
    var after := Finish(db, settings, t, p.cart, View(db.rows, p.written)).0;
    if q.Running? && after != db {
      RowsStayOnTrack(db.rows, p, q);
      if !other.Checkout? {
        OtherOrderFrame(db, settings, t, p.cart, View(db.rows, p.written), other.orderId);
      }
    }
  }

  lemma {:induction false} OthersStayShippable(
    db: Db, settings: Settings, t: Txn, cart: seq<CartItem>, rows: seq<Row>, id: int)
    requires Shippable(db, id) && (!t.Checkout? ==> t.orderId != id)
    ensures Shippable(Finish(db, settings, t, cart, rows).0, id)
  {
    var after := Finish(db, settings, t, cart, rows).0;
    if FindOrder(db.orders, id).Some? {
      OtherOrderFrame(db, settings, t, cart, rows, id);
    } else if after != db {
      assert forall j :: 0 <= j < |db.orders| ==> after.orders[j].id == db.orders[j].id;
      assert t.Checkout? ==> |after.orders| == |db.orders| + 1 && after.orders[|db.orders|].status == Pending;
    }
  }

  lemma {:induction false} BeginKeepsOrder(settings: Settings, txns: seq<Txn>, m: Machine, i: nat)
    requires StockInOrder(settings, txns, m) && i < |txns|
    ensures StockInOrder(settings, txns, Step(m, settings, txns, BeginTxn(i)))
  {
    var t := txns[i];
    if m.phases[i].Idle? && Begin(m.db, settings, t).Work? {
      var Work(cart, lines) := Begin(m.db, settings, t);
      var q := Running(cart, lines, 0, map[], {});
      StartsOnTrack(AsRead(m.db, t, q), settings, t, cart, lines);
    }
  }

  lemma {:induction false} WorkKeepsOrder(settings: Settings, txns: seq<Txn>, m: Machine, i: nat)
    requires StockInOrder(settings, txns, m) && i < |txns|
    ensures StockInOrder(settings, txns, Step(m, settings, txns, WorkLine(i)))
  {
    var p := m.phases[i];
    if Step(m, settings, txns, WorkLine(i)) != m {
      var wanted := LineLocks(m.db.rows, p.lines[p.done]);
      var q := Worked(m.db.rows, p, p.lines[p.done], wanted);
      WorkedOnTrack(AsRead(m.db, txns[i], p), settings, txns[i], p);
      assert AsRead(m.db, txns[i], p).rows == m.db.rows;
      assert OnCourse(m.db, settings, txns[i], q);
      assert Locks(q) == p.locks + wanted && !Blocked(m, i, wanted);
    }
  }

  lemma {:induction false} CommitKeepsOrder(settings: Settings, txns: seq<Txn>, m: Machine, i: nat)
    requires StockInOrder(settings, txns, m) && i < |txns| && GiveBacksApart(txns)
    ensures StockInOrder(settings, txns, Step(m, settings, txns, Commit(i)))
  {
    var t, p, after := txns[i], m.phases[i], Step(m, settings, txns, Commit(i));
    if p.Running? && p.done == |p.lines| {
      FinishLeavesOrder(m.db, settings, t, p);
      forall j | 0 <= j < |txns| && j != i
        ensures OnCourse(after.db, settings, txns[j], after.phases[j])
        ensures txns[j].RecordShipment? && !after.phases[j].Ended? ==> Shippable(after.db, txns[j].orderId)
      {
        assert !Clash(t, txns[j]) && !Clash(txns[j], t);
        OthersStayOnCourse(m.db, settings, t, p, txns[j], m.phases[j]);
        if txns[j].RecordShipment? && !after.phases[j].Ended? {
          OthersStayShippable(m.db, settings, t, p.cart, View(m.db.rows, p.written), txns[j].orderId);
        }
      }
    }
  }

  lemma {:induction false} StepKeepsOrder(settings: Settings, txns: seq<Txn>, m: Machine, a: Action)
    requires StockInOrder(settings, txns, m) && GiveBacksApart(txns)
    ensures StockInOrder(settings, txns, Step(m, settings, txns, a))
  {
    if a.txn < |txns| {
      match a {
        case BeginTxn(i) => BeginKeepsOrder(settings, txns, m, i);
        case WorkLine(i) => WorkKeepsOrder(settings, txns, m, i);
        case Commit(i) => CommitKeepsOrder(settings, txns, m, i);
        case Rollback(_) =>
        case Abort(_) =>
      }
    }
  }

  lemma {:induction false} StockStaysInOrder(
    db: Db, settings: Settings, txns: seq<Txn>, actions: seq<Action>, k: nat)
    requires GiveBacksApart(txns) && ShipsReserved(db, txns) && k <= |actions| && Sane(db) && Covered(db)
    ensures StockInOrder(settings, txns, Exec(Initially(db, txns), settings, txns, actions, k))
  {
    if k > 0 {
      StockStaysInOrder(db, settings, txns, actions, k - 1);
      StepKeepsOrder(settings, txns, Exec(Initially(db, txns), settings, txns, actions, k - 1), actions[k - 1]);
    }
  }

  /** Over all warehouses no more is reserved than is on hand. */
  lemma {:induction false} HeldWithinOnHand(rows: seq<Row>, v: int, n: nat)
    requires SaneRows(rows) && n <= |rows|
    ensures Sum(rows, HeldOf(v), n) <= Sum(rows, OnHandOf(v), n)
  {
    if n > 0 {
      HeldWithinOnHand(rows, v, n - 1);
    }
  }

  /**
   No two orders can both be owed the last unit: while any transactions interleave and are aborted in any way,
   checkouts of one cart included, the units of each variant owed to live orders are reserved at every moment
   and the units reserved are on hand, as long as no two of them give back one order.
   */
  lemma {:induction false} NothingIsOversold(
    db: Db, settings: Settings, txns: seq<Txn>, actions: seq<Action>, k: nat, v: int)
    requires GiveBacksApart(txns) && ShipsReserved(db, txns) && k <= |actions| && Sane(db) && Covered(db)
    ensures var now := Exec(Initially(db, txns), settings, txns, actions, k).db;
      Demand(now, v) <= Held(now, v) <= Total(now.rows, OnHandOf(v))
  {
    StockStaysInOrder(db, settings, txns, actions, k);
    var now := Exec(Initially(db, txns), settings, txns, actions, k).db;
    HeldWithinOnHand(now.rows, v, |now.rows|);
  }
}
