/**
 Two transactions that give back one order, interleaved: both read it before either commits, so its units are
 given back twice, the second time at another order's expense. Nothing else can oversell.
 */
module GiveBacks {
  import opened Std
  import opened InventoryService
  import opened OrderModel
  import opened Interleaving
  import opened Conflicts
  import opened Shop
  import opened ConcurrentStock
  import StockLaws

  /** However they interleave, live orders stay covered, from every database in order. */
  ghost predicate NeverOversold(settings: Settings, txns: seq<Txn>) {
    forall db: Db, actions: seq<Action> ::
      StockLaws.Sane(db) && StockLaws.Covered(db) && ShipsReserved(db, txns) ==>
        StockLaws.Covered(Exec(Initially(db, txns), settings, txns, actions, |actions|).db)
  }

  /** The user of whichever of the two is a cancellation. */
  function UserOf(a: Txn, b: Txn): int {
    if a.CancelOrder? then a.userId else if b.CancelOrder? then b.userId else 0
  }

  /** The rows the second one finds and leaves. */
  lemma {:induction false} BothGiveBack(settings: Settings, txns: seq<Txn>, x: nat, y: nat)
    requires x < |txns| && y < |txns| && x != y && Clash(txns[x], txns[y])
    ensures var db := Stocked(txns[x].orderId, UserOf(txns[x], txns[y]), 4, 4, Pending);
      !StockLaws.Covered(Exec(Initially(db, txns), settings, txns, Overlap(x, y), 6).db)
  {
    var id, user, a, b := txns[x].orderId, UserOf(txns[x], txns[y]), txns[x], txns[y];
    var db := Stocked(id, user, 4, 4, Pending);
    var opA, opB := if a.CancelOrder? then Release else Fulfill, if b.CancelOrder? then Release else Fulfill;
    var left := if a.CancelOrder? then 4 else 2;
    var last := if b.CancelOrder? then left else left - 2;
    BeginFirst(settings, id, user, 4, 4, Pending, a);
    BeginFirst(settings, id, user, 4, 4, Pending, b);
    WorkTwo(4, 4, opA);
    WorkTwo(left, 2, opB);
    FinishFirst(settings, id, user, 4, 4, Pending, a, db);
    var first := Finish(db, settings, a, [], [Shelf(left, 2)]).0;
    FinishFirst(settings, id, user, left, 2, if a.CancelOrder? then Cancelled else Shipped, b, first);
    OverlapRuns(settings, txns, db, x, y, [], ItemLine(opA, ITEM), [Shelf(left, 2)],
                [], ItemLine(opB, ITEM), [Shelf(last, 0)]);
    CoveredIff(id, user, last, 0, if b.CancelOrder? then Cancelled else Shipped);
    var second := Finish(first, settings, b, [], [Shelf(last, 0)]).0;
    ShipmentsDoNotMatter(Stocked(id, user, last, 0, if b.CancelOrder? then Cancelled else Shipped), second.shipments);
  }

  /** All orders of the shop hold their reservation. */
  lemma {:induction false} ShopIsInOrder(id: int, user: int, txns: seq<Txn>)
    ensures var db := Stocked(id, user, 4, 4, Pending);
      StockLaws.Sane(db) && StockLaws.Covered(db) && ShipsReserved(db, txns)
  {
    CoveredIff(id, user, 4, 4, Pending);
  }

  lemma {:induction false} ClashOversells(settings: Settings, txns: seq<Txn>, x: nat, y: nat)
    requires x < |txns| && y < |txns| && x != y && Clash(txns[x], txns[y])
    ensures !NeverOversold(settings, txns)
  {
    var db := Stocked(txns[x].orderId, UserOf(txns[x], txns[y]), 4, 4, Pending);
    ShopIsInOrder(txns[x].orderId, UserOf(txns[x], txns[y]), txns);
    BothGiveBack(settings, txns, x, y);
    assert |Overlap(x, y)| == 6;
  }

  /**
   A set of transactions keeps live orders covered in every run, from every database in which they are covered and
   in which what is to be shipped is still reserved, exactly when no two of them can give back one order.
   */
  lemma {:induction false} NeverOversoldIff(settings: Settings, txns: seq<Txn>)
    ensures NeverOversold(settings, txns) <==> GiveBacksApart(txns)
  {
    if GiveBacksApart(txns) {
      forall db: Db, actions: seq<Action>
        | StockLaws.Sane(db) && StockLaws.Covered(db) && ShipsReserved(db, txns)
        ensures StockLaws.Covered(Exec(Initially(db, txns), settings, txns, actions, |actions|).db)
      {
        StockStaysInOrder(db, settings, txns, actions, |actions|);
      }
    } else {
      var i, j :| 0 <= i < j < |txns| && Clash(txns[i], txns[j]);
      ClashOversells(settings, txns, i, j);
    }
  }

  // ---- two cancellations ----

  /**
   Two cancellations of one order by its user, although each calls itself idempotent: one after the other they
   leave other orders covered; interleaved they need not.
   */
  lemma {:induction false} ConcurrentCancelsReleaseTwice(settings: Settings, id: int, user: int)
    ensures exists db: Db, actions: seq<Action> ::
      var cancel := CancelOrder(id, user); var txns := [cancel, cancel];
      && StockLaws.Sane(db) && StockLaws.Covered(db)
      && StockLaws.Covered(Atomic(Atomic(db, settings, cancel).0, settings, cancel).0)
      && !StockLaws.Covered(Exec(Initially(db, txns), settings, txns, actions, |actions|).db)
  {
    var db, cancel := Stocked(id, user, 4, 4, Pending), CancelOrder(id, user);
    var txns, actions := [cancel, cancel], Overlap(0, 1);
    ShopIsInOrder(id, user, txns);
    var once := Atomic(db, settings, cancel).0;
    StockLaws.StepKeepsSane(db, settings, Run(cancel));
    StockLaws.StepKeepsCovered(db, settings, Run(cancel));
    StockLaws.StepKeepsCovered(once, settings, Run(cancel));
    BothGiveBack(settings, txns, 0, 1);
    assert |actions| == 6;
    assert !StockLaws.Covered(Exec(Initially(db, txns), settings, txns, actions, |actions|).db);
  }
}
