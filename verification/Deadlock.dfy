/**
 Waiting for locks. Variants are locked in cart order, so transactions can wait for each other for good; if
 carts and orders list their variants in one common order, some transaction can always go on.
 */
module Deadlock {
  import opened Std
  import opened InventoryService
  import opened OrderModel
  import opened Interleaving

  /** Some action other than an abort gets the transaction further. */
  ghost predicate CanStep(m: Machine, settings: Settings, txns: seq<Txn>, i: nat)
    requires |m.phases| == |txns|
  {
    exists a: Action :: a.txn == i && !a.Abort? && Step(m, settings, txns, a) != m
  }

  /** Transactions are left, and nothing but an abort changes anything. */
  ghost predicate Stuck(m: Machine, settings: Settings, txns: seq<Txn>)
    requires |m.phases| == |txns|
  {
    && (exists i :: 0 <= i < |txns| && !m.phases[i].Ended?)
    && forall i: nat :: i < |txns| ==> !CanStep(m, settings, txns, i)
  }

  // ---- a common order ----

  /** Any numbering of the variants, different numbers for different ones. */
  ghost predicate Numbers(rank: Option<int> -> int) {
    forall a, b :: rank(a) == rank(b) ==> a == b
  }

  ghost predicate LinesInOrder(rank: Option<int> -> int, lines: seq<Line>) {
    forall k, l :: 0 <= k < l < |lines| && !Skips(lines[k]) && !Skips(lines[l]) ==>
      rank(lines[k].variantId) <= rank(lines[l].variantId)
  }

  ghost predicate OneWarehouse(lines: seq<Line>) {
    forall k, l :: 0 <= k < l < |lines| ==> lines[k].warehouseId == lines[l].warehouseId
  }

  ghost predicate CartInOrder(rank: Option<int> -> int, items: seq<CartItem>) {
    forall k, l :: 0 <= k < l < |items| ==> rank(items[k].variantId) <= rank(items[l].variantId)
  }

  ghost predicate ItemsInOrder(rank: Option<int> -> int, items: seq<OrderItem>) {
    forall k, l :: 0 <= k < l < |items| && items[k].variantId.Some? && items[l].variantId.Some? ==>
      rank(items[k].variantId) <= rank(items[l].variantId)
  }

  /** Every cart and every order lists its variants by ascending number. */
  ghost predicate InOrder(rank: Option<int> -> int, db: Db) {
    && (forall user :: user in db.carts ==> CartInOrder(rank, db.carts[user]))
    && (forall i :: 0 <= i < |db.orders| ==> ItemsInOrder(rank, db.orders[i].items))
  }

  /** What locking relies on: lines in order, locks those of the lines worked, and rows that keep their keys. */
  ghost predicate TidyPhase(rank: Option<int> -> int, rows: seq<Row>, p: Phase) {
    p.Running? ==>
      && p.done <= |p.lines| && LinesInOrder(rank, p.lines) && OneWarehouse(p.lines) && CartInOrder(rank, p.cart)
      && p.locks == LocksTo(rows, p.lines, p.done)
      && forall i :: i in p.written && i < |rows| ==> rows[i].SameKey(p.written[i])
  }

  ghost predicate Tidy(rank: Option<int> -> int, txns: seq<Txn>, m: Machine) {
    && |m.phases| == |txns| && InOrder(rank, m.db) && LocksExclusive(m.phases)
    && forall i :: 0 <= i < |txns| ==> TidyPhase(rank, m.db.rows, m.phases[i])
  }

  // ---- every step keeps things tidy ----

  lemma {:induction false} BeginsTidy(rank: Option<int> -> int, db: Db, settings: Settings, t: Txn)
    requires InOrder(rank, db) && Begin(db, settings, t).Work?
    ensures var Work(cart, lines) := Begin(db, settings, t);
      TidyPhase(rank, db.rows, Running(cart, lines, 0, map[], {}))
  {
    if !t.Checkout? {
      var i := FindOrder(db.orders, t.orderId).value;
      assert ItemsInOrder(rank, db.orders[i].items);
    }
  }

  lemma {:induction false} WorksTidy(rank: Option<int> -> int, rows: seq<Row>, p: Phase)
    requires TidyPhase(rank, rows, p) && p.Running? && p.done < |p.lines|
    ensures TidyPhase(rank, rows, Worked(rows, p, p.lines[p.done], LineLocks(rows, p.lines[p.done])))
  {
    var line, before := p.lines[p.done], View(rows, p.written);
    LineFrame(before, before, line);
  }

  lemma {:induction false} LocksToKeyed(a: seq<Row>, b: seq<Row>, lines: seq<Line>, k: nat)
    requires SameKeys(a, b) && k <= |lines|
    ensures LocksTo(a, lines, k) == LocksTo(b, lines, k)
  {
    if k > 0 {
      LocksToKeyed(a, b, lines, k - 1);
      LocksKeyed(a, b, lines[k - 1]);
    }
  }

  /** A commit writes rows with the keys they had, and places an order in the order of its cart. */
  lemma {:induction false} FinishesTidy(rank: Option<int> -> int, db: Db, settings: Settings, t: Txn, p: Phase)
    requires InOrder(rank, db) && TidyPhase(rank, db.rows, p) && p.Running?
    ensures var after := Finish(db, settings, t, p.cart, View(db.rows, p.written)).0;
      InOrder(rank, after) && SameKeys(db.rows, after.rows)
  {
    var after := Finish(db, settings, t, p.cart, View(db.rows, p.written)).0;
    if t.Checkout? && after != db {
      assert ItemsInOrder(rank, NewOrder(settings, t, p.cart).items);
    }
  }

  lemma {:induction false} OthersStayTidy(rank: Option<int> -> int, before: seq<Row>, after: seq<Row>, q: Phase)
    requires TidyPhase(rank, before, q) && SameKeys(before, after)
    ensures TidyPhase(rank, after, q)
  {
    if q.Running? {
      LocksToKeyed(before, after, q.lines, q.done);
    }
  }

  lemma {:induction false} WorkStepTidy(rank: Option<int> -> int, settings: Settings, txns: seq<Txn>, m: Machine,
      i: nat)
    requires Tidy(rank, txns, m) && i < |txns|
    ensures Tidy(rank, txns, Step(m, settings, txns, WorkLine(i)))
  {
    var p := m.phases[i];
    if Step(m, settings, txns, WorkLine(i)) != m {
      var wanted := LineLocks(m.db.rows, p.lines[p.done]);
      WorksTidy(rank, m.db.rows, p);
      assert !Blocked(m, i, wanted);
      assert Locks(Worked(m.db.rows, p, p.lines[p.done], wanted)) == p.locks + wanted;
    }
  }

  lemma {:induction false} CommitStepTidy(rank: Option<int> -> int, settings: Settings, txns: seq<Txn>,
      m: Machine, i: nat)
    requires Tidy(rank, txns, m) && i < |txns|
    ensures Tidy(rank, txns, Step(m, settings, txns, Commit(i)))
  {
    var p, after := m.phases[i], Step(m, settings, txns, Commit(i));
    if after != m {
      FinishesTidy(rank, m.db, settings, txns[i], p);
      forall j | 0 <= j < |txns| && j != i ensures TidyPhase(rank, after.db.rows, after.phases[j]) {
        OthersStayTidy(rank, m.db.rows, after.db.rows, m.phases[j]);
      }
    }
  }

  lemma {:induction false} StepTidy(rank: Option<int> -> int, settings: Settings, txns: seq<Txn>, m: Machine, a: Action)
    requires Tidy(rank, txns, m)
    ensures Tidy(rank, txns, Step(m, settings, txns, a))
  {
    if a.txn < |txns| {
      match a {
        case BeginTxn(i) =>
          if m.phases[i].Idle? && Begin(m.db, settings, txns[i]).Work? {
            BeginsTidy(rank, m.db, settings, txns[i]);
          }
        case WorkLine(i) => WorkStepTidy(rank, settings, txns, m, i);
        case Commit(i) => CommitStepTidy(rank, settings, txns, m, i);
        case Rollback(_) =>
        case Abort(_) =>
      }
    }
  }

  // ---- someone can always go on ----

  /** The variant a transaction waits to lock, if its next line locks any. */
  function Wanted(p: Phase): Option<Option<int>> {
    if p.Running? && p.done < |p.lines| && !Skips(p.lines[p.done]) then Some(p.lines[p.done].variantId) else None
  }

  /** None of the first n transactions wants a later variant than this one. */
  ghost predicate WantsLatest(rank: Option<int> -> int, m: Machine, i: nat, n: nat)
    requires n <= |m.phases| && i < |m.phases|
  {
    && Wanted(m.phases[i]).Some?
    && forall j :: 0 <= j < n && Wanted(m.phases[j]).Some? ==>
         rank(Wanted(m.phases[j]).value) <= rank(Wanted(m.phases[i]).value)
  }

  lemma {:induction false} LatestWanted(rank: Option<int> -> int, m: Machine, n: nat, some: nat) returns (i: nat)
    requires some < n <= |m.phases| && Wanted(m.phases[some]).Some?
    ensures i < |m.phases| && WantsLatest(rank, m, i, n)
  {
    i := some;
    for k := 0 to n
      invariant i < |m.phases| && WantsLatest(rank, m, i, k)
    {
      var other := Wanted(m.phases[k]);
      if other.Some? && rank(other.value) > rank(Wanted(m.phases[i]).value) {
        i := k;
      }
    }
  }

  lemma {:induction false} LockedByLine(rows: seq<Row>, lines: seq<Line>, k: nat, r: nat) returns (l: nat)
    requires k <= |lines| && r in LocksTo(rows, lines, k)
    ensures l < k && r in LineLocks(rows, lines[l])
  {
    if r in LineLocks(rows, lines[k - 1]) {
      l := k - 1;
    } else {
      l := LockedByLine(rows, lines, k - 1, r);
    }
  }

  lemma {:induction false} LineWithinLocks(rows: seq<Row>, lines: seq<Line>, k: nat, l: nat)
    requires l < k <= |lines|
    ensures LineLocks(rows, lines[l]) <= LocksTo(rows, lines, k)
  {
    if l < k - 1 {
      LineWithinLocks(rows, lines, k - 1, l);
    }
  }

  lemma {:induction false} Unblocked(m: Machine, settings: Settings, txns: seq<Txn>, i: nat)
    requires |m.phases| == |txns| && i < |txns| && m.phases[i].Running? && m.phases[i].done < |m.phases[i].lines|
    requires !Blocked(m, i, LineLocks(m.db.rows, m.phases[i].lines[m.phases[i].done]))
    ensures CanStep(m, settings, txns, i)
  {
    var p := m.phases[i];
    var q := Worked(m.db.rows, p, p.lines[p.done], LineLocks(m.db.rows, p.lines[p.done]));
    assert q != p;
    assert Step(m, settings, txns, WorkLine(i)).phases[i] == q;
    assert Step(m, settings, txns, WorkLine(i)) != m;
  }

  /** A transaction that wants the variant it holds already waits for no one. */
  lemma {:induction false} HolderGoesOn(rank: Option<int> -> int, m: Machine, settings: Settings, txns: seq<Txn>,
      j: nat, l: nat)
    requires Tidy(rank, txns, m) && j < |txns|
    requires var p := m.phases[j];
      && p.Running? && p.done < |p.lines| && l < p.done && !Skips(p.lines[l])
      && p.lines[l].variantId == p.lines[p.done].variantId
    ensures CanStep(m, settings, txns, j)
  {
    var p := m.phases[j];
    LineWithinLocks(m.db.rows, p.lines, p.done, l);
    var wanted := LineLocks(m.db.rows, p.lines[p.done]);
    assert wanted <= Locks(p);
    forall k | 0 <= k < |txns| && k != j ensures wanted !! Locks(m.phases[k]) {
      assert Locks(p) !! Locks(m.phases[k]);
    }
    Unblocked(m, settings, txns, j);
  }

  /** Whoever wants the latest variant can go on, or whoever holds it can. */
  lemma {:induction false} LatestOrHolderGoesOn(rank: Option<int> -> int, m: Machine, settings: Settings,
      txns: seq<Txn>, i: nat)
    requires Numbers(rank) && Tidy(rank, txns, m) && i < |txns| && WantsLatest(rank, m, i, |m.phases|)
    requires forall j :: 0 <= j < |txns| ==>
      m.phases[j].Ended? || (m.phases[j].Running? && m.phases[j].done < |m.phases[j].lines|)
    ensures exists j: nat :: j < |txns| && CanStep(m, settings, txns, j)
  {
    var p := m.phases[i];
    var line := p.lines[p.done];
    var wanted := LineLocks(m.db.rows, line);
    if !Blocked(m, i, wanted) {
      Unblocked(m, settings, txns, i);
    } else {
      var j :| 0 <= j < |m.phases| && j != i && !(wanted !! Locks(m.phases[j]));
      var r :| r in wanted && r in Locks(m.phases[j]);
      var q := m.phases[j];
      var l := LockedByLine(m.db.rows, q.lines, q.done, r);
      assert q.lines[l].variantId == line.variantId && !Skips(q.lines[l]);
      if Skips(q.lines[q.done]) {
        Unblocked(m, settings, txns, j);
      } else {
        assert rank(q.lines[l].variantId) <= rank(q.lines[q.done].variantId);
        assert rank(Wanted(q).value) <= rank(Wanted(p).value);
        HolderGoesOn(rank, m, settings, txns, j, l);
      }
    }
  }

  lemma {:induction false} TidyIsNotStuck(rank: Option<int> -> int, m: Machine, settings: Settings, txns: seq<Txn>)
    requires Numbers(rank) && Tidy(rank, txns, m)
    ensures !Stuck(m, settings, txns)
  {
    if i :| 0 <= i < |txns| && !m.phases[i].Ended?
            && !(m.phases[i].Running? && m.phases[i].done < |m.phases[i].lines|)
    {
      var a := if m.phases[i].Idle? then BeginTxn(i) else if m.phases[i].Raising? then Rollback(i) else Commit(i);
      assert Step(m, settings, txns, a) != m;
      assert CanStep(m, settings, txns, i);
    } else if i :| 0 <= i < |txns| && m.phases[i].Running? && Skips(m.phases[i].lines[m.phases[i].done]) {
      Unblocked(m, settings, txns, i);
    } else if i :| 0 <= i < |txns| && !m.phases[i].Ended? {
      var latest := LatestWanted(rank, m, |m.phases|, i);
      LatestOrHolderGoesOn(rank, m, settings, txns, latest);
    }
  }

  /**
   If every cart and order on file lists its variants in one common order, whichever it is, no run of any
   transactions, however interleaved and aborted, ever gets stuck: while transactions are left, one of them
   can go on.
   */
  lemma {:induction false} CommonOrderNeverSticks(rank: Option<int> -> int, db: Db, settings: Settings,
      txns: seq<Txn>, actions: seq<Action>, k: nat)
    requires Numbers(rank) && InOrder(rank, db) && k <= |actions|
    ensures !Stuck(Exec(Initially(db, txns), settings, txns, actions, k), settings, txns)
  {
    RunsStayTidy(rank, db, settings, txns, actions, k);
    TidyIsNotStuck(rank, Exec(Initially(db, txns), settings, txns, actions, k), settings, txns);
  }

  lemma {:induction false} RunsStayTidy(rank: Option<int> -> int, db: Db, settings: Settings, txns: seq<Txn>,
      actions: seq<Action>, k: nat)
    requires InOrder(rank, db) && k <= |actions|
    ensures Tidy(rank, txns, Exec(Initially(db, txns), settings, txns, actions, k))
  {
    if k > 0 {
      RunsStayTidy(rank, db, settings, txns, actions, k - 1);
      StepTidy(rank, settings, txns, Exec(Initially(db, txns), settings, txns, actions, k - 1), actions[k - 1]);
    }
  }
}
