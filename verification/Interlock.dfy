/**
 Exactly when order transactions can wait for each other for good: told from the table and the lines they
 work, before any of them runs.
 */
module Interlock {
  import opened Std
  import opened InventoryService
  import opened OrderModel
  import opened Interleaving
  import opened Deadlock

  /** The position of each transaction still under way; none for one that has ended. */
  type Positions = seq<Option<nat>>

  function LinesOf(db: Db, settings: Settings, t: Txn): seq<Line> {
    var start := Begin(db, settings, t);
    if start.Work? then start.lines else []
  }

  function LocksAt(db: Db, settings: Settings, t: Txn, position: nat): set<nat>
    requires position <= |LinesOf(db, settings, t)|
  {
    LocksTo(db.rows, LinesOf(db, settings, t), position)
  }

  /** Each can get to its position, and they can all be there at once. */
  ghost predicate Apart(db: Db, settings: Settings, txns: seq<Txn>, at: Positions) {
    && |at| == |txns|
    && (forall i :: 0 <= i < |txns| && at[i].Some? ==>
          && Begin(db, settings, txns[i]).Work?
          && at[i].value <= |LinesOf(db, settings, txns[i])|
          && RunTo(db.rows, LinesOf(db, settings, txns[i]), at[i].value).Ok?)
    && (forall i, j :: 0 <= i < |txns| && 0 <= j < |txns| && i != j && at[i].Some? && at[j].Some? ==>
          LocksAt(db, settings, txns[i], at[i].value) !! LocksAt(db, settings, txns[j], at[j].value))
  }

  /** The next line of the first needs a row the second has locked. */
  predicate WaitsFor(db: Db, settings: Settings, a: Txn, i: nat, b: Txn, j: nat)
    requires i <= |LinesOf(db, settings, a)| && j <= |LinesOf(db, settings, b)|
  {
    i < |LinesOf(db, settings, a)|
    && !(LineLocks(db.rows, LinesOf(db, settings, a)[i]) !! LocksAt(db, settings, b, j))
  }

  ghost predicate Waits(db: Db, settings: Settings, txns: seq<Txn>, at: Positions, i: nat)
    requires Apart(db, settings, txns, at) && i < |txns| && at[i].Some?
  {
    exists j :: 0 <= j < |txns| && j != i && at[j].Some?
                && WaitsFor(db, settings, txns[i], at[i].value, txns[j], at[j].value)
  }

  ghost predicate SomeLeft(at: Positions) {
    exists i :: 0 <= i < |at| && at[i].Some?
  }

  /** ... and there each waits for another. */
  ghost predicate Interlocked(db: Db, settings: Settings, txns: seq<Txn>, at: Positions) {
    && Apart(db, settings, txns, at) && SomeLeft(at)
    && forall i {:trigger Waits(db, settings, txns, at, i)} ::
         0 <= i < |txns| && at[i].Some? ==> Waits(db, settings, txns, at, i)
  }

  // ---- stuck means interlocked ----

  function PositionsIn(m: Machine): Positions {
    seq(|m.phases|, i requires 0 <= i < |m.phases| =>
      if m.phases[i].Running? then Some(m.phases[i].done) else None)
  }

  /** What keeps a transaction from going on is a lock. */
  lemma {:induction false} StuckIsBlocked(m: Machine, settings: Settings, txns: seq<Txn>, i: nat)
    requires |m.phases| == |txns| && i < |txns| && Stuck(m, settings, txns) && !m.phases[i].Ended?
    ensures var p := m.phases[i];
      && p.Running? && p.done < |p.lines|
      && Blocked(m, i, LineLocks(m.db.rows, p.lines[p.done]))
  {
    var p := m.phases[i];
    assert !CanStep(m, settings, txns, i);
    assert Step(m, settings, txns, BeginTxn(i)) == m;
    assert Step(m, settings, txns, Rollback(i)) == m;
    assert Step(m, settings, txns, Commit(i)) == m;
    if p.Running? && p.done < |p.lines| && !Blocked(m, i, LineLocks(m.db.rows, p.lines[p.done])) {
      Unblocked(m, settings, txns, i);
    }
  }

  lemma {:induction false} StuckWaits(m: Machine, settings: Settings, txns: seq<Txn>, i: nat)
    requires |m.phases| == |txns| && Stuck(m, settings, txns) && Apart(m.db, settings, txns, PositionsIn(m))
    requires forall i :: 0 <= i < |txns| ==> OnTrack(m.db, settings, txns[i], m.phases[i])
    requires i < |txns| && m.phases[i].Running?
    ensures Waits(m.db, settings, txns, PositionsIn(m), i)
  {
    var at := PositionsIn(m);
    StuckIsBlocked(m, settings, txns, i);
    var p := m.phases[i];
    var j :| 0 <= j < |m.phases| && j != i && !(LineLocks(m.db.rows, p.lines[p.done]) !! Locks(m.phases[j]));
    StuckIsBlocked(m, settings, txns, j);
    assert at[j] == Some(m.phases[j].done);
    assert WaitsFor(m.db, settings, txns[i], at[i].value, txns[j], at[j].value);
  }

  lemma {:induction false} RunningApart(m: Machine, settings: Settings, txns: seq<Txn>)
    requires |m.phases| == |txns| && LocksExclusive(m.phases)
    requires forall i :: 0 <= i < |txns| ==> OnTrack(m.db, settings, txns[i], m.phases[i])
    ensures Apart(m.db, settings, txns, PositionsIn(m))
  {
    forall i, j | 0 <= i < |txns| && 0 <= j < |txns| && i != j && m.phases[i].Running? && m.phases[j].Running?
      ensures LocksAt(m.db, settings, txns[i], m.phases[i].done) !! LocksAt(m.db, settings, txns[j], m.phases[j].done)
    {
      assert Locks(m.phases[i]) !! Locks(m.phases[j]);
    }
  }

  lemma {:induction false} StuckIsInterlocked(m: Machine, settings: Settings, txns: seq<Txn>)
    requires |m.phases| == |txns| && Stuck(m, settings, txns) && LocksExclusive(m.phases)
    requires forall i :: 0 <= i < |txns| ==> OnTrack(m.db, settings, txns[i], m.phases[i])
    ensures Interlocked(m.db, settings, txns, PositionsIn(m))
  {
    RunningApart(m, settings, txns);
    var i :| 0 <= i < |txns| && !m.phases[i].Ended?;
    StuckIsBlocked(m, settings, txns, i);
    assert PositionsIn(m)[i].Some?;
    forall i | 0 <= i < |txns| && PositionsIn(m)[i].Some? ensures Waits(m.db, settings, txns, PositionsIn(m), i) {
      StuckWaits(m, settings, txns, i);
    }
  }

  // ---- interlocked means a run gets stuck ----

  /** Of the first k, those with a position are at it; of the rest, those with one have not begun. */
  ghost predicate Placed(db: Db, settings: Settings, txns: seq<Txn>, at: Positions, k: nat, m: Machine)
    requires |at| == |txns|
  {
    && |m.phases| == |txns| && m.db == db
    && forall i :: 0 <= i < |txns| ==>
         if at[i].None? then m.phases[i].Ended?
         else if i >= k then m.phases[i].Idle?
         else m.phases[i].Running? && m.phases[i].done == at[i].value && OnTrack(db, settings, txns[i], m.phases[i])
  }

  /** One line earlier they are apart as well. */
  lemma {:induction false} ApartOneEarlier(db: Db, settings: Settings, txns: seq<Txn>, at: Positions, i: nat)
    requires Apart(db, settings, txns, at) && i < |txns| && at[i].Some? && at[i].value > 0
    ensures Apart(db, settings, txns, at[i := Some(at[i].value - 1)])
  {
    var lines, n := LinesOf(db, settings, txns[i]), at[i].value;
    assert LocksTo(db.rows, lines, n - 1) <= LocksTo(db.rows, lines, n);
  }

  lemma {:induction false} PlaceOne(db: Db, settings: Settings, txns: seq<Txn>, at: Positions, i: nat, m: Machine)
    requires Apart(db, settings, txns, at) && i < |txns| && at[i].Some? && at[i].value > 0
    requires Placed(db, settings, txns, at[i := Some(at[i].value - 1)], i + 1, m)
    ensures Placed(db, settings, txns, at, i + 1, Step(m, settings, txns, WorkLine(i)))
  {
    var p := m.phases[i];
    var n := at[i].value;
    assert p.lines == LinesOf(db, settings, txns[i]) && p.done == n - 1;
    var wanted := LineLocks(db.rows, p.lines[n - 1]);
    forall j | 0 <= j < |txns| && j != i ensures wanted !! Locks(m.phases[j]) {
      if at[j].Some? && j < i {
        assert wanted <= LocksAt(db, settings, txns[i], n);
        assert Locks(m.phases[j]) == LocksAt(db, settings, txns[j], at[j].value);
      }
    }
    assert !Blocked(m, i, wanted);
    WorkedOnTrack(db, settings, txns[i], p);
  }

  lemma {:induction false} PlaceFirst(db: Db, settings: Settings, txns: seq<Txn>, at: Positions, i: nat, m: Machine)
    requires Apart(db, settings, txns, at) && i < |txns| && at[i] == Some(0)
    requires Placed(db, settings, txns, at, i, m)
    ensures Placed(db, settings, txns, at, i + 1, Step(m, settings, txns, BeginTxn(i)))
  {
    var Work(cart, lines) := Begin(db, settings, txns[i]);
    StartsOnTrack(db, settings, txns[i], cart, lines);
  }

  lemma {:induction false} PlaceNone(db: Db, settings: Settings, txns: seq<Txn>, at: Positions, i: nat, m: Machine)
    requires i < |txns| == |at| && at[i].None? && Placed(db, settings, txns, at, i, m)
    ensures Placed(db, settings, txns, at, i + 1, m)
  {
  }

  /** From any state in which those with a position have not begun and the others have ended. */
  lemma {:induction false} Place(db: Db, settings: Settings, txns: seq<Txn>, at: Positions, k: nat, m: Machine)
    returns (actions: seq<Action>)
    requires Apart(db, settings, txns, at) && k <= |txns| && Placed(db, settings, txns, at, 0, m)
    ensures Placed(db, settings, txns, at, k, Exec(m, settings, txns, actions, |actions|))
    decreases k, if k > 0 && k <= |at| && at[k - 1].Some? then at[k - 1].value else 0, 1
  {
    if k == 0 {
      actions := [];
    } else if at[k - 1].None? {
      actions := Place(db, settings, txns, at, k - 1, m);
      PlaceNone(db, settings, txns, at, k - 1, Exec(m, settings, txns, actions, |actions|));
    } else if at[k - 1].value == 0 {
      actions := Place(db, settings, txns, at, k - 1, m);
      PlaceFirst(db, settings, txns, at, k - 1, Exec(m, settings, txns, actions, |actions|));
      actions := OneMore(m, settings, txns, actions, BeginTxn(k - 1));
    } else {
      actions := PlaceWorked(db, settings, txns, at, k, m);
    }
  }

  /** The last of the first k one line earlier, and then that line. */
  lemma {:induction false} PlaceWorked(db: Db, settings: Settings, txns: seq<Txn>, at: Positions, k: nat, m: Machine)
    returns (actions: seq<Action>)
    requires Apart(db, settings, txns, at) && 0 < k <= |txns| && Placed(db, settings, txns, at, 0, m)
    requires at[k - 1].Some? && at[k - 1].value > 0
    ensures Placed(db, settings, txns, at, k, Exec(m, settings, txns, actions, |actions|))
    decreases k, at[k - 1].value, 0
  {
    var earlier := at[k - 1 := Some(at[k - 1].value - 1)];
    ApartOneEarlier(db, settings, txns, at, k - 1);
    assert Placed(db, settings, txns, earlier, 0, m);
    actions := Place(db, settings, txns, earlier, k, m);
    PlaceOne(db, settings, txns, at, k - 1, Exec(m, settings, txns, actions, |actions|));
    actions := OneMore(m, settings, txns, actions, WorkLine(k - 1));
  }

  lemma {:induction false} OneMore(m: Machine, settings: Settings, txns: seq<Txn>, actions: seq<Action>, a: Action)
    returns (longer: seq<Action>)
    requires |m.phases| == |txns|
    ensures Exec(m, settings, txns, longer, |longer|)
         == Step(Exec(m, settings, txns, actions, |actions|), settings, txns, a)
  {
    longer := actions + [a];
    ExecOneMore(m, settings, txns, actions, a);
  }

  lemma {:induction false} WaitingCannotStep(db: Db, settings: Settings, txns: seq<Txn>, at: Positions, m: Machine,
      a: Action)
    requires Interlocked(db, settings, txns, at) && Placed(db, settings, txns, at, |txns|, m)
    requires a.txn < |txns| && !a.Abort?
    ensures Step(m, settings, txns, a) == m
  {
    var i := a.txn;
    if a.WorkLine? && at[i].Some? {
      assert Waits(db, settings, txns, at, i);
      var j :| 0 <= j < |txns| && j != i && at[j].Some?
               && WaitsFor(db, settings, txns[i], at[i].value, txns[j], at[j].value);
      assert Locks(m.phases[j]) == LocksAt(db, settings, txns[j], at[j].value);
      assert Blocked(m, i, LineLocks(db.rows, m.phases[i].lines[m.phases[i].done]));
    } else if at[i].Some? {
      assert Waits(db, settings, txns, at, i);
    }
  }

  lemma {:induction false} InterlockedIsStuck(db: Db, settings: Settings, txns: seq<Txn>, at: Positions, m: Machine)
    requires Interlocked(db, settings, txns, at) && Placed(db, settings, txns, at, |txns|, m)
    ensures Stuck(m, settings, txns)
  {
    forall i: nat | i < |txns| ensures !CanStep(m, settings, txns, i) {
      forall a: Action | a.txn == i && !a.Abort? ensures Step(m, settings, txns, a) == m {
        WaitingCannotStep(db, settings, txns, at, m, a);
      }
    }
    var i :| 0 <= i < |at| && at[i].Some?;
    assert !m.phases[i].Ended?;
  }

  // ---- before any has ended ----

  /** Until the first ends nothing is committed, whether transactions conflict or not. */
  lemma {:induction false} EarlyRunsKeepInv(db: Db, settings: Settings, txns: seq<Txn>, actions: seq<Action>, k: nat)
    requires k <= |actions| && Exec(Initially(db, txns), settings, txns, actions, k).log == []
    ensures Inv(db, settings, txns, Exec(Initially(db, txns), settings, txns, actions, k))
  {
    if k == 0 {
      StartsInOrder(db, settings, txns);
    } else {
      var before, a := Exec(Initially(db, txns), settings, txns, actions, k - 1), actions[k - 1];
      assert before.log == [];
      EarlyRunsKeepInv(db, settings, txns, actions, k - 1);
      if a.txn < |txns| {
        match a {
          case BeginTxn(i) => StartKeepsInv(db, settings, txns, before, i);
          case WorkLine(i) => WorkKeepsInv(db, settings, txns, before, i);
          case Commit(_) =>
          case Rollback(_) =>
          case Abort(_) =>
        }
      }
    }
  }

  /** What a run can get stuck at. */
  ghost predicate CanGetStuck(db: Db, settings: Settings, txns: seq<Txn>) {
    exists actions: seq<Action> :: Stuck(Exec(Initially(db, txns), settings, txns, actions, |actions|), settings, txns)
  }

  lemma {:induction false} StuckLater(db: Db, settings: Settings, txns: seq<Txn>, actions: seq<Action>,
      more: seq<Action>)
    requires var m := Exec(Initially(db, txns), settings, txns, actions, |actions|);
      Stuck(Exec(m, settings, txns, more, |more|), settings, txns)
    ensures CanGetStuck(db, settings, txns)
  {
    var all := actions + more;
    ExecMore(Initially(db, txns), settings, txns, actions, more, |more|);
    assert Stuck(Exec(Initially(db, txns), settings, txns, all, |all|), settings, txns);
  }

  /** From where those with a position have not begun and the others have ended. */
  lemma {:induction false} InterlockedGetStuckFrom(db: Db, settings: Settings, txns: seq<Txn>, at: Positions,
      actions: seq<Action>)
    requires var m := Exec(Initially(db, txns), settings, txns, actions, |actions|);
      Interlocked(m.db, settings, txns, at) && Placed(m.db, settings, txns, at, 0, m)
    ensures CanGetStuck(db, settings, txns)
  {
    var m := Exec(Initially(db, txns), settings, txns, actions, |actions|);
    var more := Place(m.db, settings, txns, at, |txns|, m);
    InterlockedIsStuck(m.db, settings, txns, at, Exec(m, settings, txns, more, |more|));
    StuckLater(db, settings, txns, actions, more);
  }

  /** Interlocked from the start, all of them under way. */
  lemma {:induction false} InterlockedGetStuck(db: Db, settings: Settings, txns: seq<Txn>, at: Positions)
    requires Interlocked(db, settings, txns, at) && forall i :: 0 <= i < |txns| ==> at[i].Some?
    ensures CanGetStuck(db, settings, txns)
  {
    var m0 := Initially(db, txns);
    assert Exec(m0, settings, txns, [], 0) == m0;
    assert Placed(db, settings, txns, at, 0, m0);
    InterlockedGetStuckFrom(db, settings, txns, at, []);
  }

  // ---- two transactions ----

  /** Whoever is logged has ended. */
  lemma {:induction false} LoggedHaveEnded(db: Db, settings: Settings, txns: seq<Txn>, actions: seq<Action>, k: nat)
    requires k <= |actions|
    ensures AllLoggedEnded(txns, Exec(Initially(db, txns), settings, txns, actions, k))
  {
    if k > 0 {
      LoggedHaveEnded(db, settings, txns, actions, k - 1);
      LoggedStayEnded(settings, txns, Exec(Initially(db, txns), settings, txns, actions, k - 1), actions[k - 1]);
    }
  }

  ghost predicate AllLoggedEnded(txns: seq<Txn>, m: Machine) {
    |m.phases| == |txns| && forall n :: 0 <= n < |m.log| ==> m.log[n].txn < |txns| && m.phases[m.log[n].txn].Ended?
  }

  lemma {:induction false} LoggedStayEnded(settings: Settings, txns: seq<Txn>, m: Machine, a: Action)
    requires AllLoggedEnded(txns, m)
    ensures AllLoggedEnded(txns, Step(m, settings, txns, a))
  {
  }

  /** The only one left is not kept waiting. */
  lemma {:induction false} TheLastGoesOn(m: Machine, settings: Settings, txns: seq<Txn>, i: nat)
    requires |m.phases| == |txns| == 2 && i < 2 && m.phases[1 - i].Ended?
    ensures !Stuck(m, settings, txns)
  {
    if Stuck(m, settings, txns) {
      StuckIsBlocked(m, settings, txns, i);
    }
  }

  lemma {:induction false} TwoStuckAreInterlocked(db: Db, settings: Settings, txns: seq<Txn>, actions: seq<Action>)
    requires |txns| == 2
    requires Stuck(Exec(Initially(db, txns), settings, txns, actions, |actions|), settings, txns)
    ensures exists i: nat, j: nat :: Interlocked(db, settings, txns, [Some(i), Some(j)])
  {
    var m := Exec(Initially(db, txns), settings, txns, actions, |actions|);
    LoggedHaveEnded(db, settings, txns, actions, |actions|);
    if m.log != [] {
      TheLastGoesOn(m, settings, txns, 1 - m.log[0].txn);
    }
    EarlyRunsKeepInv(db, settings, txns, actions, |actions|);
    StuckIsInterlocked(m, settings, txns);
    StuckIsBlocked(m, settings, txns, 0);
    StuckIsBlocked(m, settings, txns, 1);
    assert PositionsIn(m) == [Some(m.phases[0].done), Some(m.phases[1].done)];
  }

  /** Each can get there, on disjoint locks, and needs next a row that the other has locked by then. */
  predicate MeetHeadOn(db: Db, settings: Settings, a: Txn, i: nat, b: Txn, j: nat) {
    && Begin(db, settings, a).Work? && Begin(db, settings, b).Work?
    && i < |LinesOf(db, settings, a)| && j < |LinesOf(db, settings, b)|
    && RunTo(db.rows, LinesOf(db, settings, a), i).Ok? && RunTo(db.rows, LinesOf(db, settings, b), j).Ok?
    && LocksAt(db, settings, a, i) !! LocksAt(db, settings, b, j)
    && WaitsFor(db, settings, a, i, b, j) && WaitsFor(db, settings, b, j, a, i)
  }

  lemma {:induction false} TwoInterlockedIff(db: Db, settings: Settings, a: Txn, i: nat, b: Txn, j: nat)
    ensures Interlocked(db, settings, [a, b], [Some(i), Some(j)]) <==> MeetHeadOn(db, settings, a, i, b, j)
  {
    var txns, at := [a, b], [Some(i), Some(j)];
    if Interlocked(db, settings, txns, at) {
      assert Waits(db, settings, txns, at, 0) && Waits(db, settings, txns, at, 1);
    }
    if MeetHeadOn(db, settings, a, i, b, j) {
      assert LocksAt(db, settings, txns[0], at[0].value) !! LocksAt(db, settings, txns[1], at[1].value);
      assert Apart(db, settings, txns, at);
      assert WaitsFor(db, settings, txns[0], at[0].value, txns[1], at[1].value);
      assert WaitsFor(db, settings, txns[1], at[1].value, txns[0], at[0].value);
      assert at[0].Some?;
    }
  }

  /**
   Two transactions, whichever they are: some run leaves them waiting for each other for good exactly when each can
   get to a line that needs a row the other has locked by then, on disjoint locks up to there.
   */
  lemma {:induction false} TwoGetStuckIff(db: Db, settings: Settings, a: Txn, b: Txn)
    ensures CanGetStuck(db, settings, [a, b]) <==> exists i: nat, j: nat :: MeetHeadOn(db, settings, a, i, b, j)
  {
    var txns := [a, b];
    if CanGetStuck(db, settings, txns) {
      var actions :| Stuck(Exec(Initially(db, txns), settings, txns, actions, |actions|), settings, txns);
      TwoStuckAreInterlocked(db, settings, txns, actions);
      var i: nat, j: nat :| Interlocked(db, settings, txns, [Some(i), Some(j)]);
      TwoInterlockedIff(db, settings, a, i, b, j);
    } else if i: nat, j: nat :| MeetHeadOn(db, settings, a, i, b, j) {
      TwoInterlockedIff(db, settings, a, i, b, j);
      InterlockedGetStuck(db, settings, txns, [Some(i), Some(j)]);
    }
  }

  /** A common order is not needed: two carts that begin with one variant, in stock anywhere, never stick. */
  lemma {:induction false} SharedFirstLineNeverSticks(db: Db, settings: Settings, a: Txn, b: Txn)
    requires LinesOf(db, settings, a) != [] && LinesOf(db, settings, b) != []
    requires LineLocks(db.rows, LinesOf(db, settings, a)[0]) == LineLocks(db.rows, LinesOf(db, settings, b)[0]) != {}
    ensures !CanGetStuck(db, settings, [a, b])
  {
    TwoGetStuckIff(db, settings, a, b);
    forall i: nat, j: nat ensures !MeetHeadOn(db, settings, a, i, b, j) {
      if 0 < i <= |LinesOf(db, settings, a)| && 0 < j <= |LinesOf(db, settings, b)| {
        LineWithinLocks(db.rows, LinesOf(db, settings, a), i, 0);
        LineWithinLocks(db.rows, LinesOf(db, settings, b), j, 0);
        var r :| r in LineLocks(db.rows, LinesOf(db, settings, a)[0]);
        assert r in LocksAt(db, settings, a, i) * LocksAt(db, settings, b, j);
      }
    }
  }

  // ---- two carts in opposite orders ----

  const MUG := CartItem(Some(1), Some(1), Some(1.0), None)
  const PEN := CartItem(Some(2), Some(1), Some(1.0), None)

  function Shelf(settings: Settings, variant: int, held: int): Row {
    Row(Some(variant), settings.defaultWarehouseId, Some(4), Some(held))
  }

  function TwoCarts(settings: Settings, a: Txn, b: Txn): Db
    requires a.Checkout? && b.Checkout?
  {
    Db([Shelf(settings, 1, 0), Shelf(settings, 2, 0)], map[a.userId := [MUG, PEN], b.userId := [PEN, MUG]],
       {(a.addressId, a.userId), (b.addressId, b.userId)}, [], [], [], [])
  }

  lemma {:induction false} FirstLine(settings: Settings, variant: int)
    requires variant == 1 || variant == 2
    ensures var rows := [Shelf(settings, 1, 0), Shelf(settings, 2, 0)];
      var line := Line(Reserve, Some(variant), 1, settings.defaultWarehouseId);
      LineLocks(rows, line) == {variant - 1} && RunLine(rows, line).Ok?
  {
    var rows, warehouse := [Shelf(settings, 1, 0), Shelf(settings, 2, 0)], settings.defaultWarehouseId;
    assert PickUpTo(rows, Some(variant), warehouse, 0) == None;
    assert PickUpTo(rows, Some(variant), warehouse, 1) == if variant == 1 then Some(0) else None;
    assert PickUpTo(rows, Some(variant), warehouse, 2) == Some(variant - 1);
  }

  lemma {:induction false} OneLineIn(rows: seq<Row>, lines: seq<Line>)
    requires lines != []
    ensures LocksTo(rows, lines, 1) == LineLocks(rows, lines[0]) && RunTo(rows, lines, 1) == RunLine(rows, lines[0])
  {
    assert LocksTo(rows, lines, 0) == {} && RunTo(rows, lines, 0) == Ok(rows);
  }

  /** Any two checkouts of different users: with two variants in their carts in opposite orders they can get stuck. */
  lemma {:induction false} OppositeCartsGetStuck(settings: Settings, a: Txn, b: Txn)
    requires a.Checkout? && b.Checkout? && a.userId != b.userId
    ensures CanGetStuck(TwoCarts(settings, a, b), settings, [a, b])
  {
    var db := TwoCarts(settings, a, b);
    var mug := Line(Reserve, Some(1), 1, settings.defaultWarehouseId);
    var pen := Line(Reserve, Some(2), 1, settings.defaultWarehouseId);
    assert LinesOf(db, settings, a) == [mug, pen] && LinesOf(db, settings, b) == [pen, mug];
    FirstLine(settings, 1);
    FirstLine(settings, 2);
    OneLineIn(db.rows, [mug, pen]);
    OneLineIn(db.rows, [pen, mug]);
    assert 0 in LineLocks(db.rows, mug) && 1 in LineLocks(db.rows, pen);
    assert MeetHeadOn(db, settings, a, 1, b, 1);
    TwoGetStuckIff(db, settings, a, b);
  }

  // ---- any number of transactions ----

  function WorkActions(i: nat, n: nat): seq<Action> {
    seq(n, _ => WorkLine(i))
  }

  lemma {:induction false} WorkLinesIsExec(m: Machine, settings: Settings, txns: seq<Txn>, i: nat, n: nat, k: nat)
    requires |m.phases| == |txns| && k <= n
    ensures WorkLines(m, settings, txns, i, k) == Exec(m, settings, txns, WorkActions(i, n), k)
  {
    if k > 0 {
      WorkLinesIsExec(m, settings, txns, i, n, k - 1);
    }
  }

  lemma {:induction false} WorkMore(m: Machine, settings: Settings, txns: seq<Txn>, i: nat, n: nat,
      actions: seq<Action>)
    returns (longer: seq<Action>)
    requires |m.phases| == |txns|
    ensures Exec(m, settings, txns, longer, |longer|)
         == WorkLines(Exec(m, settings, txns, actions, |actions|), settings, txns, i, n)
  {
    longer := actions + WorkActions(i, n);
    ExecMore(m, settings, txns, actions, WorkActions(i, n), n);
    WorkLinesIsExec(Exec(m, settings, txns, actions, |actions|), settings, txns, i, n, n);
  }

  /** The steps a transaction takes when left to itself. */
  lemma {:induction false} SoloIsExec(m: Machine, settings: Settings, txns: seq<Txn>, i: nat, actions: seq<Action>)
    returns (longer: seq<Action>)
    requires |m.phases| == |txns| && i < |txns|
    ensures Exec(m, settings, txns, longer, |longer|)
         == Solo(Exec(m, settings, txns, actions, |actions|), settings, txns, i)
  {
    var now := Exec(m, settings, txns, actions, |actions|);
    var begun := Step(now, settings, txns, BeginTxn(i));
    longer := OneMore(m, settings, txns, actions, BeginTxn(i));
    if begun.phases[i].Running? {
      longer := WorkMore(m, settings, txns, i, |begun.phases[i].lines|, longer);
      var worked := WorkLines(begun, settings, txns, i, |begun.phases[i].lines|);
      longer := OneMore(m, settings, txns, longer, if worked.phases[i].Raising? then Rollback(i) else Commit(i));
    }
  }

  /** The transactions of the log are different ones. */
  ghost predicate EachOnce(txns: seq<Txn>, log: seq<Entry>) {
    && (forall k :: 0 <= k < |log| ==> log[k].txn < |txns|)
    && (forall j, k :: 0 <= j < k < |log| ==> log[j].txn != log[k].txn)
  }

  predicate Logged(log: seq<Entry>, n: nat, i: nat)
    requires n <= |log|
  {
    exists k :: 0 <= k < n && log[k].txn == i
  }

  /** Those of the first n entries have ended, the others have not begun. */
  ghost predicate Served(db: Db, settings: Settings, txns: seq<Txn>, log: seq<Entry>, n: nat, m: Machine)
    requires n <= |log|
  {
    && |m.phases| == |txns| && m.db == Replay(db, settings, txns, log, n)
    && forall i: nat :: i < |txns| ==> m.phases[i] == if Logged(log, n, i) then Ended else Idle
  }

  /** One after the other, as the log has it, each run whole or aborted before it begins. */
  lemma {:induction false} Serve(db: Db, settings: Settings, txns: seq<Txn>, log: seq<Entry>, n: nat)
    returns (actions: seq<Action>)
    requires EachOnce(txns, log) && n <= |log|
    ensures Served(db, settings, txns, log, n, Exec(Initially(db, txns), settings, txns, actions, |actions|))
  {
    if n == 0 {
      actions := [];
    } else {
      actions := Serve(db, settings, txns, log, n - 1);
      var before := Exec(Initially(db, txns), settings, txns, actions, |actions|);
      var i := log[n - 1].txn;
      assert !Logged(log, n - 1, i);
      ServeOne(db, settings, txns, log, n - 1, before);
      if log[n - 1].ending.Aborted? {
        actions := OneMore(Initially(db, txns), settings, txns, actions, Abort(i));
      } else {
        actions := SoloIsExec(Initially(db, txns), settings, txns, i, actions);
      }
    }
  }

  lemma {:induction false} ServeOne(db: Db, settings: Settings, txns: seq<Txn>, log: seq<Entry>, n: nat, m: Machine)
    requires EachOnce(txns, log) && n < |log| && Served(db, settings, txns, log, n, m)
    ensures var i := log[n].txn;
      Served(db, settings, txns, log, n + 1,
             if log[n].ending.Aborted? then Step(m, settings, txns, Abort(i)) else Solo(m, settings, txns, i))
  {
    var i := log[n].txn;
    assert !Logged(log, n, i);
    if !log[n].ending.Aborted? {
      SoloIsAtomic(m, settings, txns, i);
    }
    forall j: nat | j < |txns| ensures Logged(log, n + 1, j) <==> j == i || Logged(log, n, j) {
      if j == i {
        assert log[n].txn == j;
      }
    }
  }

  /** Some have run one after the other or been aborted; the rest, on what these leave, interlock. */
  ghost predicate InterlockedAfter(db: Db, settings: Settings, txns: seq<Txn>, log: seq<Entry>, at: Positions) {
    && EachOnce(txns, log)
    && |at| == |txns| && (forall i: nat :: i < |txns| ==> (at[i].None? <==> Logged(log, |log|, i)))
    && Interlocked(Replay(db, settings, txns, log, |log|), settings, txns, at)
  }

  /**
   Any number of transactions without conflicts: some run gets stuck exactly when, after some of them have run one
   after the other, the rest interlock on the database these leave.
   */
  lemma {:induction false} GetStuckIff(db: Db, settings: Settings, txns: seq<Txn>)
    requires ConflictFree(txns)
    ensures CanGetStuck(db, settings, txns) <==>
      exists log: seq<Entry>, at: Positions :: InterlockedAfter(db, settings, txns, log, at)
  {
    if CanGetStuck(db, settings, txns) {
      var actions :| Stuck(Exec(Initially(db, txns), settings, txns, actions, |actions|), settings, txns);
      StuckRunIsInterlocked(db, settings, txns, actions);
    } else if log: seq<Entry>, at: Positions :| InterlockedAfter(db, settings, txns, log, at) {
      InterlockedAfterGetsStuck(db, settings, txns, log, at);
    }
  }

  lemma {:induction false} StuckRunIsInterlocked(db: Db, settings: Settings, txns: seq<Txn>, actions: seq<Action>)
    requires ConflictFree(txns)
    requires Stuck(Exec(Initially(db, txns), settings, txns, actions, |actions|), settings, txns)
    ensures exists log: seq<Entry>, at: Positions :: InterlockedAfter(db, settings, txns, log, at)
  {
    RunsKeepInv(db, settings, txns, actions, |actions|);
    var m := Exec(Initially(db, txns), settings, txns, actions, |actions|);
    var at := PositionsIn(m);
    StuckIsInterlocked(m, settings, txns);
    forall i: nat | i < |txns| ensures at[i].None? <==> Logged(m.log, |m.log|, i) {
      if !m.phases[i].Ended? {
        StuckIsBlocked(m, settings, txns, i);
      }
    }
    assert InterlockedAfter(db, settings, txns, m.log, at);
  }

  lemma {:induction false} InterlockedAfterGetsStuck(db: Db, settings: Settings, txns: seq<Txn>, log: seq<Entry>,
      at: Positions)
    requires InterlockedAfter(db, settings, txns, log, at)
    ensures CanGetStuck(db, settings, txns)
  {
    var served := Serve(db, settings, txns, log, |log|);
    var m := Exec(Initially(db, txns), settings, txns, served, |served|);
    assert Placed(m.db, settings, txns, at, 0, m);
    InterlockedGetStuckFrom(db, settings, txns, at, served);
  }
}
