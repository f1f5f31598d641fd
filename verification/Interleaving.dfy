/**
 Order transactions running at the same time. A transaction locks every row of a line's variant before
 it reads them, keeps its writes to itself until it commits, and holds its locks until it ends. Between
 any two of its steps any other transaction may take steps, and any transaction may be aborted.
 */
module Interleaving {
  import opened Std
  import opened InventoryService
  import opened OrderModel

  /** `done` lines worked so far; `written` is this transaction's own uncommitted row versions. */
  datatype Phase =
    | Idle
    | Running(cart: seq<CartItem>, lines: seq<Line>, done: nat, written: map<nat, Row>, locks: set<nat>)
    | Raising(lines: seq<Line>, done: nat, error: StockError, locks: set<nat>)
    | Ended

  /** How a transaction ended: with the outcome it reports, or aborted from outside. */
  datatype Ending = Reported(outcome: Outcome) | Aborted

  datatype Entry = Entry(txn: nat, ending: Ending)

  /** `db` is the committed database; `log` lists the transactions in the order they ended. */
  datatype Machine = Machine(db: Db, phases: seq<Phase>, log: seq<Entry>)

  datatype Action = BeginTxn(txn: nat) | WorkLine(txn: nat) | Commit(txn: nat) | Rollback(txn: nat) | Abort(txn: nat)

  function Locks(p: Phase): set<nat> {
    if p.Running? || p.Raising? then p.locks else {}
  }

  /** Committed rows overlaid with a transaction's own writes. */
  function View(rows: seq<Row>, written: map<nat, Row>): seq<Row> {
    seq(|rows|, i requires 0 <= i < |rows| => if i in written then written[i] else rows[i])
  }

  function Initially(db: Db, txns: seq<Txn>): Machine {
    Machine(db, seq(|txns|, _ => Idle), [])
  }

  function End(m: Machine, i: nat, ending: Ending): Machine
    requires i < |m.phases|
  {
    m.(phases := m.phases[i := Ended], log := m.log + [Entry(i, ending)])
  }

  /** FOR UPDATE waits while another transaction holds one of the rows. */
  predicate Blocked(m: Machine, i: nat, wanted: set<nat>)
    requires i < |m.phases|
  {
    exists j :: 0 <= j < |m.phases| && j != i && !(wanted !! Locks(m.phases[j]))
  }

  /** One step; an action that is not possible now changes nothing. */
  function Step(m: Machine, settings: Settings, txns: seq<Txn>, a: Action): Machine
    requires |m.phases| == |txns|
  {
    if a.txn >= |txns| then m
    else
      var i := a.txn;
      var p := m.phases[i];
      match a
      case BeginTxn(_) =>
        if !p.Idle? then m
        else (
          match Begin(m.db, settings, txns[i])
          case Decided(outcome) => End(m, i, Reported(outcome))
          case Work(cart, lines) => m.(phases := m.phases[i := Running(cart, lines, 0, map[], {})]))
      case WorkLine(_) =>
        if !p.Running? || p.done >= |p.lines| then m
        else
          var line := p.lines[p.done];
          var wanted := LineLocks(m.db.rows, line);
          if Blocked(m, i, wanted) then m
          else m.(phases := m.phases[i := Worked(m.db.rows, p, line, wanted)])
      case Commit(_) =>
        if !p.Running? || p.done < |p.lines| then m
        else
          var (db, outcome) := Finish(m.db, settings, txns[i], p.cart, View(m.db.rows, p.written));
          End(m, i, Reported(outcome)).(db := db)
      case Rollback(_) =>
        if !p.Raising? then m else End(m, i, Reported(Failed(Stock(p.error))))
      case Abort(_) =>
        if p.Ended? then m else End(m, i, Aborted)
  }

  /** A running transaction after one more line: further along, or raising. */
  function Worked(rows: seq<Row>, p: Phase, line: Line, wanted: set<nat>): Phase
    requires p.Running?
  {
    var before := View(rows, p.written);
    match RunLine(before, line)
    case Err(e) => Raising(p.lines, p.done + 1, e, p.locks + wanted)
    case Ok(after) =>
      var changed := map i: nat | i < |after| && (i >= |before| || after[i] != before[i]) :: after[i];
      p.(done := p.done + 1, written := p.written + changed, locks := p.locks + wanted)
  }

  /** The machine after the first k actions. */
  function Exec(m: Machine, settings: Settings, txns: seq<Txn>, actions: seq<Action>, k: nat): (after: Machine)
    requires |m.phases| == |txns| && k <= |actions|
    ensures |after.phases| == |txns|
  {
    if k == 0 then m else Step(Exec(m, settings, txns, actions, k - 1), settings, txns, actions[k - 1])
  }

  /** Only the actions taken matter, not what follows them. */
  lemma {:induction false} SamePrefix(m: Machine, settings: Settings, txns: seq<Txn>, a: seq<Action>, b: seq<Action>,
      k: nat)
    requires |m.phases| == |txns| && k <= |a| && k <= |b| && a[..k] == b[..k]
    ensures Exec(m, settings, txns, a, k) == Exec(m, settings, txns, b, k)
  {
    if k > 0 {
      assert a[..k - 1] == a[..k][..k - 1] == b[..k - 1];
      SamePrefix(m, settings, txns, a, b, k - 1);
      assert a[k - 1] == a[..k][k - 1] == b[k - 1];
    }
  }

  /** Taking one more action, and taking more of them. */
  lemma {:induction false} ExecOneMore(m: Machine, settings: Settings, txns: seq<Txn>, actions: seq<Action>, a: Action)
    requires |m.phases| == |txns|
    ensures Exec(m, settings, txns, actions + [a], |actions| + 1)
         == Step(Exec(m, settings, txns, actions, |actions|), settings, txns, a)
  {
    assert (actions + [a])[..|actions|] == actions[..|actions|];
    SamePrefix(m, settings, txns, actions + [a], actions, |actions|);
  }

  lemma {:induction false} ExecMore(m: Machine, settings: Settings, txns: seq<Txn>, actions: seq<Action>,
      more: seq<Action>, k: nat)
    requires |m.phases| == |txns| && k <= |more|
    ensures Exec(m, settings, txns, actions + more, |actions| + k)
         == Exec(Exec(m, settings, txns, actions, |actions|), settings, txns, more, k)
  {
    if k == 0 {
      assert (actions + more)[..|actions|] == actions[..|actions|];
      SamePrefix(m, settings, txns, actions + more, actions, |actions|);
    } else {
      ExecMore(m, settings, txns, actions, more, k - 1);
      assert (actions + more)[|actions| + k - 1] == more[k - 1];
    }
  }

  // ---- the serial account of a run ----

  /** The database after running the first n logged transactions one after the other, aborted ones left out. */
  function Replay(db: Db, settings: Settings, txns: seq<Txn>, log: seq<Entry>, n: nat): Db
    requires n <= |log|
  {
    if n == 0 then db
    else
      var before := Replay(db, settings, txns, log, n - 1);
      if log[n - 1].ending.Aborted? || log[n - 1].txn >= |txns| then before
      else Atomic(before, settings, txns[log[n - 1].txn]).0
  }

  /** Each reported outcome is the one the transaction has when run alone at its place in the log. */
  ghost predicate OutcomesAgree(db: Db, settings: Settings, txns: seq<Txn>, log: seq<Entry>, n: nat)
    requires n <= |log|
  {
    n > 0 ==>
      && OutcomesAgree(db, settings, txns, log, n - 1)
      && log[n - 1].txn < |txns|
      && (log[n - 1].ending.Reported? ==>
            log[n - 1].ending.outcome
              == Atomic(Replay(db, settings, txns, log, n - 1), settings, txns[log[n - 1].txn]).1)
  }

  /**
   One may write what the other has read without a lock: two checkouts of one user's cart, two cancellations
   of one order by one user, a cancellation and a shipment of one order. Shipments read no status.
   */
  predicate Conflict(a: Txn, b: Txn) {
    || (a.Checkout? && b.Checkout? && a.userId == b.userId)
    || (a.CancelOrder? && b.CancelOrder? && a.orderId == b.orderId && a.userId == b.userId)
    || (a.CancelOrder? && b.RecordShipment? && a.orderId == b.orderId)
    || (a.RecordShipment? && b.CancelOrder? && a.orderId == b.orderId)
  }

  ghost predicate ConflictFree(txns: seq<Txn>) {
    forall i, j :: 0 <= i < j < |txns| ==> !Conflict(txns[i], txns[j])
  }

  // ---- lines and locks ----

  function LocksTo(rows: seq<Row>, lines: seq<Line>, k: nat): set<nat>
    requires k <= |lines|
  {
    if k == 0 then {} else LocksTo(rows, lines, k - 1) + LineLocks(rows, lines[k - 1])
  }

  /** Outside the rows it locks, a line changes nothing; inside, its effect depends on those rows alone. */
  lemma {:induction false} LineFrame(a: seq<Row>, b: seq<Row>, line: Line)
    requires SameKeys(a, b)
    requires forall i :: i in LineLocks(a, line) ==> a[i] == b[i]
    ensures LineLocks(a, line) == LineLocks(b, line)
    ensures match RunLine(a, line)
      case Err(e) => RunLine(b, line) == Err(e)
      case Ok(a') =>
        && RunLine(b, line).Ok?
        && var b' := RunLine(b, line).value;
           && SameKeys(a, a') && SameKeys(b, b')
           && forall i :: 0 <= i < |a| ==>
                if i in LineLocks(a, line) then a'[i] == b'[i] else a'[i] == a[i] && b'[i] == b[i]
  {
    if !Skips(line) {
      PickFrame(a, b, line.variantId, line.warehouseId, |a|);
      PickIsBest(a, line.variantId, line.warehouseId);
    }
  }

  lemma {:induction false} LinesFrame(a: seq<Row>, b: seq<Row>, lines: seq<Line>, k: nat)
    requires SameKeys(a, b) && k <= |lines|
    requires forall i :: i in LocksTo(a, lines, k) && i < |a| ==> a[i] == b[i]
    ensures LocksTo(a, lines, k) == LocksTo(b, lines, k)
    ensures match RunTo(a, lines, k)
      case Err(e) => RunTo(b, lines, k) == Err(e)
      case Ok(a') =>
        && RunTo(b, lines, k).Ok?
        && var b' := RunTo(b, lines, k).value;
           && SameKeys(a, a') && SameKeys(b, b')
           && forall i :: 0 <= i < |a| ==>
                if i in LocksTo(a, lines, k) then a'[i] == b'[i] else a'[i] == a[i] && b'[i] == b[i]
  {
    if k > 0 {
      LinesFrame(a, b, lines, k - 1);
      if RunTo(a, lines, k - 1).Ok? {
        var a', b' := RunTo(a, lines, k - 1).value, RunTo(b, lines, k - 1).value;
        assert LineLocks(a', lines[k - 1]) == LineLocks(a, lines[k - 1]);
        LineFrame(a', b', lines[k - 1]);
      }
      LocksKeyed(a, b, lines[k - 1]);
    }
  }

  lemma {:induction false} RunKeepsKeys(rows: seq<Row>, lines: seq<Line>, k: nat)
    requires k <= |lines| && RunTo(rows, lines, k).Ok?
    ensures SameKeys(rows, RunTo(rows, lines, k).value)
  {
    LinesFrame(rows, rows, lines, k);
  }

  lemma {:induction false} LocksKeyed(a: seq<Row>, b: seq<Row>, line: Line)
    requires SameKeys(a, b)
    ensures LineLocks(a, line) == LineLocks(b, line)
  {
  }

  // ---- what every step keeps ----

  /** Working the lines so far on these rows gives this view of them, or this error, and takes these locks. */
  ghost predicate RowsOnTrack(rows: seq<Row>, p: Phase)
    requires p.Running? || p.Raising?
  {
    && p.done <= |p.lines|
    && p.locks == LocksTo(rows, p.lines, p.done)
    && (p.Running? ==> p.written.Keys <= p.locks && RunTo(rows, p.lines, p.done) == Ok(View(rows, p.written)))
    && (p.Raising? ==> RunTo(rows, p.lines, p.done) == Err(p.error))
  }

  /** A transaction under way has done exactly what it would have done alone on the committed database. */
  ghost predicate OnTrack(db: Db, settings: Settings, t: Txn, p: Phase) {
    match p
    case Idle => true
    case Ended => true
    case Running(cart, lines, _, _, _) => Begin(db, settings, t) == Work(cart, lines) && RowsOnTrack(db.rows, p)
    case Raising(lines, _, _, _) =>
      Begin(db, settings, t).Work? && Begin(db, settings, t).lines == lines && RowsOnTrack(db.rows, p)
  }

  ghost predicate LocksExclusive(phases: seq<Phase>) {
    forall i, j :: 0 <= i < |phases| && 0 <= j < |phases| && i != j ==> Locks(phases[i]) !! Locks(phases[j])
  }

  /** Each ended transaction is in the log exactly once, and nothing else is. */
  ghost predicate LogsEachOnce(phases: seq<Phase>, log: seq<Entry>) {
    && (forall n :: 0 <= n < |log| ==> log[n].txn < |phases| && phases[log[n].txn].Ended?)
    && (forall n, k :: 0 <= n < k < |log| ==> log[n].txn != log[k].txn)
    && (forall i :: 0 <= i < |phases| && phases[i].Ended? ==> exists n :: 0 <= n < |log| && log[n].txn == i)
  }

  ghost predicate Explained(db0: Db, settings: Settings, txns: seq<Txn>, m: Machine) {
    && |m.phases| == |txns|
    && m.db == Replay(db0, settings, txns, m.log, |m.log|)
    && OutcomesAgree(db0, settings, txns, m.log, |m.log|)
    && LogsEachOnce(m.phases, m.log)
  }

  ghost predicate Inv(db0: Db, settings: Settings, txns: seq<Txn>, m: Machine) {
    && Explained(db0, settings, txns, m)
    && LocksExclusive(m.phases)
    && forall i :: 0 <= i < |txns| ==> OnTrack(m.db, settings, txns[i], m.phases[i])
  }

  lemma {:induction false} ReplayExtends(db: Db, settings: Settings, txns: seq<Txn>, log: seq<Entry>, e: Entry, n: nat)
    requires n <= |log|
    ensures Replay(db, settings, txns, log + [e], n) == Replay(db, settings, txns, log, n)
    ensures OutcomesAgree(db, settings, txns, log + [e], n) == OutcomesAgree(db, settings, txns, log, n)
  {
    if n > 0 {
      ReplayExtends(db, settings, txns, log, e, n - 1);
    }
  }

  /** Ending a transaction with the effect it has alone on the committed database keeps the account true. */
  lemma {:induction false} EndExplained(db0: Db, settings: Settings, txns: seq<Txn>, m: Machine, i: nat,
      ending: Ending, db: Db)
    requires Explained(db0, settings, txns, m) && i < |txns| && !m.phases[i].Ended?
    requires match ending
      case Aborted => db == m.db
      case Reported(outcome) => Atomic(m.db, settings, txns[i]) == (db, outcome)
    ensures Explained(db0, settings, txns, End(m, i, ending).(db := db))
  {
    var after := End(m, i, ending).(db := db);
    var n := |m.log|;
    ReplayExtends(db0, settings, txns, m.log, Entry(i, ending), n);
    assert after.log[n] == Entry(i, ending);
    forall j | 0 <= j < |after.phases| && after.phases[j].Ended?
      ensures exists k :: 0 <= k < |after.log| && after.log[k].txn == j
    {
      if j == i {
        assert after.log[n].txn == j;
      } else {
        var k :| 0 <= k < |m.log| && m.log[k].txn == j;
        assert after.log[k].txn == j;
      }
    }
  }

  /** A transaction that worked all its lines commits exactly what it would have written alone. */
  lemma {:induction false} CommitIsAtomic(db: Db, settings: Settings, t: Txn, p: Phase)
    requires OnTrack(db, settings, t, p) && p.Running? && p.done == |p.lines|
    ensures Atomic(db, settings, t) == Finish(db, settings, t, p.cart, View(db.rows, p.written))
  {
  }

  /** A commit about one order leaves every other order on file where and as it was. */
  lemma {:induction false} OtherOrderFrame(db: Db, settings: Settings, t: Txn, cart: seq<CartItem>,
      rows: seq<Row>, id: int)
    requires FindOrder(db.orders, id).Some? && (!t.Checkout? ==> t.orderId != id)
    ensures var i := FindOrder(db.orders, id).value; var after := Finish(db, settings, t, cart, rows).0;
      FindOrder(after.orders, id) == Some(i) && after.orders[i] == db.orders[i]
  {
    var i := FindOrder(db.orders, id).value;
    var after := Finish(db, settings, t, cart, rows).0;
    assert |db.orders| <= |after.orders|;
    assert forall j :: 0 <= j <= i ==> after.orders[j].id == db.orders[j].id;
  }

  /** A second shipment of the order reads the same items. */
  lemma {:induction false} ShipmentFrame(db: Db, settings: Settings, t: Txn, cart: seq<CartItem>, rows: seq<Row>,
      other: Txn)
    requires t.RecordShipment? && other.RecordShipment? && t.orderId == other.orderId
    requires Begin(db, settings, other).Work?
    ensures Begin(Finish(db, settings, t, cart, rows).0, settings, other) == Begin(db, settings, other)
  {
    var i := FindOrder(db.orders, t.orderId).value;
    var after := Finish(db, settings, t, cart, rows).0;
    assert forall j :: 0 <= j < |db.orders| ==> after.orders[j].id == db.orders[j].id;
    assert FindOrder(after.orders, t.orderId) == Some(i);
  }

  /** Another transaction's commit leaves what an independent one has read untouched. */
  lemma {:induction false} BeginFrame(db: Db, settings: Settings, t: Txn, cart: seq<CartItem>, rows: seq<Row>,
      other: Txn)
    requires !Conflict(t, other) && Begin(db, settings, t).Work? && Begin(db, settings, other).Work?
    ensures Begin(Finish(db, settings, t, cart, rows).0, settings, other) == Begin(db, settings, other)
  {
    if t.RecordShipment? && other.RecordShipment? && t.orderId == other.orderId {
      ShipmentFrame(db, settings, t, cart, rows, other);
    } else if !other.Checkout? {
      OtherOrderFrame(db, settings, t, cart, rows, other.orderId);
    }
  }

  /** What a transaction has worked does not change when rows it has not locked are written. */
  lemma {:induction false} RowsStayOnTrack(rows: seq<Row>, p: Phase, q: Phase)
    requires p.Running? && RowsOnTrack(rows, p) && (q.Running? || q.Raising?) && RowsOnTrack(rows, q)
    requires p.locks !! q.locks
    ensures SameKeys(rows, View(rows, p.written)) && RowsOnTrack(View(rows, p.written), q)
  {
    var after := View(rows, p.written);
    RunKeepsKeys(rows, p.lines, p.done);
    assert forall i :: i in q.locks ==> i !in p.written;
    LinesFrame(rows, after, q.lines, q.done);
    if q.Running? {
      assert View(after, q.written) == RunTo(after, q.lines, q.done).value;
    }
  }

  /** ... and so it stays on track, since it holds the locks of every row it has used. */
  lemma {:induction false} OthersStayOnTrack(db: Db, settings: Settings, t: Txn, p: Phase, other: Txn, q: Phase)
    requires OnTrack(db, settings, t, p) && p.Running? && OnTrack(db, settings, other, q)
    requires !Conflict(t, other) && Locks(p) !! Locks(q)
    ensures OnTrack(Finish(db, settings, t, p.cart, View(db.rows, p.written)).0, settings, other, q)
  {
    var after := Finish(db, settings, t, p.cart, View(db.rows, p.written)).0;
    if (q.Running? || q.Raising?) && after != db {
      BeginFrame(db, settings, t, p.cart, View(db.rows, p.written), other);
      RowsStayOnTrack(db.rows, p, q);
    }
  }

  /** A worked line's effect shows in the transaction's own view, and only locked rows are written. */
  lemma {:induction false} WorkedView(rows: seq<Row>, p: Phase, line: Line)
    requires p.Running? && SameKeys(rows, View(rows, p.written))
    requires RunLine(View(rows, p.written), line).Ok?
    ensures var q := Worked(rows, p, line, LineLocks(rows, line));
      && View(rows, q.written) == RunLine(View(rows, p.written), line).value
      && q.written.Keys <= p.written.Keys + LineLocks(rows, line)
  {
    var before := View(rows, p.written);
    LineFrame(before, before, line);
    LocksKeyed(rows, before, line);
  }

  lemma {:induction false} WorkedRowsOnTrack(rows: seq<Row>, p: Phase)
    requires p.Running? && RowsOnTrack(rows, p) && p.done < |p.lines|
    ensures var q := Worked(rows, p, p.lines[p.done], LineLocks(rows, p.lines[p.done]));
      && (q.Running? || q.Raising?) && q.lines == p.lines && (q.Running? ==> q.cart == p.cart)
      && RowsOnTrack(rows, q)
  {
    var line := p.lines[p.done];
    RunKeepsKeys(rows, p.lines, p.done);
    assert p.locks + LineLocks(rows, line) == LocksTo(rows, p.lines, p.done + 1);
    if RunLine(View(rows, p.written), line).Ok? {
      WorkedView(rows, p, line);
    }
  }

  /** One more line keeps a transaction on track, whether it succeeds or raises. */
  lemma {:induction false} WorkedOnTrack(db: Db, settings: Settings, t: Txn, p: Phase)
    requires OnTrack(db, settings, t, p) && p.Running? && p.done < |p.lines|
    ensures OnTrack(db, settings, t, Worked(db.rows, p, p.lines[p.done], LineLocks(db.rows, p.lines[p.done])))
  {
    WorkedRowsOnTrack(db.rows, p);
  }

  lemma {:induction false} StillExplained(db0: Db, settings: Settings, txns: seq<Txn>, m: Machine, i: nat, q: Phase)
    requires Explained(db0, settings, txns, m) && i < |txns| && !m.phases[i].Ended? && !q.Ended?
    ensures Explained(db0, settings, txns, m.(phases := m.phases[i := q]))
  {
  }

  /** A transaction that goes on, still on track and with locks no one else holds. */
  lemma {:induction false} PhaseKeepsInv(db0: Db, settings: Settings, txns: seq<Txn>, m: Machine, i: nat, q: Phase)
    requires Inv(db0, settings, txns, m) && i < |txns| && !m.phases[i].Ended? && !q.Ended?
    requires OnTrack(m.db, settings, txns[i], q)
    requires forall j :: 0 <= j < |txns| && j != i ==> Locks(q) !! Locks(m.phases[j])
    ensures Inv(db0, settings, txns, m.(phases := m.phases[i := q]))
  {
    StillExplained(db0, settings, txns, m, i, q);
  }

  /** A transaction that ends without a change to the database. */
  lemma {:induction false} EndKeepsInv(db0: Db, settings: Settings, txns: seq<Txn>, m: Machine, i: nat, ending: Ending)
    requires Inv(db0, settings, txns, m) && i < |txns| && !m.phases[i].Ended?
    requires ending.Reported? ==> Atomic(m.db, settings, txns[i]) == (m.db, ending.outcome)
    ensures Inv(db0, settings, txns, End(m, i, ending))
  {
    EndExplained(db0, settings, txns, m, i, ending, m.db);
  }

  lemma {:induction false} StartKeepsInv(db0: Db, settings: Settings, txns: seq<Txn>, m: Machine, i: nat)
    requires Inv(db0, settings, txns, m) && i < |txns|
    ensures Inv(db0, settings, txns, Step(m, settings, txns, BeginTxn(i)))
  {
    if m.phases[i].Idle? {
      match Begin(m.db, settings, txns[i]) {
        case Decided(outcome) => EndKeepsInv(db0, settings, txns, m, i, Reported(outcome));
        case Work(cart, lines) =>
          StartsOnTrack(m.db, settings, txns[i], cart, lines);
          PhaseKeepsInv(db0, settings, txns, m, i, Running(cart, lines, 0, map[], {}));
      }
    }
  }

  lemma {:induction false} StartsOnTrack(db: Db, settings: Settings, t: Txn, cart: seq<CartItem>, lines: seq<Line>)
    requires Begin(db, settings, t) == Work(cart, lines)
    ensures OnTrack(db, settings, t, Running(cart, lines, 0, map[], {}))
  {
    assert View(db.rows, map[]) == db.rows;
  }

  lemma {:induction false} WorkKeepsInv(db0: Db, settings: Settings, txns: seq<Txn>, m: Machine, i: nat)
    requires Inv(db0, settings, txns, m) && i < |txns|
    ensures Inv(db0, settings, txns, Step(m, settings, txns, WorkLine(i)))
  {
    var p := m.phases[i];
    if Step(m, settings, txns, WorkLine(i)) != m {
      var wanted := LineLocks(m.db.rows, p.lines[p.done]);
      var q := Worked(m.db.rows, p, p.lines[p.done], wanted);
      WorkedOnTrack(m.db, settings, txns[i], p);
      assert Locks(q) == p.locks + wanted;
      assert !Blocked(m, i, wanted);
      PhaseKeepsInv(db0, settings, txns, m, i, q);
    }
  }

  lemma {:induction false} CommitKeepsInv(db0: Db, settings: Settings, txns: seq<Txn>, m: Machine, i: nat)
    requires Inv(db0, settings, txns, m) && i < |txns| && ConflictFree(txns)
    ensures Inv(db0, settings, txns, Step(m, settings, txns, Commit(i)))
  {
    var p, after := m.phases[i], Step(m, settings, txns, Commit(i));
    if p.Running? && p.done == |p.lines| {
      CommitIsAtomic(m.db, settings, txns[i], p);
      EndExplained(db0, settings, txns, m, i, Reported(Atomic(m.db, settings, txns[i]).1), after.db);
      forall j | 0 <= j < |txns| && j != i ensures OnTrack(after.db, settings, txns[j], after.phases[j]) {
        assert !Conflict(txns[i], txns[j]) && !Conflict(txns[j], txns[i]);
        OthersStayOnTrack(m.db, settings, txns[i], p, txns[j], m.phases[j]);
      }
    }
  }

  lemma {:induction false} GiveUpKeepsInv(db0: Db, settings: Settings, txns: seq<Txn>, m: Machine, a: Action)
    requires Inv(db0, settings, txns, m) && (a.Rollback? || a.Abort?)
    ensures Inv(db0, settings, txns, Step(m, settings, txns, a))
  {
    if Step(m, settings, txns, a) != m {
      var p := m.phases[a.txn];
      if a.Rollback? {
        RunToStopsAtError(m.db.rows, p.lines, p.done, |p.lines|);
        EndKeepsInv(db0, settings, txns, m, a.txn, Reported(Failed(Stock(p.error))));
      } else {
        EndKeepsInv(db0, settings, txns, m, a.txn, Aborted);
      }
    }
  }

  lemma {:induction false} StepKeepsInv(db0: Db, settings: Settings, txns: seq<Txn>, m: Machine, a: Action)
    requires Inv(db0, settings, txns, m) && ConflictFree(txns)
    ensures Inv(db0, settings, txns, Step(m, settings, txns, a))
  {
    if a.txn < |txns| {
      match a {
        case BeginTxn(i) => StartKeepsInv(db0, settings, txns, m, i);
        case WorkLine(i) => WorkKeepsInv(db0, settings, txns, m, i);
        case Commit(i) => CommitKeepsInv(db0, settings, txns, m, i);
        case Rollback(_) => GiveUpKeepsInv(db0, settings, txns, m, a);
        case Abort(_) => GiveUpKeepsInv(db0, settings, txns, m, a);
      }
    }
  }

  lemma {:induction false} StartsInOrder(db: Db, settings: Settings, txns: seq<Txn>)
    ensures Inv(db, settings, txns, Initially(db, txns))
  {
    var m := Initially(db, txns);
    assert forall i :: 0 <= i < |txns| ==> m.phases[i] == Idle;
  }

  lemma {:induction false} RunsKeepInv(db: Db, settings: Settings, txns: seq<Txn>, actions: seq<Action>, k: nat)
    requires ConflictFree(txns) && k <= |actions|
    ensures Inv(db, settings, txns, Exec(Initially(db, txns), settings, txns, actions, k))
  {
    if k == 0 {
      StartsInOrder(db, settings, txns);
    } else {
      RunsKeepInv(db, settings, txns, actions, k - 1);
      StepKeepsInv(db, settings, txns, Exec(Initially(db, txns), settings, txns, actions, k - 1), actions[k - 1]);
    }
  }

  /**
   Serializability. However independent transactions interleave, wherever any of them is aborted, the
   committed database and every reported outcome are those of running the ended transactions whole, one
   after the other in the order they ended; each appears in that order once.
   */
  lemma {:induction false} RunsAreSerializable(db: Db, settings: Settings, txns: seq<Txn>, actions: seq<Action>, k: nat)
    requires ConflictFree(txns) && k <= |actions|
    ensures Explained(db, settings, txns, Exec(Initially(db, txns), settings, txns, actions, k))
  {
    RunsKeepInv(db, settings, txns, actions, k);
  }

  // ---- a transaction left to itself ----

  function WorkLines(m: Machine, settings: Settings, txns: seq<Txn>, i: nat, k: nat): (after: Machine)
    requires |m.phases| == |txns|
    ensures |after.phases| == |txns|
  {
    if k == 0 then m else Step(WorkLines(m, settings, txns, i, k - 1), settings, txns, WorkLine(i))
  }

  /** Begin, work every line, then commit or roll back. */
  function Solo(m: Machine, settings: Settings, txns: seq<Txn>, i: nat): Machine
    requires |m.phases| == |txns| && i < |txns|
  {
    var begun := Step(m, settings, txns, BeginTxn(i));
    if !begun.phases[i].Running? then begun
    else
      var worked := WorkLines(begun, settings, txns, i, |begun.phases[i].lines|);
      if worked.phases[i].Raising? then Step(worked, settings, txns, Rollback(i))
      else Step(worked, settings, txns, Commit(i))
  }

  lemma {:induction false} WorkLineAlone(m: Machine, settings: Settings, txns: seq<Txn>, i: nat)
    requires |m.phases| == |txns| && i < |txns| && forall j :: 0 <= j < |txns| && j != i ==> Locks(m.phases[j]) == {}
    requires OnTrack(m.db, settings, txns[i], m.phases[i])
    requires m.phases[i].Running? && m.phases[i].done < |m.phases[i].lines|
    ensures var p := m.phases[i]; var q := Worked(m.db.rows, p, p.lines[p.done], LineLocks(m.db.rows, p.lines[p.done]));
      && Step(m, settings, txns, WorkLine(i)) == m.(phases := m.phases[i := q])
      && OnTrack(m.db, settings, txns[i], q)
      && (q.Raising? || (q.Running? && q.lines == p.lines && q.done == p.done + 1))
  {
    var p := m.phases[i];
    WorkedOnTrack(m.db, settings, txns[i], p);
    assert !Blocked(m, i, LineLocks(m.db.rows, p.lines[p.done]));
  }

  lemma {:induction false} WorkLinesAlone(m: Machine, settings: Settings, txns: seq<Txn>, i: nat, k: nat)
    requires |m.phases| == |txns| && i < |txns| && forall j :: 0 <= j < |txns| && j != i ==> Locks(m.phases[j]) == {}
    requires OnTrack(m.db, settings, txns[i], m.phases[i]) && m.phases[i].Running? && m.phases[i].done == 0
    requires k <= |m.phases[i].lines|
    ensures var w := WorkLines(m, settings, txns, i, k); var p := w.phases[i];
      && w == m.(phases := m.phases[i := p]) && OnTrack(m.db, settings, txns[i], p)
      && (p.Raising? || (p.Running? && p.lines == m.phases[i].lines && p.done == k))
  {
    if k > 0 {
      WorkLinesAlone(m, settings, txns, i, k - 1);
      var before := WorkLines(m, settings, txns, i, k - 1);
      if before.phases[i].Running? {
        WorkLineAlone(before, settings, txns, i);
        var q := Step(before, settings, txns, WorkLine(i)).phases[i];
        assert m.phases[i := before.phases[i]][i := q] == m.phases[i := q];
      }
    }
  }

  /** With no other transaction holding locks it reaches its end and does what it does alone. */
  lemma {:induction false} SoloIsAtomic(m: Machine, settings: Settings, txns: seq<Txn>, i: nat)
    requires |m.phases| == |txns| && i < |txns| && m.phases[i].Idle?
    requires forall j :: 0 <= j < |txns| ==> Locks(m.phases[j]) == {}
    ensures var (db, outcome) := Atomic(m.db, settings, txns[i]);
      Solo(m, settings, txns, i) == End(m, i, Reported(outcome)).(db := db)
  {
    var begun := Step(m, settings, txns, BeginTxn(i));
    if begun.phases[i].Running? {
      assert View(m.db.rows, map[]) == m.db.rows;
      var n := |begun.phases[i].lines|;
      WorkLinesAlone(begun, settings, txns, i, n);
      var p := WorkLines(begun, settings, txns, i, n).phases[i];
      if p.Raising? {
        RunToStopsAtError(m.db.rows, p.lines, p.done, n);
      } else {
        CommitIsAtomic(m.db, settings, txns[i], p);
      }
    }
  }
}
