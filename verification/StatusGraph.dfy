/**
 The life of one order under every writer of its status but `record_shipment`: placing it, converting a
 quote, staff changes, customer cancellation and payment confirmation
 (admin_api/handlers/orders_handler.py, storefront/services/order_service.py).
 */
module StatusGraph {
  import opened Std
  import opened OrderModel

  /** ORDER_TRANSITIONS; a status that is not listed allows nothing. */
  function Transitions(status: OrderStatus): seq<OrderStatus> {
    match status
    case Pending => [Confirmed, Cancelled]
    case Confirmed => [InProduction, Cancelled]
    case InProduction => [ReadyToShip, Cancelled]
    case ReadyToShip => [Shipped, Cancelled]
    case Shipped => [Delivered, Returned]
    case Delivered => [Returned]
    case Cancelled => []
    case Returned => []
    case Paid => []
  }

  /**
   Staff may take an order one step along the main line; cancel it until it is shipped; and take it back once it is
   shipped or delivered. Nothing else, and nothing from the status "paid".
   */
  lemma {:induction false} TransitionsAre(from: OrderStatus, to: OrderStatus)
    ensures to in Transitions(from) <==>
      || (from, to) in {(Pending, Confirmed), (Confirmed, InProduction), (InProduction, ReadyToShip),
                        (ReadyToShip, Shipped), (Shipped, Delivered)}
      || (to == Cancelled && from in {Pending, Confirmed, InProduction, ReadyToShip})
      || (to == Returned && from in {Shipped, Delivered})
  {
  }

  datatype Refusal = InvalidTransition(from: OrderStatus, to: OrderStatus) | NotCancellableNow(status_: OrderStatus)

  datatype Event = StaffChange(to: OrderStatus) | CustomerCancel | PaymentConfirmed

  /** `history` is the status history table; `trace` every status the order has had. */
  datatype Life = Life(status: OrderStatus, history: seq<OrderStatus>, trace: seq<OrderStatus>)

  datatype Origin = PlacedByCustomer | ConvertedQuote

  /** The storefront writes a first history row; quote conversion does not. */
  function Born(origin: Origin): Life {
    match origin
    case PlacedByCustomer => Life(Pending, [Pending], [Pending])
    case ConvertedQuote => Life(Confirmed, [], [Confirmed])
  }

  function Move(life: Life, to: OrderStatus, recorded: bool): Life {
    Life(to, if recorded then life.history + [to] else life.history, life.trace + [to])
  }

  function Next(life: Life, e: Event): Life {
    match e
    case StaffChange(to) => if to in Transitions(life.status) then Move(life, to, true) else life
    case CustomerCancel =>
      if life.status != Cancelled && HoldsReservation(life.status) then Move(life, Cancelled, false) else life
    case PaymentConfirmed => if life.status == Pending then Move(life, Confirmed, false) else life
  }

  function Lived(origin: Origin, events: seq<Event>, k: nat): Life
    requires k <= |events|
  {
    if k == 0 then Born(origin) else Next(Lived(origin, events, k - 1), events[k - 1])
  }

  /** The order row the handlers load, change and save. */
  class OrderRow {
    var status: OrderStatus
    var history: seq<OrderStatus>
    ghost var trace: seq<OrderStatus>

    constructor (origin: Origin)
      ensures Value() == Born(origin)
    {
      status := if origin.PlacedByCustomer? then Pending else Confirmed;
      history := if origin.PlacedByCustomer? then [Pending] else [];
      trace := [if origin.PlacedByCustomer? then Pending else Confirmed];
    }

    ghost function Value(): Life
      reads this
    {
      Life(status, history, trace)
    }

    method ChangeStatus(to: OrderStatus) returns (refusal: Option<Refusal>)
      modifies this
      ensures Value() == Next(old(Value()), StaffChange(to))
      ensures refusal.None? <==> to in Transitions(old(status))
    {
      if to !in Transitions(status) {
        return Some(InvalidTransition(status, to));
      }
      status := to;
      history := history + [to];
      trace := trace + [to];
      refusal := None;
    }

    method Cancel() returns (refusal: Option<Refusal>)
      modifies this
      ensures Value() == Next(old(Value()), CustomerCancel)
      ensures refusal.None? <==> old(status) == Cancelled || HoldsReservation(old(status))
    {
      if status == Cancelled {
        return None;
      }
      if !HoldsReservation(status) {
        return Some(NotCancellableNow(status));
      }
      status := Cancelled;
      trace := trace + [Cancelled];
      refusal := None;
    }

    method ConfirmPaid()
      modifies this
      ensures Value() == Next(old(Value()), PaymentConfirmed)
    {
      if status == Pending {
        status := Confirmed;
        trace := trace + [Confirmed];
      }
    }
  }

  // ---- what every life has in common ----

  function Rank(status: OrderStatus): nat {
    match status
    case Pending => 0
    case Paid => 0
    case Confirmed => 1
    case InProduction => 2
    case ReadyToShip => 3
    case Shipped => 4
    case Delivered => 5
    case Cancelled => 6
    case Returned => 6
  }

  ghost predicate FollowsGraph(trace: seq<OrderStatus>) {
    forall i :: 0 <= i < |trace| - 1 ==> trace[i + 1] in Transitions(trace[i])
  }

  ghost predicate Rising(statuses: seq<OrderStatus>) {
    forall i, j :: 0 <= i < j < |statuses| ==> Rank(statuses[i]) < Rank(statuses[j])
  }

  ghost predicate Subsequence(a: seq<OrderStatus>, b: seq<OrderStatus>) {
    a == [] || (b != [] && (
      (a[|a| - 1] == b[|b| - 1] && Subsequence(a[..|a| - 1], b[..|b| - 1]))
      || Subsequence(a, b[..|b| - 1])))
  }

  ghost predicate Orderly(life: Life) {
    && life.trace != [] && life.trace[|life.trace| - 1] == life.status && life.status != Paid
    && FollowsGraph(life.trace) && Rising(life.trace) && Rising(life.history)
    && Subsequence(life.history, life.trace)
    && (forall i :: 0 <= i < |life.history| ==> Rank(life.history[i]) <= Rank(life.status))
    && (forall i :: 0 <= i < |life.trace| ==> Rank(life.trace[i]) <= Rank(life.status))
    && |life.trace| <= Rank(life.status) + 1
  }

  lemma {:induction false} EdgesRise(from: OrderStatus, to: OrderStatus)
    requires to in Transitions(from) && from != Paid
    ensures Rank(from) < Rank(to) && to != Paid
  {
  }

  lemma {:induction false} RisingAppend(statuses: seq<OrderStatus>, to: OrderStatus)
    requires Rising(statuses) && forall i :: 0 <= i < |statuses| ==> Rank(statuses[i]) < Rank(to)
    ensures Rising(statuses + [to])
  {
  }

  lemma {:induction false} SubsequenceAppend(a: seq<OrderStatus>, b: seq<OrderStatus>, to: OrderStatus, recorded: bool)
    requires Subsequence(a, b)
    ensures Subsequence(if recorded then a + [to] else a, b + [to])
  {
    assert (b + [to])[..|b|] == b && (a + [to])[..|a|] == a;
  }

  lemma {:induction false} FollowsAppend(trace: seq<OrderStatus>, to: OrderStatus)
    requires trace != [] && FollowsGraph(trace) && to in Transitions(trace[|trace| - 1])
    ensures FollowsGraph(trace + [to])
  {
    var longer := trace + [to];
    forall i | 0 <= i < |longer| - 1 ensures longer[i + 1] in Transitions(longer[i]) {
      assert longer[i] == trace[i];
      assert i + 1 < |trace| ==> longer[i + 1] == trace[i + 1];
    }
  }

  lemma {:induction false} BoundAppend(statuses: seq<OrderStatus>, from: OrderStatus, to: OrderStatus)
    requires Rank(from) < Rank(to) && forall i :: 0 <= i < |statuses| ==> Rank(statuses[i]) <= Rank(from)
    ensures forall i :: 0 <= i < |statuses + [to]| ==> Rank((statuses + [to])[i]) <= Rank(to)
  {
  }

  lemma {:induction false} MoveKeepsOrderly(life: Life, to: OrderStatus, recorded: bool)
    requires Orderly(life) && to in Transitions(life.status)
    ensures Orderly(Move(life, to, recorded))
  {
    EdgesRise(life.status, to);
    FollowsAppend(life.trace, to);
    BoundAppend(life.trace, life.status, to);
    BoundAppend(life.history, life.status, to);
    RisingAppend(life.trace, to);
    RisingAppend(life.history, to);
    SubsequenceAppend(life.history, life.trace, to, recorded);
  }

  /** An event moves an order along the graph, recorded if staff did it, or not at all. */
  lemma {:induction false} NextMoves(life: Life, e: Event)
    requires life.status != Paid
    ensures var next := Next(life, e);
      next == life || (next.status in Transitions(life.status) && next == Move(life, next.status, e.StaffChange?))
  {
  }

  lemma {:induction false} NextKeepsOrderly(life: Life, e: Event)
    requires Orderly(life)
    ensures Orderly(Next(life, e)) && |Next(life, e).trace| <= 7
  {
    NextMoves(life, e);
    if Next(life, e) != life {
      MoveKeepsOrderly(life, Next(life, e).status, e.StaffChange?);
    }
  }

  lemma {:induction false} BornOrderly(origin: Origin)
    ensures Orderly(Born(origin))
  {
    assert Subsequence([Pending][..0], [Pending][..0]);
  }

  /**
   However staff, customer and payment provider act on an order, it moves only along the transition
   graph, with strictly rising rank, so it changes status at most six times; its history is a
   subsequence of its true statuses, with strictly rising rank too.
   */
  lemma {:induction false} EveryLifeIsOrderly(origin: Origin, events: seq<Event>, k: nat)
    requires k <= |events|
    ensures Orderly(Lived(origin, events, k))
    ensures |Lived(origin, events, k).trace| <= 7
  {
    if k == 0 {
      BornOrderly(origin);
    } else {
      EveryLifeIsOrderly(origin, events, k - 1);
      NextKeepsOrderly(Lived(origin, events, k - 1), events[k - 1]);
    }
  }

  /** The statuses an order that is never cancelled or returned passes through. */
  function MainLine(origin: Origin): seq<OrderStatus> {
    (if origin.PlacedByCustomer? then [Pending] else []) + [Confirmed, InProduction, ReadyToShip, Shipped, Delivered]
  }

  ghost predicate OnMainLine(origin: Origin, life: Life) {
    if life.status == Cancelled || life.status == Returned
    then |life.trace| >= 2 && life.trace[..|life.trace| - 1] <= MainLine(origin)
    else life.trace <= MainLine(origin)
  }

  lemma {:induction false} PrefixStep(a: seq<OrderStatus>, b: seq<OrderStatus>)
    requires a <= b && |a| < |b|
    ensures a + [b[|a|]] <= b
  {
    assert b[..|a| + 1] == b[..|a|] + [b[|a|]];
  }

  lemma {:induction false} NextOnMainLine(origin: Origin, i: nat, to: OrderStatus)
    requires i < |MainLine(origin)| && to in Transitions(MainLine(origin)[i]) && to != Cancelled && to != Returned
    ensures i + 1 < |MainLine(origin)| && MainLine(origin)[i + 1] == to
  {
  }

  lemma {:induction false} MoveStaysOnMainLine(origin: Origin, life: Life, to: OrderStatus, recorded: bool)
    requires OnMainLine(origin, life) && life.trace != [] && life.trace[|life.trace| - 1] == life.status
    requires to in Transitions(life.status) && life.status != Paid
    ensures OnMainLine(origin, Move(life, to, recorded))
  {
    var trace := life.trace;
    assert (trace + [to])[..|trace|] == trace;
    assert trace[|trace| - 1] == MainLine(origin)[|trace| - 1];
    if to != Cancelled && to != Returned {
      NextOnMainLine(origin, |trace| - 1, to);
      PrefixStep(trace, MainLine(origin));
    }
  }

  lemma {:induction false} BornOnMainLine(origin: Origin)
    ensures OnMainLine(origin, Born(origin))
  {
    assert MainLine(origin)[..1] == Born(origin).trace;
  }

  lemma {:induction false} NextStaysOnMainLine(origin: Origin, life: Life, e: Event)
    requires OnMainLine(origin, life) && life.trace != [] && life.trace[|life.trace| - 1] == life.status
    requires life.status != Paid
    ensures OnMainLine(origin, Next(life, e))
  {
    NextMoves(life, e);
    if Next(life, e) != life {
      MoveStaysOnMainLine(origin, life, Next(life, e).status, e.StaffChange?);
    }
  }

  /**
   No status is skipped: every order has followed the main line from its start, in order and without gaps,
   and at most left it once, to be cancelled or returned. So a shipped order was confirmed, produced and ready.
   */
  lemma {:induction false} NoStatusIsSkipped(origin: Origin, events: seq<Event>, k: nat)
    requires k <= |events|
    ensures OnMainLine(origin, Lived(origin, events, k))
  {
    if k == 0 {
      BornOnMainLine(origin);
    } else {
      NoStatusIsSkipped(origin, events, k - 1);
      EveryLifeIsOrderly(origin, events, k - 1);
      NextStaysOnMainLine(origin, Lived(origin, events, k - 1), events[k - 1]);
    }
  }

  /** Six changes do happen: the bound is met. */
  lemma {:induction false} SixChangesHappen()
    ensures var events := [PaymentConfirmed, StaffChange(InProduction), StaffChange(ReadyToShip),
                           StaffChange(Shipped), StaffChange(Delivered), StaffChange(Returned)];
      |Lived(PlacedByCustomer, events, 6).trace| == 7
  {
    var events := [PaymentConfirmed, StaffChange(InProduction), StaffChange(ReadyToShip),
                   StaffChange(Shipped), StaffChange(Delivered), StaffChange(Returned)];
    assert Lived(PlacedByCustomer, events, 1).status == Confirmed;
    assert Lived(PlacedByCustomer, events, 2).status == InProduction;
    assert Lived(PlacedByCustomer, events, 3).status == ReadyToShip;
    assert Lived(PlacedByCustomer, events, 4).status == Shipped && |Lived(PlacedByCustomer, events, 4).trace| == 5;
    assert Lived(PlacedByCustomer, events, 5).status == Delivered;
  }

  lemma {:induction false} TerminalStays(life: Life, e: Event)
    requires life.status == Cancelled || life.status == Returned
    ensures Next(life, e) == life
  {
  }

  /** Cancelled and returned orders never move again, whatever is tried. */
  lemma {:induction false} TerminalAbsorbs(origin: Origin, events: seq<Event>, j: nat, k: nat)
    requires j <= k <= |events|
    requires Lived(origin, events, j).status == Cancelled || Lived(origin, events, j).status == Returned
    ensures Lived(origin, events, k) == Lived(origin, events, j)
  {
    if j < k {
      TerminalAbsorbs(origin, events, j, k - 1);
      TerminalStays(Lived(origin, events, k - 1), events[k - 1]);
    }
  }

  /** A change of status that writes no history row: cancelling what holds a reservation, paying what is pending. */
  predicate Silent(status: OrderStatus, e: Event) {
    (e.CustomerCancel? && HoldsReservation(status)) || (e.PaymentConfirmed? && status == Pending)
  }

  /** How many of the first k events met such a status; a converted quote starts one behind. */
  function SilentChanges(origin: Origin, events: seq<Event>, k: nat): nat
    requires k <= |events|
  {
    if k == 0 then (if origin.ConvertedQuote? then 1 else 0)
    else
      SilentChanges(origin, events, k - 1)
      + if Silent(Lived(origin, events, k - 1).status, events[k - 1]) then 1 else 0
  }

  /**
   The history lacks one row for each customer cancellation of an order that held a reservation, each
   payment confirmed while pending and the conversion of a quote; it is complete exactly when there was none.
   */
  lemma {:induction false} HistoryCompleteIff(origin: Origin, events: seq<Event>, k: nat)
    requires k <= |events|
    ensures var life := Lived(origin, events, k);
      && |life.trace| == |life.history| + SilentChanges(origin, events, k)
      && (life.history == life.trace <==> SilentChanges(origin, events, k) == 0)
  {
    if k > 0 {
      HistoryCompleteIff(origin, events, k - 1);
    }
  }

  /** A paid order that went into production: nothing on file says it was ever confirmed. */
  lemma {:induction false} ConfirmationLeavesNoTrace()
    ensures var life := Lived(PlacedByCustomer, [PaymentConfirmed, StaffChange(InProduction)], 2);
      life.trace == [Pending, Confirmed, InProduction] && life.history == [Pending, InProduction]
  {
    var events := [PaymentConfirmed, StaffChange(InProduction)];
    assert Lived(PlacedByCustomer, events, 0) == Born(PlacedByCustomer);
    assert Lived(PlacedByCustomer, events, 1) == Life(Confirmed, [Pending], [Pending, Confirmed]);
  }
}
