/**
 Exactly when a checkout gets past reservation, for carts of any size and in any line order.
 */
module Feasibility {
  import opened Std
  import opened Sums
  import opened InventoryService
  import opened OrderModel
  import opened CartService

  /** Units the row found for that variant can still sell; zero when there is none. */
  function Sellable(rows: seq<Row>, variant: Option<int>, warehouse: Option<int>): int {
    var chosen := Pick(rows, variant, warehouse);
    if chosen.None? then 0 else rows[chosen.value].Available()
  }

  function AskedOf(variant: Option<int>): Line -> int {
    (line: Line) => if line.variantId == variant then line.quantity else 0
  }

  ghost predicate ReservesFrom(lines: seq<Line>, warehouse: Option<int>) {
    forall k :: 0 <= k < |lines| ==> lines[k].op == Reserve && lines[k].warehouseId == warehouse
  }

  // ---- one row per variant ----

  /** No two rows in the pinned warehouse (in all of them when none is pinned) hold the same variant. */
  ghost predicate OneCandidate(rows: seq<Row>, warehouse: Option<int>) {
    forall i, j :: 0 <= i < j < |rows| ==>
      !(rows[i].variantId == rows[j].variantId
        && Matches(rows[i], rows[i].variantId, warehouse) && Matches(rows[j], rows[j].variantId, warehouse))
  }

  /** Every quantity among the first k lines is positive and each variant's sum fits what is sellable. */
  ghost predicate Fits(rows: seq<Row>, lines: seq<Line>, warehouse: Option<int>, k: nat)
    requires k <= |lines|
  {
    forall j :: 0 <= j < k ==>
      && lines[j].quantity > 0
      && Sum(lines, AskedOf(lines[j].variantId), k) <= Sellable(rows, lines[j].variantId, warehouse)
  }

  lemma {:induction false} OnlyCandidateIsPicked(rows: seq<Row>, i: nat, warehouse: Option<int>)
    requires OneCandidate(rows, warehouse) && i < |rows| && Matches(rows[i], rows[i].variantId, warehouse)
    ensures Pick(rows, rows[i].variantId, warehouse) == Some(i)
  {
    PickIsBest(rows, rows[i].variantId, warehouse);
    assert i in LockSet(rows, rows[i].variantId, warehouse);
  }

  /** Reserving lowers what is sellable of the line's variant by its quantity and of no other. */
  lemma {:induction false} SellableAfterLine(rows: seq<Row>, line: Line, variant: Option<int>)
    requires OneCandidate(rows, line.warehouseId) && line.op == Reserve && RunLine(rows, line).Ok?
    ensures var after := RunLine(rows, line).value;
      && OneCandidate(after, line.warehouseId)
      && Sellable(after, variant, line.warehouseId)
         == Sellable(rows, variant, line.warehouseId) - AskedOf(variant)(line)
  {
    var after := RunLine(rows, line).value;
    var i := Pick(rows, line.variantId, line.warehouseId).value;
    assert SameKeys(rows, after);
    OnlyCandidateIsPicked(after, i, line.warehouseId);
    if variant != line.variantId {
      PickFrame(rows, after, variant, line.warehouseId, |rows|);
    }
  }

  lemma {:induction false} ReserveIffFitsTo(rows: seq<Row>, lines: seq<Line>, warehouse: Option<int>, k: nat)
    requires OneCandidate(rows, warehouse) && ReservesFrom(lines, warehouse) && k <= |lines|
    ensures RunTo(rows, lines, k).Ok? <==> Fits(rows, lines, warehouse, k)
    ensures RunTo(rows, lines, k).Ok? ==> OneCandidate(RunTo(rows, lines, k).value, warehouse)
    ensures RunTo(rows, lines, k).Ok? ==> forall v ::
      Sellable(RunTo(rows, lines, k).value, v, warehouse) == Sellable(rows, v, warehouse) - Sum(lines, AskedOf(v), k)
  {
    if k == 0 {
      return;
    }
    ReserveIffFitsTo(rows, lines, warehouse, k - 1);
    var line := lines[k - 1];
    if RunTo(rows, lines, k).Ok? {
      var before := RunTo(rows, lines, k - 1).value;
      forall v ensures
        Sellable(RunTo(rows, lines, k).value, v, warehouse) == Sellable(rows, v, warehouse) - Sum(lines, AskedOf(v), k)
      {
        SellableAfterLine(before, line, v);
      }
      SellableAfterLine(before, line, line.variantId);
    }
    if line.quantity > 0 {
      assert Fits(rows, lines, warehouse, k) ==> Fits(rows, lines, warehouse, k - 1);
    }
    if Fits(rows, lines, warehouse, k) {
      assert line.quantity > 0;
      assert Sum(lines, AskedOf(line.variantId), k) <= Sellable(rows, line.variantId, warehouse);
    }
  }

  /** With one candidate row per variant, all lines reserve exactly when each variant's total fits. */
  lemma {:induction false} ReserveIffFits(rows: seq<Row>, lines: seq<Line>, warehouse: Option<int>)
    requires OneCandidate(rows, warehouse) && ReservesFrom(lines, warehouse)
    ensures RunTo(rows, lines, |lines|).Ok? <==> Fits(rows, lines, warehouse, |lines|)
  {
    ReserveIffFitsTo(rows, lines, warehouse, |lines|);
  }

  // ---- line order ----

  /** Whether the lines reserve does not depend on their order. */
  lemma {:induction false} OrderOfLinesIsIrrelevant(rows: seq<Row>, a: seq<Line>, b: seq<Line>, warehouse: Option<int>)
    requires OneCandidate(rows, warehouse) && ReservesFrom(a, warehouse) && ReservesFrom(b, warehouse)
    requires multiset(a) == multiset(b)
    ensures RunTo(rows, a, |a|).Ok? <==> RunTo(rows, b, |b|).Ok?
  {
    ReserveIffFits(rows, a, warehouse);
    ReserveIffFits(rows, b, warehouse);
    if RunTo(rows, a, |a|).Ok? {
      FitsPermutes(rows, a, b, warehouse);
    }
    if RunTo(rows, b, |b|).Ok? {
      FitsPermutes(rows, b, a, warehouse);
    }
  }

  lemma {:induction false} FitsPermutes(rows: seq<Row>, a: seq<Line>, b: seq<Line>, warehouse: Option<int>)
    requires multiset(a) == multiset(b) && Fits(rows, a, warehouse, |a|)
    ensures Fits(rows, b, warehouse, |b|)
  {
    forall j | 0 <= j < |b|
      ensures b[j].quantity > 0
      ensures Sum(b, AskedOf(b[j].variantId), |b|) <= Sellable(rows, b[j].variantId, warehouse)
    {
      assert b[j] in multiset(a);
      var i :| 0 <= i < |a| && a[i] == b[j];
      TotalOfPermutation(a, b, AskedOf(b[j].variantId));
    }
  }

  // ---- several rows per variant ----

  /** Some row alone has that much left. */
  ghost predicate SomeRowCovers(rows: seq<Row>, line: Line) {
    exists i :: 0 <= i < |rows| && Matches(rows[i], line.variantId, line.warehouseId)
                && line.quantity <= rows[i].Available()
  }

  /** With no warehouse pinned, a line fails exactly when it asks for nothing or no row alone can cover it. */
  lemma {:induction false} LineReservesIffSomeRowCovers(rows: seq<Row>, line: Line)
    requires line.op == Reserve && line.warehouseId.None?
    ensures RunLine(rows, line).Ok? <==> line.quantity > 0 && SomeRowCovers(rows, line)
  {
    PickIsBest(rows, line.variantId, None);
    var chosen := Pick(rows, line.variantId, None);
    if chosen.Some? {
      forall i | 0 <= i < |rows| && Matches(rows[i], line.variantId, None)
        ensures rows[i].Available() <= rows[chosen.value].Available()
      {
        assert i in LockSet(rows, line.variantId, None);
      }
    } else {
      forall i | 0 <= i < |rows| ensures !Matches(rows[i], line.variantId, None) {
        assert i !in LockSet(rows, line.variantId, None);
      }
    }
  }

  /** At most one line per variant, as in any cart filled one request at a time. */
  ghost predicate OneLinePerVariant(lines: seq<Line>) {
    forall i, j :: 0 <= i < j < |lines| ==> lines[i].variantId != lines[j].variantId
  }

  lemma {:induction false} EarlierLinesLeaveRowsAlone(
    rows: seq<Row>, lines: seq<Line>, warehouse: Option<int>, k: nat, n: nat)
    requires ReservesFrom(lines, warehouse) && OneLinePerVariant(lines)
    requires k <= n < |lines| && RunTo(rows, lines, k).Ok?
    ensures var after := RunTo(rows, lines, k).value;
      SameKeys(rows, after)
      && forall i :: 0 <= i < |rows| && Matches(rows[i], lines[n].variantId, warehouse) ==> after[i] == rows[i]
  {
    if k > 0 {
      EarlierLinesLeaveRowsAlone(rows, lines, warehouse, k - 1, n);
    }
  }

  lemma {:induction false} SellableAfterOthers(rows: seq<Row>, lines: seq<Line>, warehouse: Option<int>, k: nat)
    requires ReservesFrom(lines, warehouse) && OneLinePerVariant(lines)
    requires k < |lines| && RunTo(rows, lines, k).Ok?
    ensures RunLine(RunTo(rows, lines, k).value, lines[k]).Ok? <==>
      0 < lines[k].quantity <= Sellable(rows, lines[k].variantId, warehouse)
  {
    var before, variant := RunTo(rows, lines, k).value, lines[k].variantId;
    EarlierLinesLeaveRowsAlone(rows, lines, warehouse, k, k);
    PickFrame(rows, before, variant, warehouse, |rows|);
    assert Sellable(before, variant, warehouse) == Sellable(rows, variant, warehouse);
  }

  /**
   With any number of rows, pinned to a warehouse or not, and one line per variant: the lines reserve exactly
   when each is positive and fits what the row found for it could sell before the checkout.
   */
  lemma {:induction false} CartReservesIffEachLineFits(rows: seq<Row>, lines: seq<Line>, warehouse: Option<int>, k: nat)
    requires ReservesFrom(lines, warehouse) && OneLinePerVariant(lines) && k <= |lines|
    ensures RunTo(rows, lines, k).Ok? <==>
      forall j :: 0 <= j < k ==> 0 < lines[j].quantity <= Sellable(rows, lines[j].variantId, warehouse)
  {
    if k > 0 {
      CartReservesIffEachLineFits(rows, lines, warehouse, k - 1);
      if RunTo(rows, lines, k - 1).Ok? {
        SellableAfterOthers(rows, lines, warehouse, k - 1);
      }
    }
  }

  /** With no warehouse pinned that is to say: some single row covers each line. */
  lemma {:induction false} CartReservesIffEachLineCovered(rows: seq<Row>, lines: seq<Line>, k: nat)
    requires ReservesFrom(lines, None) && OneLinePerVariant(lines) && k <= |lines|
    ensures RunTo(rows, lines, k).Ok? <==>
      forall j :: 0 <= j < k ==> lines[j].quantity > 0 && SomeRowCovers(rows, lines[j])
  {
    CartReservesIffEachLineFits(rows, lines, None, k);
    forall j | 0 <= j < k
      ensures 0 < lines[j].quantity <= Sellable(rows, lines[j].variantId, None) <==>
        lines[j].quantity > 0 && SomeRowCovers(rows, lines[j])
    {
      LineReservesIffSomeRowCovers(rows, lines[j]);
    }
  }

  // ---- the whole checkout ----

  /** A transaction that does not succeed leaves the database as it was. */
  lemma {:induction false} FailureChangesNothing(db: Db, settings: Settings, t: Txn)
    ensures Atomic(db, settings, t).1.Failed? || Atomic(db, settings, t).1.AlreadyCancelled? ==>
      Atomic(db, settings, t).0 == db
  {
  }

  /** What a checkout needs besides stock: a cart with something in it, an address of the user's, a new order id. */
  predicate ReadyToOrder(db: Db, t: Txn)
    requires t.Checkout?
  {
    && t.userId in db.carts && db.carts[t.userId] != []
    && (t.addressId, t.userId) in db.addresses
    && FindOrder(db.orders, t.id).None?
  }

  /** With one candidate row per variant, for any cart: an order is placed exactly when each variant's lines fit. */
  lemma {:induction false} CheckoutSucceedsIffSumsFit(db: Db, settings: Settings, t: Txn)
    requires t.Checkout? && OneCandidate(db.rows, settings.defaultWarehouseId)
    ensures Atomic(db, settings, t).1.Placed? <==>
      && ReadyToOrder(db, t)
      && var lines := CheckoutLines(db.carts[t.userId], settings.defaultWarehouseId);
         Fits(db.rows, lines, settings.defaultWarehouseId, |lines|)
  {
    if Begin(db, settings, t).Work? {
      ReserveIffFits(db.rows, Begin(db, settings, t).lines, settings.defaultWarehouseId);
    }
  }

  /** With any stock, for a cart of one line per variant: exactly when each line fits the row found for it. */
  lemma {:induction false} CheckoutSucceedsIffLinesFit(db: Db, settings: Settings, t: Txn)
    requires t.Checkout?
    requires t.userId in db.carts ==>
      OneLinePerVariant(CheckoutLines(db.carts[t.userId], settings.defaultWarehouseId))
    ensures Atomic(db, settings, t).1.Placed? <==>
      && ReadyToOrder(db, t)
      && forall i :: 0 <= i < |db.carts[t.userId]| ==>
           var item := db.carts[t.userId][i];
           0 < item.quantity.GetOr(0) <= Sellable(db.rows, item.variantId, settings.defaultWarehouseId)
  {
    if Begin(db, settings, t).Work? {
      var cart, lines := db.carts[t.userId], Begin(db, settings, t).lines;
      CartReservesIffEachLineFits(db.rows, lines, settings.defaultWarehouseId, |lines|);
      assert forall i :: 0 <= i < |cart| ==> lines[i] == CheckoutLine(cart[i], settings.defaultWarehouseId);
    }
  }

  /**
   A cart filled by any requests one after the other, any number of warehouses, pinned or not: the checkout
   places an order exactly when the user is ready to order and every line fits the row found for it.
   */
  lemma {:induction false} FilledCartCheckoutIff(db: Db, settings: Settings, t: Txn, ops: seq<CartOp>)
    requires t.Checkout? && t.userId in db.carts && db.carts[t.userId] == Items(Filled(ops, |ops|))
    ensures Atomic(db, settings, t).1.Placed? <==>
      && ReadyToOrder(db, t)
      && forall i :: 0 <= i < |db.carts[t.userId]| ==>
           var item := db.carts[t.userId][i];
           item.quantity.GetOr(0) <= Sellable(db.rows, item.variantId, settings.defaultWarehouseId)
  {
    CartsAreWellFilled(ops, |ops|);
    CheckoutSucceedsIffLinesFit(db, settings, t);
  }

  // ---- a cart with two lines of one variant ----

  /** A row other than the one found for it has that much left. */
  ghost predicate OtherRowCovers(rows: seq<Row>, line: Line) {
    exists i :: 0 <= i < |rows| && Matches(rows[i], line.variantId, line.warehouseId)
                && Some(i) != Pick(rows, line.variantId, line.warehouseId) && line.quantity <= rows[i].Available()
  }

  ghost predicate ReserveOneVariant(first: Line, second: Line) {
    && first.op == second.op == Reserve && first.warehouseId == second.warehouseId == None
    && first.variantId == second.variantId
  }

  /** What the first leaves for the second: the rest of the row it was found, and every other row. */
  lemma {:induction false} CoveredAfterFirst(rows: seq<Row>, first: Line, second: Line)
    requires ReserveOneVariant(first, second) && RunLine(rows, first).Ok?
    ensures SomeRowCovers(RunLine(rows, first).value, second) <==>
      second.quantity <= Sellable(rows, first.variantId, None) - first.quantity || OtherRowCovers(rows, second)
  {
    var after, i := RunLine(rows, first).value, Pick(rows, first.variantId, None).value;
    assert after == rows[i := after[i]] && after[i].Available() == rows[i].Available() - first.quantity;
    if second.quantity <= Sellable(rows, first.variantId, None) - first.quantity {
      assert Matches(after[i], second.variantId, second.warehouseId);
    } else if OtherRowCovers(rows, second) {
      var j :| 0 <= j < |rows| && Matches(rows[j], second.variantId, None)
               && Some(j) != Pick(rows, second.variantId, None) && second.quantity <= rows[j].Available();
      assert after[j] == rows[j];
    }
  }

  lemma {:induction false} TwoLinesReserveIff(rows: seq<Row>, first: Line, second: Line)
    requires ReserveOneVariant(first, second)
    ensures RunTo(rows, [first, second], 2).Ok? <==>
      && 0 < first.quantity <= Sellable(rows, first.variantId, None) && 0 < second.quantity
      && (second.quantity <= Sellable(rows, first.variantId, None) - first.quantity || OtherRowCovers(rows, second))
  {
    var lines := [first, second];
    assert RunTo(rows, lines, 0) == Ok(rows);
    assert RunTo(rows, lines, 1) == RunLine(rows, first);
    PickIsBest(rows, first.variantId, None);
    if RunLine(rows, first).Ok? {
      CoveredAfterFirst(rows, first, second);
      LineReservesIffSomeRowCovers(RunLine(rows, first).value, second);
    }
  }

  /**
   Two lines of one variant, any rows: with the larger first they reserve whenever they do with the smaller first.
   They do with the larger first only exactly when neither the rest the smaller leaves of the fullest row nor any
   other row covers the larger.
   */
  lemma {:induction false} OrderMattersIff(rows: seq<Row>, small: Line, large: Line)
    requires ReserveOneVariant(small, large) && small.quantity <= large.quantity
    ensures RunTo(rows, [small, large], 2).Ok? ==> RunTo(rows, [large, small], 2).Ok?
    ensures RunTo(rows, [large, small], 2).Ok? ==>
      (RunTo(rows, [small, large], 2).Err? <==>
         large.quantity > Sellable(rows, large.variantId, None) - small.quantity && !OtherRowCovers(rows, large))
  {
    TwoLinesReserveIff(rows, small, large);
    TwoLinesReserveIff(rows, large, small);
    if OtherRowCovers(rows, large) {
      var i :| 0 <= i < |rows| && Matches(rows[i], large.variantId, None)
               && Some(i) != Pick(rows, large.variantId, None) && large.quantity <= rows[i].Available();
      assert small.quantity <= rows[i].Available();
      OthersAreNoFuller(rows, large, i);
    }
  }

  lemma {:induction false} OthersAreNoFuller(rows: seq<Row>, line: Line, i: nat)
    requires i < |rows| && line.warehouseId.None? && Matches(rows[i], line.variantId, None)
    ensures rows[i].Available() <= Sellable(rows, line.variantId, None)
  {
    PickIsBest(rows, line.variantId, None);
    assert i in LockSet(rows, line.variantId, None);
  }

  /** The stock of the example: five units in one warehouse, three in another. */
  const TWO_ROWS := [Row(Some(1), Some(1), Some(5), Some(0)), Row(Some(1), Some(2), Some(3), Some(0))]

  /**
   Three and five units of one variant, added at the same time to an empty cart, leave two lines in it in whichever
   order the additions write. The checkout then fails in one order and reserves in the other; in one line of
   eight, as one after the other would leave, no row could cover it.
   */
  lemma {:induction false} OrderMattersWithTwoRows(three: CartOp, five: CartOp)
    requires Accepted(three) && Accepted(five) && three.variantId == five.variantId == 1
    requires three.quantity == 3 && five.quantity == 5
    ensures RunTo(TWO_ROWS, CheckoutLines(Items(Overlapping([], three, five)), None), 2).Err?
    ensures RunTo(TWO_ROWS, CheckoutLines(Items(Overlapping([], five, three)), None), 2).Ok?
  {
    var small, large := Line(Reserve, Some(1), 3, None), Line(Reserve, Some(1), 5, None);
    OverlapIsSerialIff([], three, five);
    OverlapIsSerialIff([], five, three);
    assert CheckoutLines(Items(Overlapping([], three, five)), None) == [small, large];
    assert CheckoutLines(Items(Overlapping([], five, three)), None) == [large, small];
    FirstIsFuller();
    assert Matches(TWO_ROWS[1], small.variantId, None) && OtherRowCovers(TWO_ROWS, small);
    TwoLinesReserveIff(TWO_ROWS, large, small);
    OrderMattersIff(TWO_ROWS, small, large);
  }

  lemma {:induction false} FirstIsFuller()
    ensures Pick(TWO_ROWS, Some(1), None) == Some(0)
  {
    assert PickUpTo(TWO_ROWS, Some(1), None, 0) == None;
    assert PickUpTo(TWO_ROWS, Some(1), None, 1) == Some(0);
  }
}
