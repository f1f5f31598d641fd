/**
 Stock-reservation arithmetic over one inventory row, and the choice of the row a
 transaction locks (app/services/inventory_service.py, app/db/repositories/inventory_repo.py).
 `Row` is the row as a value; `Inventory` is the mutable row the service updates in place.
 */
module InventoryService {
  import opened Std

  datatype Row = Row(
    variantId: Option<int>, warehouseId: Option<int>, quantity: Option<int>, reserved: Option<int>)
  {
    /** Units in the warehouse; a null counter counts as zero. */
    function OnHand(): int { quantity.GetOr(0) }

    function Held(): int { reserved.GetOr(0) }

    function Available(): int { OnHand() - Held() }

    /** Never negative, never more reserved than there is. */
    ghost predicate Sane() { 0 <= Held() <= OnHand() }

    /** Same variant and warehouse: the columns no transaction of the protocol ever writes. */
    predicate SameKey(other: Row) {
      variantId == other.variantId && warehouseId == other.warehouseId
    }
  }

  datatype StockError =
    | NonPositiveQuantity
    | InsufficientStock(variantId: Option<int>, requested: int, available: int)

  function Reserved(row: Row, quantity: int): Result<Row, StockError> {
    if quantity <= 0 then Err(NonPositiveQuantity)
    else if quantity > row.Available() then Err(InsufficientStock(row.variantId, quantity, row.Available()))
    else Ok(row.(reserved := Some(row.Held() + quantity)))
  }

  function Released(row: Row, quantity: int): Row {
    row.(reserved := Some(Max(0, row.Held() - quantity)))
  }

  function Fulfilled(row: Row, quantity: int): Row {
    row.(quantity := Some(Max(0, row.OnHand() - quantity)),
         reserved := Some(Max(0, row.Held() - quantity)))
  }

  /** A refused reservation says why: nothing was asked for, or more than is available of that variant. */
  lemma {:induction false} ReserveRefusals(row: Row, quantity: int)
    ensures quantity <= 0 <==> Reserved(row, quantity) == Err(NonPositiveQuantity)
    ensures quantity > 0 && quantity > row.Available() ==>
      Reserved(row, quantity) == Err(InsufficientStock(row.variantId, quantity, row.Available()))
    ensures 0 < quantity <= row.Available() ==>
      && Reserved(row, quantity).Ok?
      && var after := Reserved(row, quantity).value;
         after.SameKey(row) && after.quantity == row.quantity && after.Held() == row.Held() + quantity
  {
  }

  /** The row object the session hands out; its counters are updated in place. */
  class Inventory {
    const variantId: Option<int>
    const warehouseId: Option<int>
    var quantity: Option<int>
    var reservedQuantity: Option<int>

    constructor (variantId: Option<int>, warehouseId: Option<int>, quantity: Option<int>, reserved: Option<int>)
      ensures Value() == Row(variantId, warehouseId, quantity, reserved)
    {
      this.variantId := variantId;
      this.warehouseId := warehouseId;
      this.quantity := quantity;
      this.reservedQuantity := reserved;
    }

    function Value(): Row
      reads this
    {
      Row(variantId, warehouseId, quantity, reservedQuantity)
    }

    /** Raising leaves the row as it was. */
    method Reserve(q: int) returns (error: Option<StockError>)
      modifies this
      ensures error.None? <==> 0 < q <= old(Value().Available())
      ensures error.None? ==> Reserved(old(Value()), q) == Ok(Value())
      ensures error.Some? ==> Reserved(old(Value()), q) == Err(error.value) && Value() == old(Value())
    {
      var available := quantity.GetOr(0) - reservedQuantity.GetOr(0);
      if q <= 0 {
        return Some(NonPositiveQuantity);
      }
      if q > available {
        return Some(InsufficientStock(variantId, q, available));
      }
      reservedQuantity := Some(reservedQuantity.GetOr(0) + q);
      error := None;
    }

    method Release(q: int)
      modifies this
      ensures Value() == Released(old(Value()), q)
      ensures Value().OnHand() == old(Value().OnHand()) && 0 <= Value().Held()
    {
      reservedQuantity := Some(Max(0, reservedQuantity.GetOr(0) - q));
    }

    method Fulfill(q: int)
      modifies this
      ensures Value() == Fulfilled(old(Value()), q)
      ensures 0 <= Value().OnHand() && 0 <= Value().Held()
    {
      quantity := Some(Max(0, quantity.GetOr(0) - q));
      reservedQuantity := Some(Max(0, reservedQuantity.GetOr(0) - q));
    }
  }

  // ---- choosing the row ----

  predicate Matches(row: Row, variant: Option<int>, warehouse: Option<int>) {
    row.variantId == variant && (warehouse.Some? ==> row.warehouseId == warehouse)
  }

  /** ORDER BY warehouse_id, nulls last. */
  predicate WarehouseBefore(a: Option<int>, b: Option<int>) {
    a.Some? && (b.None? || a.value < b.value)
  }

  /** Whether `later`, listed after `earlier` in the table, replaces it as the chosen row. */
  predicate Better(later: Row, earlier: Row, warehouse: Option<int>) {
    warehouse.None?
    && (later.Available() > earlier.Available()
        || (later.Available() == earlier.Available()
            && WarehouseBefore(later.warehouseId, earlier.warehouseId)))
  }

  /** The row `lock_for_variant` returns, looking at the first n rows of the table. */
  function PickUpTo(rows: seq<Row>, variant: Option<int>, warehouse: Option<int>, n: nat): (best: Option<nat>)
    requires n <= |rows|
    ensures best.Some? ==> best.value < n && Matches(rows[best.value], variant, warehouse)
  {
    if n == 0 then None
    else
      var best := PickUpTo(rows, variant, warehouse, n - 1);
      if !Matches(rows[n - 1], variant, warehouse) then best
      else if best.Some? && !Better(rows[n - 1], rows[best.value], warehouse) then best
      else Some(n - 1)
  }

  function Pick(rows: seq<Row>, variant: Option<int>, warehouse: Option<int>): (chosen: Option<nat>)
    ensures chosen.Some? ==> chosen.value < |rows| && Matches(rows[chosen.value], variant, warehouse)
  {
    PickUpTo(rows, variant, warehouse, |rows|)
  }

  /** Every row the query locks, chosen or not. */
  function LockSet(rows: seq<Row>, variant: Option<int>, warehouse: Option<int>): set<nat> {
    set i: nat | i < |rows| && Matches(rows[i], variant, warehouse)
  }

  lemma {:induction false} PickUpToIsBest(rows: seq<Row>, variant: Option<int>, warehouse: Option<int>, n: nat)
    requires n <= |rows|
    ensures var p := PickUpTo(rows, variant, warehouse, n);
      && (p.None? ==> forall i :: 0 <= i < n ==> !Matches(rows[i], variant, warehouse))
      && (p.Some? && warehouse.None? ==>
            forall i :: 0 <= i < n && Matches(rows[i], variant, warehouse) ==>
              && rows[i].Available() <= rows[p.value].Available()
              && (rows[i].Available() == rows[p.value].Available() ==>
                    !WarehouseBefore(rows[i].warehouseId, rows[p.value].warehouseId)))
      && (p.Some? && warehouse.Some? ==>
            forall i :: 0 <= i < p.value ==> !Matches(rows[i], variant, warehouse))
  {
    if n > 0 {
      PickUpToIsBest(rows, variant, warehouse, n - 1);
    }
  }

  /**
   The chosen row is one of the locked rows; it is absent only if nothing matches. With no pinned
   warehouse no candidate has more available units, and among equals none has an earlier warehouse;
   with a pinned warehouse it is the first match.
   */
  lemma {:induction false} PickIsBest(rows: seq<Row>, variant: Option<int>, warehouse: Option<int>)
    ensures var p := Pick(rows, variant, warehouse); var locked := LockSet(rows, variant, warehouse);
      && (p.None? <==> locked == {})
      && (p.Some? ==> p.value in locked)
      && (p.Some? && warehouse.None? ==>
            forall i :: i in locked ==>
              && rows[i].Available() <= rows[p.value].Available()
              && (rows[i].Available() == rows[p.value].Available() ==>
                    !WarehouseBefore(rows[i].warehouseId, rows[p.value].warehouseId)))
      && (p.Some? && warehouse.Some? ==> forall i :: i in locked ==> p.value <= i)
  {
    PickUpToIsBest(rows, variant, warehouse, |rows|);
    var p := Pick(rows, variant, warehouse);
    if p.Some? {
      assert p.value in LockSet(rows, variant, warehouse);
    }
  }

  ghost predicate SameKeys(a: seq<Row>, b: seq<Row>) {
    |a| == |b| && forall i :: 0 <= i < |a| ==> a[i].SameKey(b[i])
  }

  /** The choice depends on the locked rows alone. */
  lemma {:induction false} PickFrame(a: seq<Row>, b: seq<Row>, variant: Option<int>, warehouse: Option<int>, n: nat)
    requires SameKeys(a, b) && n <= |a|
    requires forall i :: i in LockSet(a, variant, warehouse) ==> a[i] == b[i]
    ensures PickUpTo(a, variant, warehouse, n) == PickUpTo(b, variant, warehouse, n)
  {
    if n > 0 {
      PickFrame(a, b, variant, warehouse, n - 1);
      if Matches(a[n - 1], variant, warehouse) {
        assert n - 1 in LockSet(a, variant, warehouse);
        var p := PickUpTo(a, variant, warehouse, n - 1);
        if p.Some? {
          assert p.value in LockSet(a, variant, warehouse);
        }
      }
    }
  }
}
