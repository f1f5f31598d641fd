/**
 Amounts across entities: cart preview, placed order, invoice and converted quote
 (app/api/cart.py, app/services/order_service.py, admin_api/handlers/quotes_handler.py).
 */
module Totals {
  import opened Std
  import opened OrderModel
  import opened Money

  // ---- the cart's preview ----

  /** What the cart shows for a line: the snapshot, or zero when it is null or zero. */
  function PreviewLine(item: CartItem): real {
    Times(Truthy(item.priceSnapshot).GetOr(0.0), item.quantity.GetOr(0))
  }

  function PreviewTo(items: seq<CartItem>, k: nat): real
    requires k <= |items|
  {
    if k == 0 then 0.0 else PreviewTo(items, k - 1) + PreviewLine(items[k - 1])
  }

  method Preview(items: seq<CartItem>) returns (subtotal: real)
    ensures subtotal == PreviewTo(items, |items|)
  {
    subtotal := 0.0;
    for k := 0 to |items|
      invariant subtotal == PreviewTo(items, k)
    {
      var unitPrice := Truthy(items[k].priceSnapshot).GetOr(0.0);
      subtotal := subtotal + Times(unitPrice, items[k].quantity.GetOr(0));
    }
  }

  /** The checkout falls back on the variant's present price for this line, and that adds to its cost. */
  predicate FallsBack(item: CartItem) {
    Truthy(item.priceSnapshot).None? && UnitPrice(item) != 0.0 && item.quantity.GetOr(0) != 0
  }

  /** No negative price or quantity; the add and update requests admit only positive quantities. */
  ghost predicate NoNegatives(items: seq<CartItem>) {
    forall k :: 0 <= k < |items| ==> UnitPrice(items[k]) >= 0.0 && items[k].quantity.GetOr(0) >= 0
  }

  lemma {:induction false} LineFallsBackIff(item: CartItem)
    requires UnitPrice(item) >= 0.0 && item.quantity.GetOr(0) >= 0
    ensures PreviewLine(item) <= LineTotal(PlannedItem(item))
    ensures PreviewLine(item) == LineTotal(PlannedItem(item)) <==> !FallsBack(item)
  {
    var price, quantity := UnitPrice(item), item.quantity.GetOr(0) as real;
    if price > 0.0 && quantity > 0.0 {
      assert price * quantity > 0.0;
    }
  }

  lemma {:induction false} PreviewMatchesTo(items: seq<CartItem>, k: nat)
    requires k <= |items| && NoNegatives(items)
    ensures PreviewTo(items, k) <= SubtotalTo(PlannedItems(items), k)
    ensures PreviewTo(items, k) == SubtotalTo(PlannedItems(items), k) <==>
      forall j :: 0 <= j < k ==> !FallsBack(items[j])
  {
    if k > 0 {
      PreviewMatchesTo(items, k - 1);
      LineFallsBackIff(items[k - 1]);
    }
  }

  /**
   The preview never exceeds what checkout charges, and equals it exactly when no line with a null or
   zero snapshot falls back on a nonzero variant price.
   */
  lemma {:induction false} PreviewEqualsSubtotalIff(items: seq<CartItem>)
    requires NoNegatives(items)
    ensures PreviewTo(items, |items|) <= Subtotal(PlannedItems(items))
    ensures PreviewTo(items, |items|) == Subtotal(PlannedItems(items)) <==>
      forall j :: 0 <= j < |items| ==> !FallsBack(items[j])
  {
    PreviewMatchesTo(items, |items|);
  }

  // ---- placed orders ----

  lemma {:induction false} TwoDecimalSubtotal(items: seq<OrderItem>, k: nat)
    requires k <= |items| && forall j :: 0 <= j < k ==> TwoDecimals(items[j].unitPrice)
    ensures TwoDecimals(SubtotalTo(items, k))
  {
    if k == 0 {
      assert 0.0 * 100.0 == 0 as real;
    } else {
      TwoDecimalSubtotal(items, k - 1);
      TwoDecimalsTimes(items[k - 1].unitPrice, items[k - 1].quantity.GetOr(0));
      TwoDecimalsAdd(SubtotalTo(items, k - 1), LineTotal(items[k - 1]));
    }
  }

  /**
   The invoice is the order's and carries its total, the tax is within half a hundredth of the rate times
   the summed lines, and with two-decimal prices the total is exactly lines plus tax.
   */
  ghost predicate AmountsAgree(order: Order, invoice: Invoice, rate: real) {
    && invoice.orderId == order.id && invoice.totalAmount == order.totalAmount
    && Distance(invoice.gstAmount, Subtotal(order.items) * rate) <= 0.005
    && Distance(order.totalAmount, Subtotal(order.items) + invoice.gstAmount) <= 0.005
    && ((forall j :: 0 <= j < |order.items| ==> TwoDecimals(order.items[j].unitPrice)) ==>
          order.totalAmount == Subtotal(order.items) + invoice.gstAmount)
  }

  lemma {:induction false} NewAmountsAgree(settings: Settings, t: Txn, cart: seq<CartItem>)
    requires t.Checkout?
    ensures AmountsAgree(NewOrder(settings, t, cart), NewInvoice(settings, NewOrder(settings, t, cart)),
                          settings.gstRate)
  {
    var items := PlannedItems(cart);
    TotalIsSubtotalPlusTax(Subtotal(items), settings.gstRate);
    if forall j :: 0 <= j < |items| ==> TwoDecimals(items[j].unitPrice) {
      TwoDecimalSubtotal(items, |items|);
    }
  }

  /** A placed order holds the cart's lines, and order, invoice and reported total agree. */
  lemma {:induction false} PlacedAmountsAgree(db: Db, settings: Settings, t: Txn)
    requires t.Checkout? && Atomic(db, settings, t).1.Placed?
    ensures var (after, outcome) := Atomic(db, settings, t);
      && |after.orders| == |db.orders| + 1 && |after.invoices| == |db.invoices| + 1
      && var order, invoice := after.orders[|db.orders|], after.invoices[|db.invoices|];
         && order.id == t.id && order.items == PlannedItems(db.carts[t.userId])
         && outcome == Placed(order.id, order.totalAmount)
         && AmountsAgree(order, invoice, settings.gstRate)
  {
    NewAmountsAgree(settings, t, db.carts[t.userId]);
  }

  // ---- quotes ----

  datatype QuoteStatus = Draft | Sent | Accepted | Converted | Rejected | Expired

  datatype QuoteItem = QuoteItem(productId: Option<int>, quantity: Option<int>, unitPrice: Option<real>)

  datatype QuoteOrder = QuoteOrder(
    status: OrderStatus, subtotalAmount: real, taxAmount: real, totalAmount: real, items: seq<QuoteItem>)

  const GST_RATE: real := 0.18

  function QuoteLine(item: QuoteItem): real {
    Times(item.unitPrice.GetOr(0.0), item.quantity.GetOr(0))
  }

  function QuoteSubtotalTo(items: seq<QuoteItem>, k: nat): real
    requires k <= |items|
  {
    if k == 0 then 0.0 else QuoteSubtotalTo(items, k - 1) + QuoteLine(items[k - 1])
  }

  class Quote {
    var status: QuoteStatus
    const items: seq<QuoteItem>

    constructor (items: seq<QuoteItem>)
      ensures status == Draft && this.items == items
    {
      status := Draft;
      this.items := items;
    }

    /**
     Creates the confirmed order, or refuses. Tax is within half a hundredth of the rate times the lines,
     two-decimal, and the total is exactly lines plus tax; a quote converts at most once.
     */
    method Convert() returns (order: Option<QuoteOrder>)
      modifies this
      ensures order.None? <==> old(status) == Converted || old(status) == Rejected || old(status) == Expired
      ensures status == if order.Some? then Converted else old(status)
      ensures order.Some? ==>
        && order.value.status == Confirmed && order.value.items == items
        && order.value.subtotalAmount == QuoteSubtotalTo(items, |items|)
        && order.value.taxAmount == QuantizeHalfUp(order.value.subtotalAmount * GST_RATE)
        && Distance(order.value.taxAmount, order.value.subtotalAmount * 0.18) <= 0.005
        && order.value.totalAmount == order.value.subtotalAmount + order.value.taxAmount
    {
      if status == Converted || status == Rejected || status == Expired {
        return None;
      }
      var subtotal := 0.0;
      for k := 0 to |items|
        invariant subtotal == QuoteSubtotalTo(items, k)
      {
        subtotal := subtotal + Times(items[k].unitPrice.GetOr(0.0), items[k].quantity.GetOr(0));
      }
      var tax := QuantizeHalfUp(subtotal * GST_RATE);
      QuantizeWithinHalf(subtotal * GST_RATE);
      order := Some(QuoteOrder(Confirmed, subtotal, tax, subtotal + tax, items));
      status := Converted;
    }
  }

  /** With two-decimal prices a converted quote's subtotal, tax and total all have two decimals. */
  lemma {:induction false} QuoteSubtotalHasTwoDecimals(items: seq<QuoteItem>, k: nat)
    requires k <= |items| && forall j :: 0 <= j < k ==> TwoDecimals(items[j].unitPrice.GetOr(0.0))
    ensures TwoDecimals(QuoteSubtotalTo(items, k))
    ensures TwoDecimals(QuoteSubtotalTo(items, k) + QuantizeHalfUp(QuoteSubtotalTo(items, k) * GST_RATE))
  {
    if k == 0 {
      assert 0.0 * 100.0 == 0 as real;
    } else {
      QuoteSubtotalHasTwoDecimals(items, k - 1);
      TwoDecimalsTimes(items[k - 1].unitPrice.GetOr(0.0), items[k - 1].quantity.GetOr(0));
      TwoDecimalsAdd(QuoteSubtotalTo(items, k - 1), QuoteLine(items[k - 1]));
    }
    QuantizeWithinHalf(QuoteSubtotalTo(items, k) * GST_RATE);
    TwoDecimalsAdd(QuoteSubtotalTo(items, k), QuantizeHalfUp(QuoteSubtotalTo(items, k) * GST_RATE));
  }
}
