/**
 Filling a cart: adding to it, changing and removing lines, clearing it (app/api/cart.py). What the handlers
 do one after the other keeps one line per variant; two that add at once need not.
 */
module CartService {
  import opened Std
  import opened OrderModel

  datatype CartLine = CartLine(id: int, item: CartItem)

  /** A variant on file, with its product's minimum order quantity. */
  datatype Listed = Listed(variant: Variant, minimum: Option<int>)

  datatype CartError = NotPositive | VariantNotFound | BelowMinimum(minimum: int) | LineNotFound

  /** The first line for that variant among the first n. */
  function FindVariantTo(lines: seq<CartLine>, variantId: int, n: nat): (found: Option<nat>)
    requires n <= |lines|
    ensures found.Some? ==> found.value < n && lines[found.value].item.variantId == Some(variantId)
    ensures forall i :: 0 <= i < (if found.Some? then found.value else n) ==> lines[i].item.variantId != Some(variantId)
  {
    if n == 0 then None
    else
      var found := FindVariantTo(lines, variantId, n - 1);
      if found.Some? then found
      else if lines[n - 1].item.variantId == Some(variantId) then Some(n - 1)
      else None
  }

  function FindLineTo(lines: seq<CartLine>, id: int, n: nat): (found: Option<nat>)
    requires n <= |lines|
    ensures found.Some? ==> found.value < n && lines[found.value].id == id
    ensures found.None? ==> forall i :: 0 <= i < n ==> lines[i].id != id
  {
    if n == 0 then None
    else
      var found := FindLineTo(lines, id, n - 1);
      if found.Some? then found else if lines[n - 1].id == id then Some(n - 1) else None
  }

  function NewLine(id: int, variantId: int, quantity: int, listed: Listed): CartLine {
    CartLine(id, CartItem(Some(variantId), Some(quantity), Some(listed.variant.price.GetOr(0.0)), Some(listed.variant)))
  }

  function WithQuantity(lines: seq<CartLine>, i: nat, quantity: int): seq<CartLine>
    requires i < |lines|
  {
    lines[i := lines[i].(item := lines[i].item.(quantity := Some(quantity)))]
  }

  /** What refuses an addition before the cart is looked at; a minimum of zero is none. */
  function AddError(quantity: int, listed: Option<Listed>): Option<CartError> {
    if quantity <= 0 then Some(NotPositive)
    else if listed.None? then Some(VariantNotFound)
    else if listed.value.minimum.Some? && listed.value.minimum.value != 0 && quantity < listed.value.minimum.value
    then Some(BelowMinimum(listed.value.minimum.value))
    else None
  }

  /** The line an addition has found, and the quantity it has read there. */
  datatype Seen = Seen(index: nat, quantity: int)

  function Look(lines: seq<CartLine>, variantId: int): Option<Seen> {
    var found := FindVariantTo(lines, variantId, |lines|);
    if found.None? then None else Some(Seen(found.value, lines[found.value].item.quantity.GetOr(0)))
  }

  /** What an addition writes, told from what it has seen: that sum, whatever the line holds by now, or a new line. */
  function Written(lines: seq<CartLine>, seen: Option<Seen>, id: int, variantId: int, quantity: int, listed: Listed)
    : seq<CartLine>
  {
    if seen.Some? && seen.value.index < |lines|
    then WithQuantity(lines, seen.value.index, seen.value.quantity + quantity)
    else lines + [NewLine(id, variantId, quantity, listed)]
  }

  datatype CartOp =
    | Add(variantId: int, quantity: int, listed: Option<Listed>, newId: int)
    | Update(id: int, newQuantity: int)
    | Remove(removed: int)
    | Clear

  function Done(lines: seq<CartLine>, op: CartOp): Result<seq<CartLine>, CartError> {
    match op
    case Add(variant, quantity, listed, newId) =>
      var error := AddError(quantity, listed);
      if error.Some? then Err(error.value)
      else Ok(Written(lines, Look(lines, variant), newId, variant, quantity, listed.value))
    case Update(id, quantity) => (
      match FindLineTo(lines, id, |lines|)
      case None => if quantity <= 0 then Err(NotPositive) else Err(LineNotFound)
      case Some(i) => if quantity <= 0 then Err(NotPositive) else Ok(WithQuantity(lines, i, quantity)))
    case Remove(id) => (
      match FindLineTo(lines, id, |lines|)
      case None => Err(LineNotFound)
      case Some(i) => Ok(lines[..i] + lines[i + 1..]))
    case Clear => Ok([])
  }

  /** The cart the handlers work on. */
  class Cart {
    var lines: seq<CartLine>

    constructor ()
      ensures lines == []
    {
      lines := [];
    }

    method AddItem(variantId: int, quantity: int, listed: Option<Listed>, newId: int) returns (error: Option<CartError>)
      modifies this
      ensures Done(old(lines), Add(variantId, quantity, listed, newId))
           == if error.Some? then Err(error.value) else Ok(lines)
      ensures error.Some? ==> lines == old(lines)
    {
      if quantity <= 0 {
        return Some(NotPositive);
      }
      if listed.None? {
        return Some(VariantNotFound);
      }
      var minimum := listed.value.minimum;
      if minimum.Some? && minimum.value != 0 && quantity < minimum.value {
        return Some(BelowMinimum(minimum.value));
      }
      var i := 0;
      while i < |lines| && lines[i].item.variantId != Some(variantId)
        invariant i <= |lines| && FindVariantTo(lines, variantId, i).None?
      {
        i := i + 1;
      }
      FoundFirst(lines, variantId, i);
      if i < |lines| {
        var existing := lines[i].item;
        lines := lines[i := lines[i].(item := existing.(quantity := Some(existing.quantity.GetOr(0) + quantity)))];
      } else {
        lines := lines + [NewLine(newId, variantId, quantity, listed.value)];
      }
      error := None;
    }

    method UpdateItem(id: int, quantity: int) returns (error: Option<CartError>)
      modifies this
      ensures Done(old(lines), Update(id, quantity)) == if error.Some? then Err(error.value) else Ok(lines)
      ensures error.Some? ==> lines == old(lines)
    {
      if quantity <= 0 {
        return Some(NotPositive);
      }
      var found := FindLineTo(lines, id, |lines|);
      if found.None? {
        return Some(LineNotFound);
      }
      lines := WithQuantity(lines, found.value, quantity);
      error := None;
    }

    method RemoveItem(id: int) returns (error: Option<CartError>)
      modifies this
      ensures Done(old(lines), Remove(id)) == if error.Some? then Err(error.value) else Ok(lines)
      ensures error.Some? ==> lines == old(lines)
    {
      var found := FindLineTo(lines, id, |lines|);
      if found.None? {
        return Some(LineNotFound);
      }
      lines := lines[..found.value] + lines[found.value + 1..];
      error := None;
    }

    method ClearItems()
      modifies this
      ensures Ok(lines) == Done(old(lines), Clear)
    {
      lines := [];
    }
  }

  /** The scan stops at the first line for the variant, or at the end. */
  lemma {:induction false} FoundFirst(lines: seq<CartLine>, variantId: int, i: nat)
    requires i <= |lines| && FindVariantTo(lines, variantId, i).None?
    requires i < |lines| ==> lines[i].item.variantId == Some(variantId)
    ensures FindVariantTo(lines, variantId, |lines|) == if i < |lines| then Some(i) else None
  {
    assert forall j :: 0 <= j < i ==> lines[j].item.variantId != Some(variantId);
  }

  // ---- what a cart filled by the handlers is like ----

  /** One line for each variant, every one of a positive quantity. */
  ghost predicate WellFilled(lines: seq<CartLine>) {
    && (forall i :: 0 <= i < |lines| ==>
          lines[i].item.variantId.Some? && lines[i].item.quantity.Some? && lines[i].item.quantity.value > 0)
    && (forall i, j :: 0 <= i < j < |lines| ==> lines[i].item.variantId != lines[j].item.variantId)
  }

  /** The cart after the first k requests, refused ones changing nothing. */
  function Filled(ops: seq<CartOp>, k: nat): seq<CartLine>
    requires k <= |ops|
  {
    if k == 0 then []
    else
      var before := Filled(ops, k - 1);
      var after := Done(before, ops[k - 1]);
      if after.Ok? then after.value else before
  }

  lemma {:induction false} RemovalStaysWellFilled(lines: seq<CartLine>, i: nat)
    requires WellFilled(lines) && i < |lines|
    ensures WellFilled(lines[..i] + lines[i + 1..])
  {
    var rest := lines[..i] + lines[i + 1..];
    assert forall k :: 0 <= k < |rest| ==> rest[k] == lines[if k < i then k else k + 1];
  }

  lemma {:induction false} DoneStaysWellFilled(lines: seq<CartLine>, op: CartOp)
    requires WellFilled(lines) && Done(lines, op).Ok?
    ensures WellFilled(Done(lines, op).value)
  {
    if op.Remove? {
      RemovalStaysWellFilled(lines, FindLineTo(lines, op.removed, |lines|).value);
    }
  }

  /** Whatever is added, changed and removed, one request after the other, each variant keeps one line. */
  lemma {:induction false} CartsAreWellFilled(ops: seq<CartOp>, k: nat)
    requires k <= |ops|
    ensures WellFilled(Filled(ops, k))
  {
    if k > 0 {
      CartsAreWellFilled(ops, k - 1);
      if Done(Filled(ops, k - 1), ops[k - 1]).Ok? {
        DoneStaysWellFilled(Filled(ops, k - 1), ops[k - 1]);
      }
    }
  }

  function Items(lines: seq<CartLine>): seq<CartItem> {
    seq(|lines|, i requires 0 <= i < |lines| => lines[i].item)
  }

  // ---- what each request does to which line ----

  /** Which addition is refused for what; a minimum of zero is none. */
  lemma {:induction false} AddRefusals(quantity: int, listed: Option<Listed>)
    ensures var error := AddError(quantity, listed);
      && (error == Some(NotPositive) <==> quantity <= 0)
      && (error == Some(VariantNotFound) <==> quantity > 0 && listed.None?)
      && (error.Some? && error.value.BelowMinimum? <==>
            quantity > 0 && listed.Some? && listed.value.minimum.Some? && quantity < listed.value.minimum.value)
      && (error.Some? && error.value.BelowMinimum? ==> listed.value.minimum == Some(error.value.minimum))
      && (error.Some? ==> !error.value.LineNotFound?)
  {
  }

  /**
   An accepted addition adds its quantity to the first line of the variant and touches nothing else of it; without such
   a line it appends one, at the price the variant has now, or at nothing if it has none.
   */
  lemma {:induction false} AddChanges(
    lines: seq<CartLine>, variantId: int, quantity: int, listed: Listed, newId: int, i: nat)
    requires AddError(quantity, Some(listed)).None?
    requires i <= |lines| && forall j :: 0 <= j < i ==> lines[j].item.variantId != Some(variantId)
    requires i < |lines| ==> lines[i].item.variantId == Some(variantId)
    ensures Done(lines, Add(variantId, quantity, Some(listed), newId)).Ok?
    ensures var after := Done(lines, Add(variantId, quantity, Some(listed), newId)).value;
      if i < |lines| then
        var was := if lines[i].item.quantity.Some? then lines[i].item.quantity.value else 0;
        after == lines[i := CartLine(lines[i].id, lines[i].item.(quantity := Some(was + quantity)))]
      else
        && |after| == |lines| + 1 && after[..|lines|] == lines && after[|lines|].id == newId
        && after[|lines|].item.variantId == Some(variantId) && after[|lines|].item.quantity == Some(quantity)
        && after[|lines|].item.variant == Some(listed.variant)
        && after[|lines|].item.priceSnapshot
           == Some(if listed.variant.price.Some? then listed.variant.price.value else 0.0)
  {
  }

  /** Updating sets the quantity of the line with that id, removing takes out that line; both name a line there is. */
  lemma {:induction false} LineRequests(lines: seq<CartLine>, id: int, quantity: int, i: nat)
    requires i <= |lines| && forall j :: 0 <= j < i ==> lines[j].id != id
    requires i < |lines| ==> lines[i].id == id
    ensures Done(lines, Update(id, quantity))
         == if quantity <= 0 then Err(NotPositive)
            else if i == |lines| then Err(LineNotFound)
            else Ok(lines[i := CartLine(id, lines[i].item.(quantity := Some(quantity)))])
    ensures Done(lines, Remove(id)) == if i == |lines| then Err(LineNotFound) else Ok(lines[..i] + lines[i + 1..])
    ensures Done(lines, Clear) == Ok([])
  {
    FoundLine(lines, id, i, |lines|);
  }

  lemma {:induction false} FoundLine(lines: seq<CartLine>, id: int, i: nat, n: nat)
    requires i <= n <= |lines| && forall j :: 0 <= j < i ==> lines[j].id != id
    requires i < |lines| ==> lines[i].id == id
    ensures FindLineTo(lines, id, n) == if i < n then Some(i) else None
  {
    if i < n {
      if i < n - 1 {
        FoundLine(lines, id, i, n - 1);
      } else {
        NoLineYet(lines, id, n - 1);
      }
    } else {
      NoLineYet(lines, id, n);
    }
  }

  lemma {:induction false} NoLineYet(lines: seq<CartLine>, id: int, n: nat)
    requires n <= |lines| && forall j :: 0 <= j < n ==> lines[j].id != id
    ensures FindLineTo(lines, id, n) == None
  {
    if n > 0 {
      NoLineYet(lines, id, n - 1);
    }
  }

  // ---- two additions at once ----

  predicate Accepted(op: CartOp) {
    op.Add? && AddError(op.quantity, op.listed).None?
  }

  /** What an accepted addition writes to a cart once it has seen another. */
  function WrittenAfter(now: seq<CartLine>, read: seq<CartLine>, op: CartOp): seq<CartLine>
    requires Accepted(op)
  {
    Written(now, Look(read, op.variantId), op.newId, op.variantId, op.quantity, op.listed.value)
  }

  /** Two additions that both look before either writes. */
  function Overlapping(lines: seq<CartLine>, first: CartOp, second: CartOp): seq<CartLine>
    requires Accepted(first) && Accepted(second)
  {
    WrittenAfter(WrittenAfter(lines, lines, first), lines, second)
  }

  /** One after the other. */
  function OneByOne(lines: seq<CartLine>, first: CartOp, second: CartOp): seq<CartLine>
    requires Accepted(first) && Accepted(second)
  {
    var once := WrittenAfter(lines, lines, first);
    WrittenAfter(once, once, second)
  }

  lemma {:induction false} OneByOneIsSerial(lines: seq<CartLine>, first: CartOp, second: CartOp)
    requires Accepted(first) && Accepted(second)
    ensures Done(lines, first).Ok? && Done(Done(lines, first).value, second) == Ok(OneByOne(lines, first, second))
  {
  }

  /** What looking finds once an accepted addition has written. */
  lemma {:induction false} LookAfter(lines: seq<CartLine>, op: CartOp, variantId: int)
    requires Accepted(op)
    ensures var before, after := Look(lines, variantId), Look(WrittenAfter(lines, lines, op), variantId);
      if op.variantId != variantId then after == before
      else if before.Some? then after == Some(Seen(before.value.index, before.value.quantity + op.quantity))
      else after == Some(Seen(|lines|, op.quantity))
  {
    var after := WrittenAfter(lines, lines, op);
    var found := FindVariantTo(lines, variantId, |lines|);
    var now := FindVariantTo(after, variantId, |after|);
    assert |lines| <= |after|;
    assert forall i :: 0 <= i < |lines| ==> after[i].item.variantId == lines[i].item.variantId;
    if found.Some? {
      assert after[found.value].item.variantId == Some(variantId);
      assert now == found;
    } else if op.variantId == variantId {
      assert after[|lines|].item.variantId == Some(variantId);
    }
  }

  /**
   Two accepted additions that overlap leave what they leave one after the other exactly when they are of different
   variants. Of one variant, found in the cart, the second writes what it read plus its own quantity, so that the
   first is lost; not found, it gets a second line.
   */
  lemma {:induction false} OverlapIsSerialIff(lines: seq<CartLine>, first: CartOp, second: CartOp)
    requires Accepted(first) && Accepted(second)
    ensures Overlapping(lines, first, second) == OneByOne(lines, first, second) <==> first.variantId != second.variantId
    ensures first.variantId == second.variantId ==>
      var seen := Look(lines, first.variantId);
      if seen.Some? then
        && Overlapping(lines, first, second)
           == WithQuantity(lines, seen.value.index, seen.value.quantity + second.quantity)
        && OneByOne(lines, first, second)
           == WithQuantity(lines, seen.value.index, seen.value.quantity + first.quantity + second.quantity)
        && OneByOne(lines, second, first) == OneByOne(lines, first, second)
      else
        && Overlapping(lines, first, second)
           == lines + [LineOf(first, first.quantity), LineOf(second, second.quantity)]
        && OneByOne(lines, first, second) == lines + [LineOf(first, first.quantity + second.quantity)]
  {
    LookAfter(lines, first, second.variantId);
    LookAfter(lines, second, first.variantId);
    var seen := Look(lines, first.variantId);
    if first.variantId == second.variantId {
      var overlapped, serial := Overlapping(lines, first, second), OneByOne(lines, first, second);
      if seen.Some? {
        var i := seen.value.index;
        assert overlapped[i].item.quantity != serial[i].item.quantity;
      } else {
        assert |overlapped| == |lines| + 2 && |serial| == |lines| + 1;
        assert lines + [LineOf(first, first.quantity)] + [LineOf(second, second.quantity)]
            == lines + [LineOf(first, first.quantity), LineOf(second, second.quantity)];
        assert serial == lines + [LineOf(first, first.quantity + second.quantity)];
      }
    }
  }

  /** The line an addition makes, with that quantity. */
  function LineOf(op: CartOp, quantity: int): CartLine
    requires Accepted(op)
  {
    NewLine(op.newId, op.variantId, quantity, op.listed.value)
  }

  /** Overlapping additions keep one line per variant exactly unless both add a variant the cart did not hold. */
  lemma {:induction false} OverlapStaysWellFilledIff(lines: seq<CartLine>, first: CartOp, second: CartOp)
    requires WellFilled(lines) && Accepted(first) && Accepted(second)
    ensures WellFilled(Overlapping(lines, first, second)) <==>
      !(first.variantId == second.variantId && Look(lines, first.variantId).None?)
  {
    OverlapIsSerialIff(lines, first, second);
    var after := Overlapping(lines, first, second);
    if first.variantId != second.variantId {
      OneByOneIsSerial(lines, first, second);
      DoneStaysWellFilled(lines, first);
      DoneStaysWellFilled(Done(lines, first).value, second);
    } else if Look(lines, first.variantId).None? {
      var n := |lines|;
      assert after[n].item.variantId == after[n + 1].item.variantId;
    }
  }
}
