/**
 What two checkouts of one user can do to one cart, which is read without a lock: both turn it into an order.
 */
module DoubleCheckout {
  import opened Std
  import opened InventoryService
  import opened OrderModel
  import opened Interleaving
  import opened Conflicts

  /** One after the other, the second checkout of a user always finds the cart gone. */
  lemma {:induction false} SecondCheckoutFindsNoCart(db: Db, settings: Settings, first: Txn, second: Txn)
    requires first.Checkout? && second.Checkout? && first.userId == second.userId
    requires Atomic(db, settings, first).1.Placed?
    ensures var after := Atomic(db, settings, first).0; Atomic(after, settings, second) == (after, Failed(EmptyCart))
  {
    var after := Atomic(db, settings, first).0;
    assert first.userId !in after.carts;
  }

  /** The orders both checkouts of one cart leave behind when each reads it before the other commits. */
  lemma {:induction false} BothPlace(settings: Settings, first: Txn, second: Txn, db: Db)
    requires first.Checkout? && second.Checkout? && first.userId == second.userId && first.id != second.id
    requires db == OneCart(settings, first.userId, first.addressId, second.addressId, 0)
    ensures Exec(Initially(db, [first, second]), settings, [first, second], Overlap(0, 1), 6).db.orders
         == [NewOrder(settings, first, [CARTED])] + [NewOrder(settings, second, [CARTED])]
  {
    BothCheckOut(settings, [first, second], 0, 1, db);
    var placed := Finish(db, settings, first, [CARTED], [CartShelf(settings, 1)]).0;
    assert placed.orders == [NewOrder(settings, first, [CARTED])];
  }

  /**
   Any two checkouts of one user: interleaved, one cart becomes two orders, both with all its items; run one
   after the other in either order it becomes one.
   */
  lemma {:induction false} OneCartOrderedTwice(settings: Settings, first: Txn, second: Txn)
    requires first.Checkout? && second.Checkout? && first.userId == second.userId && first.id != second.id
    ensures exists db: Db, actions: seq<Action> ::
      var after := Exec(Initially(db, [first, second]), settings, [first, second], actions, |actions|).db;
      && |after.orders| == 2 && first.userId in db.carts
      && after.orders[0].items == after.orders[1].items == PlannedItems(db.carts[first.userId])
      && |Atomic(Atomic(db, settings, first).0, settings, second).0.orders| == 1
      && |Atomic(Atomic(db, settings, second).0, settings, first).0.orders| == 1
  {
    var db := OneCart(settings, first.userId, first.addressId, second.addressId, 0);
    var other := OneCart(settings, first.userId, second.addressId, first.addressId, 0);
    assert db.addresses == other.addresses;
    BothPlace(settings, first, second, db);
    OneCartTwice(settings, first, second, db);
    OneCartTwice(settings, second, first, other);
    SecondCheckoutFindsNoCart(db, settings, first, second);
    SecondCheckoutFindsNoCart(db, settings, second, first);
    var actions := Overlap(0, 1);
    assert |actions| == 6;
    var after := Exec(Initially(db, [first, second]), settings, [first, second], actions, |actions|).db;
    assert |after.orders| == 2;
  }
}
