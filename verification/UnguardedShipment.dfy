/**
 What `record_shipment` does for want of a status guard: shipping an order that was cancelled, or shipped
 already, takes units that another live order is owed.
 */
module UnguardedShipment {
  import opened Std
  import opened InventoryService
  import opened OrderModel
  import opened Shop
  import StockLaws

  const SHIP := RecordShipment(1, "", "")

  /** The shipment of an order without a reservation that leaves the other one uncovered. */
  lemma {:induction false} ShippingUncovers(settings: Settings, onHand: int, status: OrderStatus)
    requires 2 <= onHand && !HoldsReservation(status)
    ensures StockLaws.Sane(Stocked(1, 7, onHand, 2, status)) && StockLaws.Covered(Stocked(1, 7, onHand, 2, status))
    ensures !StockLaws.Covered(Atomic(Stocked(1, 7, onHand, 2, status), settings, SHIP).0)
  {
    CoveredIff(1, 7, onHand, 2, status);
    GiveBackFirst(settings, 1, 7, onHand, 2, status, SHIP);
    CoveredIff(1, 7, onHand - 2, 0, Shipped);
    ShipmentsDoNotMatter(Stocked(1, 7, onHand - 2, 0, Shipped),
                         Atomic(Stocked(1, 7, onHand, 2, status), settings, SHIP).0.shipments);
  }

  /** Shipping a cancelled order: covered before and after the cancellation, uncovered after the shipment. */
  lemma {:induction false} ShippingACancelledOrderUncovers(settings: Settings)
    ensures exists db: Db ::
      var cancelled := Atomic(db, settings, CancelOrder(1, 7)).0;
      && StockLaws.Sane(db) && StockLaws.Covered(db) && StockLaws.Covered(cancelled)
      && !StockLaws.Covered(Atomic(cancelled, settings, SHIP).0)
  {
    var db := Stocked(1, 7, 4, 4, Pending);
    CoveredIff(1, 7, 4, 4, Pending);
    GiveBackFirst(settings, 1, 7, 4, 4, Pending, CancelOrder(1, 7));
    ShippingUncovers(settings, 4, Cancelled);
    assert !StockLaws.Covered(Atomic(Atomic(db, settings, CancelOrder(1, 7)).0, settings, SHIP).0);
  }

  /** Shipping an order twice: covered before and after the first shipment, uncovered after the second. */
  lemma {:induction false} ShippingTwiceUncovers(settings: Settings)
    ensures exists db: Db ::
      var shipped := Atomic(db, settings, SHIP).0;
      && StockLaws.Sane(db) && StockLaws.Covered(db) && StockLaws.Covered(shipped)
      && !StockLaws.Covered(Atomic(shipped, settings, SHIP).0)
  {
    var db := Stocked(1, 7, 6, 4, Pending);
    CoveredIff(1, 7, 6, 4, Pending);
    GiveBackFirst(settings, 1, 7, 6, 4, Pending, SHIP);
    var shipped := Atomic(db, settings, SHIP).0;
    CoveredIff(1, 7, 4, 2, Shipped);
    ShipmentsDoNotMatter(Stocked(1, 7, 4, 2, Shipped), shipped.shipments);
    ShipsAlikeWhateverIsOnFile(settings, Stocked(1, 7, 4, 2, Shipped), shipped.shipments);
    ShippingUncovers(settings, 4, Shipped);
    assert !StockLaws.Covered(Atomic(shipped, settings, SHIP).0);
  }

  /** What earlier shipments are on file does not change what the next one does to rows and orders. */
  lemma {:induction false} ShipsAlikeWhateverIsOnFile(settings: Settings, db: Db, shipments: seq<Shipment>)
    ensures StockLaws.Covered(Atomic(db.(shipments := shipments), settings, SHIP).0) <==>
      StockLaws.Covered(Atomic(db, settings, SHIP).0)
  {
    var a, b := Atomic(db.(shipments := shipments), settings, SHIP).0, Atomic(db, settings, SHIP).0;
    assert a == b.(shipments := a.shipments);
    ShipmentsDoNotMatter(b, a.shipments);
  }
}
