/**
 Payments over whole serial runs, webhook replays included: one payment per reference, each confirmed
 at most once, and orders marked paid exactly when one of their payments is.
 */
module PaymentLaws {
  import opened Std
  import opened OrderModel

  ghost predicate UniqueIds(orders: seq<Order>) {
    forall i, j :: 0 <= i < j < |orders| ==> orders[i].id != orders[j].id
  }

  ghost predicate UniqueReferences(payments: seq<Payment>) {
    forall i, j :: 0 <= i < j < |payments| ==> payments[i].reference != payments[j].reference
  }

  /** Every payment belongs to an order on file. */
  ghost predicate PaymentsHaveOrders(db: Db) {
    forall p :: 0 <= p < |db.payments| ==>
      db.payments[p].orderId.Some? && FindOrder(db.orders, db.payments[p].orderId.value).Some?
  }

  /** One of the order's payments has been received. */
  ghost predicate HasPaidPayment(payments: seq<Payment>, id: int) {
    exists p :: 0 <= p < |payments| && payments[p].orderId == Some(id) && payments[p].status == PaymentReceived
  }

  ghost predicate PaidIffPayment(db: Db) {
    forall i :: 0 <= i < |db.orders| ==>
      (db.orders[i].paymentStatus == PaymentReceived <==> HasPaidPayment(db.payments, db.orders[i].id))
  }

  ghost predicate ConfirmedArePaid(orders: seq<Order>) {
    forall i :: 0 <= i < |orders| && orders[i].status == Confirmed ==> orders[i].paymentStatus == PaymentReceived
  }

  ghost predicate Consistent(db: Db) {
    && UniqueIds(db.orders) && UniqueReferences(db.payments) && PaymentsHaveOrders(db)
    && PaidIffPayment(db) && ConfirmedArePaid(db.orders)
  }

  /** Orders with the same ids in the same places are found in the same places, and more orders hide none. */
  lemma {:induction false} StillFound(a: seq<Order>, b: seq<Order>, id: int)
    requires |a| <= |b| && forall i :: 0 <= i < |a| ==> a[i].id == b[i].id
    requires FindOrder(a, id).Some?
    ensures FindOrder(b, id).Some?
  {
    assert b[FindOrder(a, id).value].id == id;
  }

  lemma {:induction false} TxnKeepsConsistent(db: Db, settings: Settings, t: Txn)
    requires Consistent(db)
    ensures Consistent(Atomic(db, settings, t).0)
  {
    var after := Atomic(db, settings, t).0;
    assert after.payments == db.payments;
    forall p | 0 <= p < |db.payments| ensures FindOrder(after.orders, db.payments[p].orderId.value).Some? {
      StillFound(db.orders, after.orders, db.payments[p].orderId.value);
    }
    if t.Checkout? && after != db {
      NewOrderIsUnpaid(db, t.id);
    }
  }

  /** No payment was recorded for an order that did not exist. */
  lemma {:induction false} NewOrderIsUnpaid(db: Db, id: int)
    requires PaymentsHaveOrders(db) && FindOrder(db.orders, id).None?
    ensures !HasPaidPayment(db.payments, id)
  {
    forall p | 0 <= p < |db.payments| ensures db.payments[p].orderId != Some(id) {
    }
  }

  lemma {:induction false} RecordKeepsConsistent(db: Db, op: Op, settings: Settings)
    requires Consistent(db) && op.Record?
    ensures Consistent(Apply(db, settings, op))
  {
    var after := Apply(db, settings, op);
    if after != db {
      var n := |db.payments|;
      forall id ensures HasPaidPayment(after.payments, id) <==> HasPaidPayment(db.payments, id) {
        if HasPaidPayment(db.payments, id) {
          var p :| 0 <= p < n && db.payments[p].orderId == Some(id) && db.payments[p].status == PaymentReceived;
          assert after.payments[p] == db.payments[p];
        }
      }
    }
  }

  lemma {:induction false} ConfirmKeepsConsistent(db: Db, reference: string)
    requires Consistent(db)
    ensures Consistent(ConfirmPayment(db, reference).0)
  {
    var after := ConfirmPayment(db, reference).0;
    if after != db {
      var p := FindPayment(db.payments, reference).value;
      var owner := db.payments[p].orderId.value;
      var i := FindOrder(db.orders, owner).value;
      forall q | 0 <= q < |after.payments| ensures FindOrder(after.orders, after.payments[q].orderId.value).Some? {
        StillFound(db.orders, after.orders, db.payments[q].orderId.value);
      }
      forall j | 0 <= j < |after.orders|
        ensures after.orders[j].paymentStatus == PaymentReceived <==> HasPaidPayment(after.payments, after.orders[j].id)
      {
        if j == i {
          assert after.payments[p].orderId == Some(owner) && after.payments[p].status == PaymentReceived;
        } else if HasPaidPayment(db.payments, db.orders[j].id) {
          var q :| 0 <= q < |db.payments| && db.payments[q].orderId == Some(db.orders[j].id)
                   && db.payments[q].status == PaymentReceived;
          assert after.payments[q] == db.payments[q];
        }
      }
    }
  }

  /** Over any serial run of every operation the payment books stay consistent. */
  lemma {:induction false} PaymentsStayConsistent(db: Db, settings: Settings, ops: seq<Op>, k: nat)
    requires k <= |ops| && Consistent(db)
    ensures Consistent(After(db, settings, ops, k))
  {
    if k > 0 {
      PaymentsStayConsistent(db, settings, ops, k - 1);
      var before := After(db, settings, ops, k - 1);
      match ops[k - 1] {
        case Run(t) => TxnKeepsConsistent(before, settings, t);
        case Record(_, _, _, _, _) => RecordKeepsConsistent(before, ops[k - 1], settings);
        case Confirm(reference) => ConfirmKeepsConsistent(before, reference);
      }
    }
  }

  // ---- confirming ----

  predicate IsPaid(payments: seq<Payment>, reference: string) {
    var found := FindPayment(payments, reference);
    found.Some? && payments[found.value].status == PaymentReceived
  }

  /** Confirmation answers true exactly for a recorded payment not yet received, which it then is. */
  lemma {:induction false} ConfirmTrueIff(db: Db, reference: string)
    ensures ConfirmPayment(db, reference).1 <==>
      FindPayment(db.payments, reference).Some? && !IsPaid(db.payments, reference)
    ensures ConfirmPayment(db, reference).1 ==> IsPaid(ConfirmPayment(db, reference).0.payments, reference)
    ensures !ConfirmPayment(db, reference).1 ==> ConfirmPayment(db, reference).0 == db
  {
    if ConfirmPayment(db, reference).1 {
      var p := FindPayment(db.payments, reference).value;
      var after := ConfirmPayment(db, reference).0;
      assert after.payments[p].reference == reference;
      assert FindPayment(after.payments, reference) == Some(p);
    }
  }

  /** How many of the first k operations were confirmations of that reference that answered true. */
  function Confirmations(db: Db, settings: Settings, ops: seq<Op>, k: nat, reference: string): nat
    requires k <= |ops|
  {
    if k == 0 then 0
    else
      Confirmations(db, settings, ops, k - 1, reference)
      + if ops[k - 1] == Confirm(reference) && ConfirmPayment(After(db, settings, ops, k - 1), reference).1
        then 1 else 0
  }

  /** A recorded payment keeps its place, and only its own confirmation changes it. */
  lemma {:induction false} StillRecorded(db: Db, settings: Settings, op: Op, reference: string)
    requires FindPayment(db.payments, reference).Some?
    ensures var p := FindPayment(db.payments, reference).value; var after := Apply(db, settings, op).payments;
      FindPayment(after, reference) == Some(p) && (op != Confirm(reference) ==> after[p] == db.payments[p])
  {
    var p := FindPayment(db.payments, reference).value;
    var after := Apply(db, settings, op).payments;
    if op.Run? {
      assert after == db.payments;
    }
    assert |after| >= |db.payments|;
    assert forall i :: 0 <= i <= p ==> after[i].reference == db.payments[i].reference;
  }

  lemma {:induction false} PaidStaysPaid(db: Db, settings: Settings, op: Op, reference: string)
    requires IsPaid(db.payments, reference)
    ensures IsPaid(Apply(db, settings, op).payments, reference)
  {
    StillRecorded(db, settings, op, reference);
    ConfirmTrueIff(db, reference);
  }

  /** An operation leaves a reference paid exactly when it was paid or this confirmation paid it. */
  lemma {:induction false} PaidIffConfirmed(db: Db, settings: Settings, op: Op, reference: string)
    ensures var confirmed := op == Confirm(reference) && ConfirmPayment(db, reference).1;
      && (IsPaid(Apply(db, settings, op).payments, reference) <==> IsPaid(db.payments, reference) || confirmed)
      && !(IsPaid(db.payments, reference) && confirmed)
  {
    ConfirmTrueIff(db, reference);
    if IsPaid(db.payments, reference) {
      PaidStaysPaid(db, settings, op, reference);
    } else if op != Confirm(reference) {
      OthersDoNotPay(db, settings, op, reference);
    }
  }

  /**
   However often the webhook is replayed, a reference is confirmed at most once, and has been confirmed
   exactly once if it was unpaid at the start and is paid now.
   */
  lemma {:induction false} ConfirmedAtMostOnce(db: Db, settings: Settings, ops: seq<Op>, k: nat, reference: string)
    requires k <= |ops|
    ensures Confirmations(db, settings, ops, k, reference)
      == if !IsPaid(db.payments, reference) && IsPaid(After(db, settings, ops, k).payments, reference) then 1 else 0
    ensures IsPaid(db.payments, reference) ==> IsPaid(After(db, settings, ops, k).payments, reference)
  {
    if k == 0 {
      assert After(db, settings, ops, 0) == db;
    } else {
      ConfirmedAtMostOnce(db, settings, ops, k - 1, reference);
      var earlier, op := After(db, settings, ops, k - 1), ops[k - 1];
      PaidIffConfirmed(earlier, settings, op, reference);
      assert After(db, settings, ops, k) == Apply(earlier, settings, op);
    }
  }

  lemma {:induction false} OthersDoNotPay(db: Db, settings: Settings, op: Op, reference: string)
    requires !IsPaid(db.payments, reference) && op != Confirm(reference)
    ensures !IsPaid(Apply(db, settings, op).payments, reference)
  {
    if FindPayment(db.payments, reference).Some? {
      StillRecorded(db, settings, op, reference);
    } else {
      NewPaymentsAreUnpaid(db, settings, op, reference);
    }
  }

  /** A reference without a payment has none afterwards, or one that is not paid. */
  lemma {:induction false} NewPaymentsAreUnpaid(db: Db, settings: Settings, op: Op, reference: string)
    requires FindPayment(db.payments, reference).None?
    ensures !IsPaid(Apply(db, settings, op).payments, reference)
  {
    var after := Apply(db, settings, op).payments;
    if op.Run? {
      assert after == db.payments;
    }
    assert forall i :: 0 <= i < |db.payments| ==> after[i].reference == db.payments[i].reference;
    assert forall i :: |db.payments| <= i < |after| ==> after[i].status == AwaitingPayment;
  }
}
