/** The submission as the service runs it, one transaction on its own: all of it, or a rollback. */
module CheckoutDatabase {
  import opened Base
  import opened Inventory
  import opened Reservation
  import opened InventoryStore
  import opened CheckoutPricing
  import opened CheckoutSubmission

  class CheckoutTables {
    const inventory: InventoryDatabase
    var orders: seq<OrderRow>
    var payments: seq<Payment>
    var checkedOut: set<Id>

    constructor (inventory: InventoryDatabase)
      ensures this.inventory == inventory
      ensures orders == [] && payments == [] && checkedOut == {}
    {
      this.inventory := inventory;
      orders, payments, checkedOut := [], [], {};
    }

    ghost function Snapshot(): Database
      reads this, inventory
    {
      Database(inventory.Snapshot(), orders, payments, checkedOut)
    }

    /** An order under the key is replayed; otherwise stock, order, payment and cart change together. */
    method SubmitCheckout(r: Request) returns (outcome: Outcome)
      modifies this, inventory
      ensures var o := FindOrder(old(orders), r.key); o.Some? ==> (
        o.value < |old(orders)| && (Snapshot(), outcome) == Replay(old(Snapshot()), r, o.value))
      ensures outcome.Created? <==> (
        FindOrder(old(orders), r.key).None? && AllFit(old(inventory.Snapshot()), Takes(r.lines))
        && !CodeExists(old(orders), r.code) && !PaymentExists(old(payments), r.key))
      ensures outcome.Created? ==> outcome.order == |old(orders)|
      ensures outcome.Created? ==> (
        Snapshot() == Publish(old(Snapshot()), r, Served(old(inventory.Snapshot()), Takes(r.lines))))
      ensures FindOrder(old(orders), r.key).None? && !outcome.Created? ==> Snapshot() == old(Snapshot())
      ensures outcome.OutOfStock? <==> (
        FindOrder(old(orders), r.key).None? && !AllFit(old(inventory.Snapshot()), Takes(r.lines)))
    {
      var existing := FindByIdempotencyKey(r.key);
      if existing.Some? {
        outcome := AnswerReplay(r, existing.value);
        return;
      }
      var savedStock, savedLots := inventory.stock, inventory.lots;
      var reserved := inventory.ReserveForOrder(r.lines);
      if reserved.None? {
        return OutOfStock;
      }
      if CodeExists(orders, r.code) || PaymentExists(payments, r.key) {
        inventory.stock, inventory.lots := savedStock, savedLots;
        return Failed;
      }
      outcome := Created(|orders|);
      payments := payments + [Payment(|orders|, r.key, PaymentAmount(r.quote))];
      orders := orders + [NewOrder(r)];
      checkedOut := checkedOut + {r.cart};
    }

    method FindByIdempotencyKey(key: string) returns (o: Option<nat>)
      ensures o == FindOrder(orders, key)
      ensures o.Some? ==> o.value < |orders| && orders[o.value].request.key == key
    {
      var n := |orders|;
      assert orders[..n] == orders;
      while n > 0
        invariant 0 <= n <= |orders|
        invariant FindOrder(orders, key) == FindOrder(orders[..n], key)
      {
        assert orders[..n][..n - 1] == orders[..n - 1];
        if orders[n - 1].request.key == key {
          return Some(n - 1);
        }
        n := n - 1;
      }
      return None;
    }

    method AnswerReplay(r: Request, o: nat) returns (outcome: Outcome)
      requires o < |orders|
      modifies `payments
      ensures (Snapshot(), outcome) == Replay(old(Snapshot()), r, o)
    {
      if orders[o].request.customer != r.customer {
        return KeyTaken;
      }
      if !PaymentExists(payments, r.key) {
        payments := payments + [Payment(o, r.key, orders[o].total)];
      }
      return Replayed(o);
    }
  }

  // ---------------------------------------------------------------------------------------------
  // The submission on its own is one of the interleavings
  // ---------------------------------------------------------------------------------------------

  ghost function Alone(db: Database, r: Request): World {
    var begun := World(db, [Submission(r, Begun)]);
    Next(Next(Next(Next(begun, Read(0)), Reserve(0)), Insert(0, false)), Commit(0))
  }

  /** Without interference the moves do what the transaction does: create exactly when it may, or nothing. */
  lemma UninterruptedSubmission(db: Database, r: Request)
    requires FindOrder(db.orders, r.key).None? && !PaymentExists(db.payments, r.key)
    ensures AllFit(db.store, Takes(r.lines)) && !CodeExists(db.orders, r.code) ==> (
      Alone(db, r) == World(
        Publish(db, r, Served(db.store, Takes(r.lines))), [Submission(r, Finished(Created(|db.orders|)))]))
    ensures AllFit(db.store, Takes(r.lines)) && CodeExists(db.orders, r.code) ==> (
      Alone(db, r) == World(db, [Submission(r, Finished(Failed))]))
    ensures !AllFit(db.store, Takes(r.lines)) ==> Alone(db, r) == World(db, [Submission(r, Finished(OutOfStock))])
  {
    ReservationFollowsDemand(db.store, Takes(r.lines));
    var missed := World(db, [Submission(r, Missed)]);
    assert Next(World(db, [Submission(r, Begun)]), Read(0)) == missed;
    if AllFit(db.store, Takes(r.lines)) {
      assert Next(missed, Reserve(0)) == World(db, [Submission(r, Reserved)]);
    } else {
      assert Next(missed, Reserve(0)) == World(db, [Submission(r, Finished(OutOfStock))]);
    }
  }
}
