/** However submissions interleave, an idempotency key yields one order, once deducted, once payable. */
module ExactlyOnce {
  import opened Base
  import opened Inventory
  import opened Reservation
  import opened CheckoutPricing
  import opened CheckoutSubmission

  function AllLines(orders: seq<OrderRow>): seq<Line> {
    if orders == [] then [] else AllLines(orders[..|orders| - 1]) + orders[|orders| - 1].request.lines
  }

  function CartsOf(orders: seq<OrderRow>): set<Id> {
    set i | 0 <= i < |orders| :: orders[i].request.cart
  }

  function Opening(store: Store, checkedOut: set<Id>): World {
    World(Database(store, [], [], checkedOut), [])
  }

  // ---------------------------------------------------------------------------------------------
  // The invariant
  // ---------------------------------------------------------------------------------------------

  predicate DistinctOrders(orders: seq<OrderRow>) {
    forall i, j :: 0 <= i < j < |orders| ==>
      orders[i].request.key != orders[j].request.key && orders[i].request.code != orders[j].request.code
  }

  /** One payment per order, under its key, for the amount quoted. */
  predicate PaidOnce(db: Database) {
    && |db.payments| == |db.orders|
    && forall i :: 0 <= i < |db.orders| ==>
         var r := db.orders[i].request;
         db.orders[i] == NewOrder(r) && db.payments[i] == Payment(i, r.key, PaymentAmount(r.quote))
  }

  /** Stock is the starting stock less the lines of the committed orders; carts likewise. */
  ghost predicate Deducted(store: Store, checkedOut: set<Id>, db: Database) {
    ApplyAll(store, Takes(AllLines(db.orders))) == Some(db.store)
    && db.checkedOut == checkedOut + CartsOf(db.orders)
  }

  ghost predicate DatabaseSound(store: Store, checkedOut: set<Id>, db: Database) {
    DistinctOrders(db.orders) && PaidOnce(db) && Deducted(store, checkedOut, db)
  }

  predicate HasOrder(db: Database, key: string) {
    exists o :: 0 <= o < |db.orders| && Has(db, o, key)
  }

  predicate Has(db: Database, o: int, key: string) {
    0 <= o < |db.orders| && db.orders[o].request.key == key
  }

  ghost predicate SubmissionSound(db: Database, s: Submission) {
    match s.phase
    case Begun => true
    case Missed => true
    case Reserved => ApplyAll(db.store, Takes(s.request.lines)).Some?
    case Inserted =>
      ApplyAll(db.store, Takes(s.request.lines)).Some?
      && !HasOrder(db, s.request.key) && !CodeExists(db.orders, s.request.code)
    case Collided => HasOrder(db, s.request.key)
    case Finished(outcome) =>
      match outcome
      case Created(o) => o < |db.orders| && db.orders[o].request == s.request
      case Replayed(o) =>
        o < |db.orders| && db.orders[o].request.key == s.request.key && db.orders[o].request.customer == s.request.customer
      case _ => true
  }

  predicate CreatedBy(w: World, i: int, o: nat) {
    0 <= i < |w.submissions| && w.submissions[i].phase == Finished(Created(o))
  }

  predicate HasCreator(w: World, o: nat) {
    exists i :: 0 <= i < |w.submissions| && CreatedBy(w, i, o)
  }

  ghost predicate Separate(a: Submission, b: Submission) {
    && (HoldsRows(a) && HoldsRows(b) ==> !ShareRows(a.request, b.request))
    && (a.phase.Inserted? && b.phase.Inserted? ==> a.request.key != b.request.key && a.request.code != b.request.code)
    && (a.phase.Finished? && a.phase.outcome.Created? ==> a.phase != b.phase)
  }

  ghost predicate SubmissionsSound(w: World) {
    && (forall i :: 0 <= i < |w.submissions| ==> SubmissionSound(w.db, w.submissions[i]))
    && (forall i, j :: 0 <= i < |w.submissions| && 0 <= j < |w.submissions| && i != j ==>
          Separate(w.submissions[i], w.submissions[j]))
    && (forall o :: 0 <= o < |w.db.orders| ==> HasCreator(w, o))
  }

  ghost predicate Sound(store: Store, checkedOut: set<Id>, w: World) {
    DatabaseSound(store, checkedOut, w.db) && SubmissionsSound(w)
  }

  // ---------------------------------------------------------------------------------------------
  // Stock
  // ---------------------------------------------------------------------------------------------

  /** Reservations that share no row do not get in each other's way. */
  lemma DisjointReservationsFit(s: Store, a: seq<Take>, b: seq<Take>)
    requires ApplyAll(s, a).Some? && ApplyAll(s, b).Some?
    requires forall r :: !(Touches(a, r) && Touches(b, r))
    ensures ApplyAll(ApplyAll(s, a).value, b).Some?
  {
    ReservationFollowsDemand(s, a);
    ReservationFollowsDemand(s, b);
    ReservationFollowsDemand(s, a + b);
    forall r | Touches(a + b, r) ensures Fits(s, a + b, r) {
      DemandOfConcatenation(a, b, r);
      UntouchedIsUndemanded(a, r);
      UntouchedIsUndemanded(b, r);
      assert Fits(s, a, r) || Fits(s, b, r);
    }
    ApplyAllComposes(s, a, b);
  }

  lemma OrderStillFits(s: Store, winner: Request, other: Request)
    requires ApplyAll(s, Takes(winner.lines)).Some? && ApplyAll(s, Takes(other.lines)).Some?
    requires !ShareRows(other, winner)
    ensures ApplyAll(ApplyAll(s, Takes(winner.lines)).value, Takes(other.lines)).Some?
  {
    DisjointReservationsFit(s, Takes(winner.lines), Takes(other.lines));
  }

  // ---------------------------------------------------------------------------------------------
  // Moves that do not commit
  // ---------------------------------------------------------------------------------------------

  lemma EnteringIsSound(w: World, i: nat, phase: Phase)
    requires SubmissionsSound(w) && i < |w.submissions|
    requires !(w.submissions[i].phase.Finished? && w.submissions[i].phase.outcome.Created?)
    requires !(phase.Finished? && phase.outcome.Created?)
    requires SubmissionSound(w.db, w.submissions[i].(phase := phase))
    requires HoldsRows(w.submissions[i]) || !(phase.Reserved? || phase.Inserted?) || RowsAreFree(w, i)
    requires phase.Inserted? ==> KeysAreFree(w, i)
    ensures SubmissionsSound(Enter(w, i, phase))
  {
    var w1 := Enter(w, i, phase);
    forall a, b | 0 <= a < |w.submissions| && 0 <= b < |w.submissions| && a != b
      ensures Separate(w1.submissions[a], w1.submissions[b])
    {
      assert Separate(w.submissions[a], w.submissions[b]) && Separate(w.submissions[b], w.submissions[a]);
      if a == i || b == i {
        var other := if a == i then b else a;
        if HoldsRows(w1.submissions[i]) && HoldsRows(w1.submissions[other]) {
          assert !ShareRows(w.submissions[i].request, w.submissions[other].request);
          assert !ShareRows(w.submissions[other].request, w.submissions[i].request);
        }
      }
    }
    forall o | 0 <= o < |w1.db.orders| ensures HasCreator(w1, o) {
      assert HasCreator(w, o);
      var k :| 0 <= k < |w.submissions| && CreatedBy(w, k, o);
      assert k != i && CreatedBy(w1, k, o);
    }
  }

  lemma SubmittingIsSound(w: World, r: Request)
    requires SubmissionsSound(w)
    ensures SubmissionsSound(w.(submissions := w.submissions + [Submission(r, Begun)]))
  {
    var w1 := w.(submissions := w.submissions + [Submission(r, Begun)]);
    forall o | 0 <= o < |w1.db.orders| ensures HasCreator(w1, o) {
      assert HasCreator(w, o);
      var k :| 0 <= k < |w.submissions| && CreatedBy(w, k, o);
      assert CreatedBy(w1, k, o);
    }
  }

  /** In a sound database every order has its payment, so a replay writes nothing. */
  lemma ReplayWritesNothing(db: Database, r: Request, o: nat)
    requires PaidOnce(db) && o < |db.orders| && db.orders[o].request.key == r.key
    ensures Replay(db, r, o).0 == db
  {
    assert db.payments[o].key == r.key;
  }

  lemma LookingUpIsSound(store: Store, checkedOut: set<Id>, w: World, i: nat, otherwise: Phase)
    requires Sound(store, checkedOut, w) && i < |w.submissions|
    requires w.submissions[i].phase.Begun? || w.submissions[i].phase.Collided?
    requires otherwise == Missed || otherwise == Finished(Failed)
    ensures Sound(store, checkedOut, LookUp(w, i, otherwise)) && LookUp(w, i, otherwise).db == w.db
  {
    var r := w.submissions[i].request;
    FindOrderFinds(w.db.orders, r.key);
    var o := FindOrder(w.db.orders, r.key);
    if o.Some? {
      ReplayWritesNothing(w.db, r, o.value);
      EnteringIsSound(w, i, Finished(Replay(w.db, r, o.value).1));
    } else {
      EnteringIsSound(w, i, otherwise);
    }
  }

  lemma InsertingIsSound(w: World, i: nat, codeIsCheckedFirst: bool)
    requires SubmissionsSound(w) && PaidOnce(w.db) && InPhase(w, i, Reserved) && KeysAreFree(w, i)
    ensures SubmissionsSound(Next(w, Insert(i, codeIsCheckedFirst)))
  {
    var r := w.submissions[i].request;
    FindOrderFinds(w.db.orders, r.key);
    assert SubmissionSound(w.db, w.submissions[i]);
    if PaymentExists(w.db.payments, r.key) {
      var k :| 0 <= k < |w.db.payments| && w.db.payments[k].key == r.key;
      assert Has(w.db, k, r.key);
    }
    EnteringIsSound(w, i, AfterInsert(w.db, r, codeIsCheckedFirst));
  }

  // ---------------------------------------------------------------------------------------------
  // The commit
  // ---------------------------------------------------------------------------------------------

  lemma PublishingDeducts(store: Store, checkedOut: set<Id>, db: Database, r: Request)
    requires Deducted(store, checkedOut, db) && ApplyAll(db.store, Takes(r.lines)).Some?
    ensures Deducted(store, checkedOut, Publish(db, r, ApplyAll(db.store, Takes(r.lines)).value))
  {
    hide ApplyAll, Takes;
    var db1 := Publish(db, r, ApplyAll(db.store, Takes(r.lines)).value);
    var n := |db.orders|;
    assert db1.orders[..n] == db.orders && db1.orders[n].request == r;
    assert AllLines(db1.orders) == AllLines(db.orders) + r.lines;
    TakesOfConcatenation(AllLines(db.orders), r.lines);
    ApplyAllComposes(store, Takes(AllLines(db.orders)), Takes(r.lines));
    CartsWithOneMore(db.orders, NewOrder(r));
  }

  lemma CartsWithOneMore(orders: seq<OrderRow>, row: OrderRow)
    ensures CartsOf(orders + [row]) == CartsOf(orders) + {row.request.cart}
  {
    var all := orders + [row];
    assert all[|orders|] == row;
    forall c | c in CartsOf(orders) ensures c in CartsOf(all) {
      var i :| 0 <= i < |orders| && orders[i].request.cart == c;
      assert all[i].request.cart == c;
    }
  }

  lemma PublishingIsSound(store: Store, checkedOut: set<Id>, db: Database, r: Request)
    requires DatabaseSound(store, checkedOut, db)
    requires !HasOrder(db, r.key) && !CodeExists(db.orders, r.code)
    requires ApplyAll(db.store, Takes(r.lines)).Some?
    ensures DatabaseSound(store, checkedOut, Publish(db, r, ApplyAll(db.store, Takes(r.lines)).value))
  {
    hide Deducted, ApplyAll;
    PublishingDeducts(store, checkedOut, db, r);
    forall i | 0 <= i < |db.orders| ensures db.orders[i].request.key != r.key {
      assert !Has(db, i, r.key);
    }
  }

  lemma OthersSurviveTheCommit(db: Database, winner: Request, s: Submission)
    requires ApplyAll(db.store, Takes(winner.lines)).Some?
    requires SubmissionSound(db, s) && Separate(s, Submission(winner, Inserted))
    ensures SubmissionSound(Publish(db, winner, ApplyAll(db.store, Takes(winner.lines)).value), s)
  {
    var db1 := Publish(db, winner, ApplyAll(db.store, Takes(winner.lines)).value);
    assert db1.orders[..|db.orders|] == db.orders;
    if HoldsRows(s) {
      OrderStillFits(db.store, winner, s.request);
    }
    if s.phase.Collided? {
      var o :| 0 <= o < |db.orders| && Has(db, o, s.request.key);
      assert Has(db1, o, s.request.key);
    }
    if s.phase.Inserted? {
      forall o | 0 <= o < |db1.orders| && Has(db1, o, s.request.key) ensures false {
        assert Has(db, o, s.request.key);
      }
    }
  }

  lemma SubmissionsStaySeparate(w: World, i: nat)
    requires SubmissionsSound(w) && InPhase(w, i, Inserted)
    ensures var after := Enter(w, i, Finished(Created(|w.db.orders|))).submissions;
      forall a, b :: 0 <= a < |after| && 0 <= b < |after| && a != b ==> Separate(after[a], after[b])
  {
  }

  lemma OthersStaySound(w: World, i: nat)
    requires SubmissionsSound(w) && InPhase(w, i, Inserted)
    ensures forall k :: 0 <= k < |w.submissions| ==> SubmissionSound(Next(w, Commit(i)).db, Next(w, Commit(i)).submissions[k])
  {
    var r := w.submissions[i].request;
    assert SubmissionSound(w.db, w.submissions[i]);
    forall k | 0 <= k < |w.submissions| && k != i
      ensures SubmissionSound(Publish(w.db, r, ApplyAll(w.db.store, Takes(r.lines)).value), w.submissions[k])
    {
      hide SubmissionSound, ApplyAll, ShareRows;
      assert Separate(w.submissions[k], w.submissions[i]) && w.submissions[i] == Submission(r, Inserted);
      OthersSurviveTheCommit(w.db, r, w.submissions[k]);
    }
  }

  lemma CreatorsRemain(w: World, i: nat)
    requires SubmissionsSound(w) && InPhase(w, i, Inserted)
    ensures forall o :: 0 <= o < |Next(w, Commit(i)).db.orders| ==> HasCreator(Next(w, Commit(i)), o)
  {
    hide Separate, ApplyAll;
    var w1, n := Next(w, Commit(i)), |w.db.orders|;
    assert SubmissionSound(w.db, w.submissions[i]);
    forall o | 0 <= o < |w1.db.orders| ensures HasCreator(w1, o) {
      if o == n {
        assert CreatedBy(w1, i, o);
      } else {
        assert HasCreator(w, o);
        var k :| 0 <= k < |w.submissions| && CreatedBy(w, k, o);
        assert CreatedBy(w1, k, o);
      }
    }
  }

  lemma CommittingIsSound(store: Store, checkedOut: set<Id>, w: World, i: nat)
    requires Sound(store, checkedOut, w) && InPhase(w, i, Inserted)
    ensures Sound(store, checkedOut, Next(w, Commit(i)))
    ensures CreatedBy(Next(w, Commit(i)), i, |w.db.orders|)
    ensures Next(w, Commit(i)).db.orders == w.db.orders + [NewOrder(w.submissions[i].request)]
    ensures |Next(w, Commit(i)).submissions| == |w.submissions|
    ensures forall k :: 0 <= k < |w.submissions| && k != i ==> Next(w, Commit(i)).submissions[k] == w.submissions[k]
  {
    hide Separate, DatabaseSound, HasCreator, ApplyAll;
    assert SubmissionSound(w.db, w.submissions[i]);
    PublishingIsSound(store, checkedOut, w.db, w.submissions[i].request);
    OthersStaySound(w, i);
    SubmissionsStaySeparate(w, i);
    CreatorsRemain(w, i);
  }

  // ---------------------------------------------------------------------------------------------
  // Runs
  // ---------------------------------------------------------------------------------------------

  lemma MoveIsSound(store: Store, checkedOut: set<Id>, w: World, m: Move)
    requires Sound(store, checkedOut, w)
    ensures Sound(store, checkedOut, Next(w, m))
  {
    match m {
      case Submit(r) => SubmittingIsSound(w, r);
      case Read(i) =>
        if InPhase(w, i, Begun) { LookingUpIsSound(store, checkedOut, w, i, Missed); }
      case Reserve(i) =>
        if InPhase(w, i, Missed) && RowsAreFree(w, i) {
          EnteringIsSound(w, i,
            if ApplyAll(w.db.store, Takes(w.submissions[i].request.lines)).None? then Finished(OutOfStock) else Reserved);
        }
      case Insert(i, codeIsCheckedFirst) =>
        if InPhase(w, i, Reserved) && KeysAreFree(w, i) { InsertingIsSound(w, i, codeIsCheckedFirst); }
      case Commit(i) =>
        if InPhase(w, i, Inserted) { CommittingIsSound(store, checkedOut, w, i); }
      case Abort(i) =>
        if i < |w.submissions| && !w.submissions[i].phase.Finished? { EnteringIsSound(w, i, Finished(Failed)); }
      case ReadAgain(i) =>
        if InPhase(w, i, Collided) { LookingUpIsSound(store, checkedOut, w, i, Finished(Failed)); }
    }
  }

  lemma {:induction false} EveryPlayIsSound(store: Store, checkedOut: set<Id>, moves: seq<Move>)
    ensures Sound(store, checkedOut, Play(Opening(store, checkedOut), moves))
  {
    if moves == [] {
      assert Takes(AllLines([])) == [];
    } else {
      EveryPlayIsSound(store, checkedOut, moves[..|moves| - 1]);
      MoveIsSound(store, checkedOut, Play(Opening(store, checkedOut), moves[..|moves| - 1]), moves[|moves| - 1]);
    }
  }

  // ---------------------------------------------------------------------------------------------
  // Main results
  // ---------------------------------------------------------------------------------------------

  lemma CreatorsDiffer(w: World, i: int, j: int, o: nat)
    requires SubmissionsSound(w) && i != j && CreatedBy(w, i, o)
    ensures !CreatedBy(w, j, o)
  {
    if 0 <= j < |w.submissions| {
      assert Separate(w.submissions[i], w.submissions[j]);
    }
  }

  /** One order per key at most, made by exactly one submission, with exactly one payment. */
  lemma OneOrderPerKey(store: Store, checkedOut: set<Id>, moves: seq<Move>, key: string)
    ensures var db := Play(Opening(store, checkedOut), moves).db;
      && |db.payments| == |db.orders|
      && (forall o, p :: Has(db, o, key) && Has(db, p, key) ==> o == p)
      && (forall o :: Has(db, o, key) ==> db.payments[o] == Payment(o, key, PaymentAmount(db.orders[o].request.quote)))
      && (forall p :: 0 <= p < |db.payments| && db.payments[p].key == key ==> Has(db, p, key))
    ensures var w := Play(Opening(store, checkedOut), moves);
      && (forall o :: 0 <= o < |w.db.orders| ==> HasCreator(w, o))
      && (forall i, j, o :: CreatedBy(w, i, o) && CreatedBy(w, j, o) ==> i == j)
  {
    EveryPlayIsSound(store, checkedOut, moves);
    var w := Play(Opening(store, checkedOut), moves);
    forall i, j, o | i != j && CreatedBy(w, i, o) ensures !CreatedBy(w, j, o) {
      CreatorsDiffer(w, i, j, o);
    }
  }

  /** The stock left is the starting stock less each committed order's lines, deducted once each. */
  lemma StockIsDeductedOnce(store: Store, checkedOut: set<Id>, moves: seq<Move>)
    ensures var db := Play(Opening(store, checkedOut), moves).db;
      && AllFit(store, Takes(AllLines(db.orders)))
      && db.store == Served(store, Takes(AllLines(db.orders)))
      && db.checkedOut == checkedOut + CartsOf(db.orders)
  {
    EveryPlayIsSound(store, checkedOut, moves);
    ReservationFollowsDemand(store, Takes(AllLines(Play(Opening(store, checkedOut), moves).db.orders)));
  }

  /** Only a winning commit changes stock, orders, payments or carts; every loser leaves all as it was. */
  lemma LosersChangeNothing(store: Store, checkedOut: set<Id>, moves: seq<Move>, m: Move)
    ensures var w := Play(Opening(store, checkedOut), moves);
      Next(w, m).db != w.db ==> m.Commit? && CreatedBy(Next(w, m), m.i, |w.db.orders|)
  {
    EveryPlayIsSound(store, checkedOut, moves);
    var w := Play(Opening(store, checkedOut), moves);
    match m {
      case Read(i) =>
        if InPhase(w, i, Begun) { LookingUpIsSound(store, checkedOut, w, i, Missed); }
      case ReadAgain(i) =>
        if InPhase(w, i, Collided) { LookingUpIsSound(store, checkedOut, w, i, Finished(Failed)); }
      case Commit(i) =>
        if InPhase(w, i, Inserted) { CommittingIsSound(store, checkedOut, w, i); }
      case _ =>
    }
  }

  /** A submission that lost on the key always finds the winner: same customer, same order. */
  lemma CollisionFindsTheWinner(store: Store, checkedOut: set<Id>, moves: seq<Move>, i: nat) returns (o: nat)
    requires InPhase(Play(Opening(store, checkedOut), moves), i, Collided)
    ensures var w := Play(Opening(store, checkedOut), moves);
      var r, after := w.submissions[i].request, Next(w, ReadAgain(i)).submissions[i].phase;
      Has(w.db, o, r.key)
        && after == Finished(if w.db.orders[o].request.customer == r.customer then Replayed(o) else KeyTaken)
  {
    EveryPlayIsSound(store, checkedOut, moves);
    var w := Play(Opening(store, checkedOut), moves);
    assert SubmissionSound(w.db, w.submissions[i]);
    FindOrderFinds(w.db.orders, w.submissions[i].request.key);
    var found := FindOrder(w.db.orders, w.submissions[i].request.key);
    o := found.value;
    assert Has(w.db, o, w.submissions[i].request.key);
    assert Next(w, ReadAgain(i)) == FinishReplay(w, i, o);
    assert Next(w, ReadAgain(i)).submissions[i].phase == Finished(Replay(w.db, w.submissions[i].request, o).1);
  }

  /** What a submission hears is true: the order it is told of has its key, customer and, if new, content. */
  lemma AnswersAreTrue(store: Store, checkedOut: set<Id>, moves: seq<Move>, i: nat)
    requires i < |Play(Opening(store, checkedOut), moves).submissions|
    ensures var w := Play(Opening(store, checkedOut), moves); SubmissionSound(w.db, w.submissions[i])
  {
    EveryPlayIsSound(store, checkedOut, moves);
  }

  /** Every committed order carries the amounts of its own quote, and its payment asks for its total. */
  lemma CommittedAmounts(store: Store, checkedOut: set<Id>, moves: seq<Move>, o: nat)
    requires o < |Play(Opening(store, checkedOut), moves).db.orders|
    requires FromContext(Play(Opening(store, checkedOut), moves).db.orders[o].request.quote)
    ensures var db := Play(Opening(store, checkedOut), moves).db;
      var row := db.orders[o];
      var q := row.request.quote;
      && row.total == q.subtotal - Discount(q) + row.fee
      && row.fee == (if !q.pickup && !(q.promotion.Some? && q.promotion.value.kind.FreeDelivery?) then 1500.0 else 0.0)
      && o < |db.payments| && db.payments[o] == Payment(o, row.request.key, row.total)
  {
    hide Play;
    EveryPlayIsSound(store, checkedOut, moves);
    FeeByDelivery(Play(Opening(store, checkedOut), moves).db.orders[o].request.quote);
  }
}
