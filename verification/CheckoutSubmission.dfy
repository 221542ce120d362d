/**
 * Submitting a checkout under an idempotency key. Submissions interleave between their reads,
 * their row locks and their commits; the unique columns and the locks are the database's.
 */
module CheckoutSubmission {
  import opened Base
  import opened Inventory
  import opened Reservation
  import opened CheckoutPricing

  /** A validated submission: its order lines and amounts are those of the cart it read. */
  datatype Request = Request(key: string, customer: Id, code: string, cart: Id, lines: seq<Line>, quote: Quote)

  datatype OrderRow = OrderRow(request: Request, fee: real, total: real)

  datatype Payment = Payment(order: nat, key: string, amount: real)

  /** Orders and payments are numbered in commit order; carts are open until checked out. */
  datatype Database = Database(store: Store, orders: seq<OrderRow>, payments: seq<Payment>, checkedOut: set<Id>)

  datatype Outcome = Created(order: nat) | Replayed(order: nat) | KeyTaken | OutOfStock | Failed

  datatype Phase =
    | Begun     // the transaction has started
    | Missed    // it has read that no order has the key
    | Reserved  // it has decremented its stock rows, and holds them
    | Inserted  // it has inserted its order row, which blocks equal keys and codes
    | Collided  // it was rolled back by the unique key
    | Finished(outcome: Outcome)

  datatype Submission = Submission(request: Request, phase: Phase)

  datatype World = World(db: Database, submissions: seq<Submission>)

  function FindOrder(orders: seq<OrderRow>, key: string): Option<nat> {
    if orders == [] then None
    else if orders[|orders| - 1].request.key == key then Some(|orders| - 1)
    else FindOrder(orders[..|orders| - 1], key)
  }

  predicate PaymentExists(payments: seq<Payment>, key: string) {
    exists i :: 0 <= i < |payments| && payments[i].key == key
  }

  predicate CodeExists(orders: seq<OrderRow>, code: string) {
    exists i :: 0 <= i < |orders| && orders[i].request.code == code
  }

  function NewOrder(r: Request): OrderRow {
    OrderRow(r, OrderFee(r.quote), OrderTotal(r.quote))
  }

  /** A replay answers with the order's payment, and creates one only if there is none. */
  function EnsurePayment(db: Database, o: nat, key: string): Database
    requires o < |db.orders|
  {
    if PaymentExists(db.payments, key) then db
    else db.(payments := db.payments + [Payment(o, key, db.orders[o].total)])
  }

  /** What a submission that finds an order under its key does, and hears. */
  function Replay(db: Database, r: Request, o: nat): (Database, Outcome)
    requires o < |db.orders|
  {
    if db.orders[o].request.customer == r.customer then (EnsurePayment(db, o, r.key), Replayed(o)) else (db, KeyTaken)
  }

  /** Everything the winning transaction publishes at once. */
  function Publish(db: Database, r: Request, store: Store): Database {
    Database(
      store,
      db.orders + [NewOrder(r)],
      db.payments + [Payment(|db.orders|, r.key, PaymentAmount(r.quote))],
      db.checkedOut + {r.cart})
  }

  lemma {:induction false} FindOrderFinds(orders: seq<OrderRow>, key: string)
    ensures var o := FindOrder(orders, key);
      && (o.Some? ==> o.value < |orders| && orders[o.value].request.key == key)
      && (o.None? ==> forall i :: 0 <= i < |orders| ==> orders[i].request.key != key)
  {
    if orders != [] {
      FindOrderFinds(orders[..|orders| - 1], key);
      assert forall i :: 0 <= i < |orders| - 1 ==> orders[i] == orders[..|orders| - 1][i];
    }
  }

  // ---------------------------------------------------------------------------------------------
  // Moves
  // ---------------------------------------------------------------------------------------------

  datatype Move =
    | Submit(request: Request)
    | Read(i: nat)
    | Reserve(i: nat)
    | Insert(i: nat, codeIsCheckedFirst: bool)
    | Commit(i: nat)
    | Abort(i: nat)
    | ReadAgain(i: nat)

  predicate InPhase(w: World, i: nat, phase: Phase) {
    i < |w.submissions| && w.submissions[i].phase == phase
  }

  function Enter(w: World, i: nat, phase: Phase): World
    requires i < |w.submissions|
  {
    w.(submissions := w.submissions[i := w.submissions[i].(phase := phase)])
  }

  predicate HoldsRows(s: Submission) {
    s.phase.Reserved? || s.phase.Inserted?
  }

  ghost predicate ShareRows(a: Request, b: Request) {
    exists r :: Touches(Takes(a.lines), r) && Touches(Takes(b.lines), r)
  }

  /** No other transaction has written the rows this one wants to write. */
  ghost predicate RowsAreFree(w: World, i: nat)
    requires i < |w.submissions|
  {
    forall j :: 0 <= j < |w.submissions| && j != i && HoldsRows(w.submissions[j]) ==>
      !ShareRows(w.submissions[i].request, w.submissions[j].request)
  }

  /** No other transaction has an uncommitted order with the same key or code. */
  predicate KeysAreFree(w: World, i: nat)
    requires i < |w.submissions|
  {
    forall j :: 0 <= j < |w.submissions| && j != i && w.submissions[j].phase.Inserted? ==>
      w.submissions[j].request.key != w.submissions[i].request.key
      && w.submissions[j].request.code != w.submissions[i].request.code
  }

  function FinishReplay(w: World, i: nat, o: nat): World
    requires i < |w.submissions| && o < |w.db.orders|
  {
    var (db, outcome) := Replay(w.db, w.submissions[i].request, o);
    Enter(w, i, Finished(outcome)).(db := db)
  }

  function LookUp(w: World, i: nat, otherwise: Phase): World
    requires i < |w.submissions|
  {
    FindOrderFinds(w.db.orders, w.submissions[i].request.key);
    var o := FindOrder(w.db.orders, w.submissions[i].request.key);
    if o.Some? then FinishReplay(w, i, o.value) else Enter(w, i, otherwise)
  }

  /** The phase that inserting the order row leads to; a rolled-back transaction lets go of its rows. */
  function AfterInsert(db: Database, r: Request, codeIsCheckedFirst: bool): Phase {
    var keyClash, codeClash := FindOrder(db.orders, r.key).Some?, CodeExists(db.orders, r.code);
    if codeClash && (codeIsCheckedFirst || !keyClash) then Finished(Failed)
    else if keyClash then Collided
    else if PaymentExists(db.payments, r.key) then Collided
    else Inserted
  }

  /**
   * What inserting the order row meets: a clash of codes fails the submission unless a clash of keys
   * is reported first, a clash of keys or of payment keys sends it to look again, and otherwise the
   * row is in.
   */
  lemma InsertingMeetsClashes(db: Database, r: Request, codeIsCheckedFirst: bool)
    ensures var phase := AfterInsert(db, r, codeIsCheckedFirst);
      var keyClash := exists o :: 0 <= o < |db.orders| && db.orders[o].request.key == r.key;
      var codeClash := exists o :: 0 <= o < |db.orders| && db.orders[o].request.code == r.code;
      var paymentClash := exists p :: 0 <= p < |db.payments| && db.payments[p].key == r.key;
      && (phase == Inserted <==> !keyClash && !codeClash && !paymentClash)
      && (codeClash && codeIsCheckedFirst ==> phase == Finished(Failed))
      && (codeClash && !keyClash ==> phase == Finished(Failed))
      && (keyClash && !(codeClash && codeIsCheckedFirst) ==> phase == Collided)
      && (paymentClash && !codeClash ==> phase == Collided)
  {
    FindOrderFinds(db.orders, r.key);
  }

  /** A move that is blocked or not due changes nothing. */
  ghost function Next(w: World, m: Move): World {
    match m
    case Submit(r) =>
      if r.cart in w.db.checkedOut then w else w.(submissions := w.submissions + [Submission(r, Begun)])
    case Read(i) =>
      if !InPhase(w, i, Begun) then w else LookUp(w, i, Missed)
    case Reserve(i) =>
      if !InPhase(w, i, Missed) || !RowsAreFree(w, i) then w
      else if ApplyAll(w.db.store, Takes(w.submissions[i].request.lines)).None? then Enter(w, i, Finished(OutOfStock))
      else Enter(w, i, Reserved)
    case Insert(i, codeIsCheckedFirst) =>
      if !InPhase(w, i, Reserved) || !KeysAreFree(w, i) then w
      else Enter(w, i, AfterInsert(w.db, w.submissions[i].request, codeIsCheckedFirst))
    case Commit(i) =>
      if !InPhase(w, i, Inserted) then w
      else
        var r := w.submissions[i].request;
        var store := ApplyAll(w.db.store, Takes(r.lines));
        if store.None? then Enter(w, i, Finished(OutOfStock))
        else Enter(w, i, Finished(Created(|w.db.orders|))).(db := Publish(w.db, r, store.value))
    case Abort(i) =>
      if i < |w.submissions| && !w.submissions[i].phase.Finished? then Enter(w, i, Finished(Failed)) else w
    case ReadAgain(i) =>
      if !InPhase(w, i, Collided) then w else LookUp(w, i, Finished(Failed))
  }

  ghost function Play(start: World, moves: seq<Move>): World {
    if moves == [] then start else Next(Play(start, moves[..|moves| - 1]), moves[|moves| - 1])
  }
}
