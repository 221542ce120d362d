/**
 * What the idempotency key does not cover: repeats that come after the commit, and one cart
 * submitted under several keys. A submission needs an open cart when it arrives, and not later.
 */
module CartReuse {
  import opened Base
  import opened Lots
  import opened Inventory
  import opened Reservation
  import opened CheckoutPricing
  import opened CheckoutSubmission
  import opened ExactlyOnce

  // ---------------------------------------------------------------------------------------------
  // Repeats
  // ---------------------------------------------------------------------------------------------

  /** The request is let in, reads, and is answered with the order. */
  ghost predicate IsReplayed(w: World, r: Request, o: nat) {
    var i, arrived := |w.submissions|, Next(w, Submit(r));
    i < |arrived.submissions| && Next(arrived, Read(i)).submissions[i].phase == Finished(Replayed(o))
  }

  /**
   * A request that arrives under the key of a committed order of its customer is answered with that
   * order exactly when its cart is still open; otherwise it is refused before the key is looked at.
   */
  lemma RepeatIsReplayedExactly(store: Store, checkedOut: set<Id>, moves: seq<Move>, r: Request, o: nat)
    requires var orders := Play(Opening(store, checkedOut), moves).db.orders;
      o < |orders| && orders[o].request.key == r.key && orders[o].request.customer == r.customer
    ensures var w := Play(Opening(store, checkedOut), moves);
      && (r.cart in w.db.checkedOut ==> Next(w, Submit(r)) == w)
      && (IsReplayed(w, r, o) <==> r.cart !in w.db.checkedOut)
  {
    hide Play;
    EveryPlayIsSound(store, checkedOut, moves);
    var w := Play(Opening(store, checkedOut), moves);
    var i, arrived := |w.submissions|, Next(w, Submit(r));
    FindOrderFinds(w.db.orders, r.key);
    if r.cart !in w.db.checkedOut {
      var found := FindOrder(w.db.orders, r.key).value;
      assert found == o;
      assert arrived.submissions[i] == Submission(r, Begun);
      assert Next(arrived, Read(i)) == FinishReplay(arrived, i, o);
    }
  }

  /** So the very same request, sent again after its commit, is refused rather than replayed. */
  lemma RepeatAfterCommitIsRefused(store: Store, checkedOut: set<Id>, moves: seq<Move>, r: Request, o: nat)
    requires o < |Play(Opening(store, checkedOut), moves).db.orders|
    requires Play(Opening(store, checkedOut), moves).db.orders[o].request.cart == r.cart
    ensures var w := Play(Opening(store, checkedOut), moves); Next(w, Submit(r)) == w
  {
    EveryPlayIsSound(store, checkedOut, moves);
    var orders := Play(Opening(store, checkedOut), moves).db.orders;
    assert orders[o].request.cart in CartsOf(orders);
  }

  // ---------------------------------------------------------------------------------------------
  // Two orders of one cart
  // ---------------------------------------------------------------------------------------------

  predicate OrderedTwice(orders: seq<OrderRow>, cart: Id) {
    exists a, b :: 0 <= a < b < |orders| && orders[a].request.cart == cart == orders[b].request.cart
  }

  /** A commit makes another order of its cart exactly when that cart has been ordered before. */
  lemma CommitRepeatsACartExactly(store: Store, checkedOut: set<Id>, w: World, i: nat)
    requires Sound(store, checkedOut, w) && InPhase(w, i, Inserted)
    ensures var cart := w.submissions[i].request.cart;
      OrderedTwice(Next(w, Commit(i)).db.orders, cart) <==> cart in CartsOf(w.db.orders)
  {
    hide Next, DatabaseSound, SubmissionsSound;
    CommittingIsSound(store, checkedOut, w, i);
    var orders, after, cart := w.db.orders, Next(w, Commit(i)).db.orders, w.submissions[i].request.cart;
    assert after[|orders|].request.cart == cart;
    if cart in CartsOf(orders) {
      var a :| 0 <= a < |orders| && orders[a].request.cart == cart;
      assert after[a].request.cart == cart;
    }
    if OrderedTwice(after, cart) {
      var a, b :| 0 <= a < b < |after| && after[a].request.cart == cart == after[b].request.cart;
      assert orders[a].request.cart == cart;
    }
  }

  lemma OneMoveLater(w: World, m: Move)
    ensures w.db.orders <= Next(w, m).db.orders
    ensures |w.submissions| <= |Next(w, m).submissions|
    ensures forall j :: 0 <= j < |w.submissions| ==> Next(w, m).submissions[j].request == w.submissions[j].request
    ensures |Next(w, m).submissions| > |w.submissions| ==> (
      m.Submit? && m.request.cart !in w.db.checkedOut && Next(w, m).submissions == w.submissions + [Submission(m.request, Begun)])
  {
  }

  lemma {:induction false} OrdersStay(start: World, moves: seq<Move>, m: nat)
    requires m <= |moves|
    ensures Play(start, moves[..m]).db.orders <= Play(start, moves).db.orders
  {
    hide Next;
    if m == |moves| {
      assert moves[..m] == moves;
    } else {
      var before := moves[..|moves| - 1];
      OrdersStay(start, before, m);
      assert before[..m] == moves[..m];
      OneMoveLater(Play(start, before), moves[|moves| - 1]);
    }
  }

  /** The j-th submission arrived with the m-th move, and found its cart open. */
  ghost predicate ArrivedAt(start: World, moves: seq<Move>, j: nat, m: nat)
    requires m < |moves| && j < |Play(start, moves).submissions|
  {
    var w, r := Play(start, moves[..m]), Play(start, moves).submissions[j].request;
    moves[m] == Submit(r) && |w.submissions| == j && r.cart !in w.db.checkedOut
  }

  lemma {:induction false} EverySubmissionArrived(start: World, moves: seq<Move>, j: nat) returns (m: nat)
    requires start.submissions == [] && j < |Play(start, moves).submissions|
    ensures m < |moves| && ArrivedAt(start, moves, j, m)
  {
    hide Next;
    var n := |moves| - 1;
    var before := moves[..n];
    OneMoveLater(Play(start, before), moves[n]);
    if j < |Play(start, before).submissions| {
      m := EverySubmissionArrived(start, before, j);
      assert before[..m] == moves[..m];
    } else {
      m := n;
    }
  }

  /**
   * A cart is ordered twice only under different keys, and only by submissions that all arrived
   * before the first of its orders was committed.
   */
  lemma TwoOrdersOfACartOverlap(
      store: Store, checkedOut: set<Id>, moves: seq<Move>, a: nat, b: nat, o: nat, j: nat) returns (m: nat)
    requires var w := Play(Opening(store, checkedOut), moves);
      && a < b < |w.db.orders| && w.db.orders[a].request.cart == w.db.orders[b].request.cart
      && (o == a || o == b) && CreatedBy(w, j, o)
    ensures var w := Play(Opening(store, checkedOut), moves);
      && w.db.orders[a].request.key != w.db.orders[b].request.key
      && m < |moves| && moves[m] == Submit(w.db.orders[o].request)
      && |Play(Opening(store, checkedOut), moves[..m]).submissions| == j
      && |Play(Opening(store, checkedOut), moves[..m]).db.orders| <= a
  {
    hide Play, Next;
    var start := Opening(store, checkedOut);
    var w := Play(start, moves);
    EveryPlayIsSound(store, checkedOut, moves);
    assert SubmissionSound(w.db, w.submissions[j]);
    m := EverySubmissionArrived(start, moves, j);
    EveryPlayIsSound(store, checkedOut, moves[..m]);
    OrdersStay(start, moves, m);
    var earlier := Play(start, moves[..m]).db.orders;
    assert forall x :: 0 <= x < |earlier| ==> earlier[x].request.cart in CartsOf(earlier);
  }

  // ---------------------------------------------------------------------------------------------
  // A play that orders a cart twice
  // ---------------------------------------------------------------------------------------------

  function OneAfterTheOther(first: Request, second: Request): seq<Move> {
    [] + [Submit(first)] + [Submit(second)]
      + [Read(0)] + [Reserve(0)] + [Insert(0, false)] + [Commit(0)]
      + [Read(1)] + [Reserve(1)] + [Insert(1, false)] + [Commit(1)]
  }

  lemma PlayOfAppend(start: World, moves: seq<Move>, m: Move)
    ensures Play(start, moves + [m]) == Next(Play(start, moves), m)
  {
    assert (moves + [m])[..|moves|] == moves;
  }

  lemma FirstCommits(w: World, first: Request, second: Request)
    requires w.submissions == [Submission(first, Begun), Submission(second, Begun)]
    requires w.db.orders == [] && w.db.payments == [] && ApplyAll(w.db.store, Takes(first.lines)).Some?
    ensures Next(Next(Next(Next(w, Read(0)), Reserve(0)), Insert(0, false)), Commit(0)) == World(
        Publish(w.db, first, ApplyAll(w.db.store, Takes(first.lines)).value),
        [Submission(first, Finished(Created(0))), Submission(second, Begun)])
  {
    hide ApplyAll, Takes;
    var w1 := World(w.db, [Submission(first, Missed), Submission(second, Begun)]);
    assert Next(w, Read(0)) == w1;
    var w2 := World(w.db, [Submission(first, Reserved), Submission(second, Begun)]);
    assert Next(w1, Reserve(0)) == w2;
    var w3 := World(w.db, [Submission(first, Inserted), Submission(second, Begun)]);
    assert Next(w2, Insert(0, false)) == w3;
  }

  lemma SecondCommits(w: World, first: Request, second: Request)
    requires w.submissions == [Submission(first, Finished(Created(0))), Submission(second, Begun)]
    requires w.db.orders == [NewOrder(first)] && w.db.payments == [Payment(0, first.key, PaymentAmount(first.quote))]
    requires first.key != second.key && first.code != second.code && ApplyAll(w.db.store, Takes(second.lines)).Some?
    ensures Next(Next(Next(Next(w, Read(1)), Reserve(1)), Insert(1, false)), Commit(1)).db
      == Publish(w.db, second, ApplyAll(w.db.store, Takes(second.lines)).value)
  {
    hide ApplyAll, Takes;
    FindOrderFinds(w.db.orders, second.key);
    var done := Submission(first, Finished(Created(0)));
    var w1 := World(w.db, [done, Submission(second, Missed)]);
    assert Next(w, Read(1)) == w1;
    var w2 := World(w.db, [done, Submission(second, Reserved)]);
    assert Next(w1, Reserve(1)) == w2;
    var w3 := World(w.db, [done, Submission(second, Inserted)]);
    assert Next(w2, Insert(1, false)) == w3;
  }

  /** Two requests for one cart that both arrive first, under different keys, both become orders. */
  lemma OverlappingKeysOrderACartTwice(store: Store, first: Request, second: Request)
    requires first.cart == second.cart && first.key != second.key && first.code != second.code
    requires ApplyAll(store, Takes(first.lines)).Some?
    requires ApplyAll(ApplyAll(store, Takes(first.lines)).value, Takes(second.lines)).Some?
    ensures var db := Play(Opening(store, {}), OneAfterTheOther(first, second)).db;
      && db.orders == [NewOrder(first)] + [NewOrder(second)] && OrderedTwice(db.orders, first.cart)
      && db.store == ApplyAll(ApplyAll(store, Takes(first.lines)).value, Takes(second.lines)).value
  {
    hide ApplyAll, Takes, Next;
    var start := Opening(store, {});
    var s := [] + [Submit(first)] + [Submit(second)];
    BothArrive(store, first, second);
    FirstCommits(Play(start, s), first, second);
    PlayOfAppend(start, s, Read(0));
    PlayOfAppend(start, s + [Read(0)], Reserve(0));
    PlayOfAppend(start, s + [Read(0)] + [Reserve(0)], Insert(0, false));
    PlayOfAppend(start, s + [Read(0)] + [Reserve(0)] + [Insert(0, false)], Commit(0));
    var t := s + [Read(0)] + [Reserve(0)] + [Insert(0, false)] + [Commit(0)];
    SecondCommits(Play(start, t), first, second);
    PlayOfAppend(start, t, Read(1));
    PlayOfAppend(start, t + [Read(1)], Reserve(1));
    PlayOfAppend(start, t + [Read(1)] + [Reserve(1)], Insert(1, false));
    PlayOfAppend(start, t + [Read(1)] + [Reserve(1)] + [Insert(1, false)], Commit(1));
    var orders := [NewOrder(first)] + [NewOrder(second)];
    assert orders[0].request.cart == first.cart == orders[1].request.cart;
  }

  lemma BothArrive(store: Store, first: Request, second: Request)
    ensures Play(Opening(store, {}), [] + [Submit(first)] + [Submit(second)])
      == World(Database(store, [], [], {}), [Submission(first, Begun), Submission(second, Begun)])
  {
    PlayOfAppend(Opening(store, {}), [], Submit(first));
    PlayOfAppend(Opening(store, {}), [] + [Submit(first)], Submit(second));
  }

  // ---------------------------------------------------------------------------------------------
  // With a tracked line
  // ---------------------------------------------------------------------------------------------

  /** One portion of soup, tracked. */
  function Soup(key: string, code: string, cart: Id): Request {
    Request(key, "c", code, cart, [Line(Some("l"), "soup", 1, true, None, false, [])], Quote(0.0, None, false, true))
  }

  function Pot(portions: int): Store {
    Store(map[MenuItem("soup") := StockRow(true, Some(portions), None)], map[])
  }

  lemma OnePortionLess(portions: int)
    requires portions >= 1
    ensures ApplyAll(Pot(portions), Takes(Soup("", "", "").lines)) == Some(Pot(portions - 1))
  {
    var take := Take(MenuItem("soup"), 1);
    var lines := Soup("", "", "").lines;
    assert lines[1..] == [] && LineTakes(lines[0]) == [take];
    assert Takes(lines) == [take];
    ApplyAllOfOne(Pot(portions), take);
    assert LotIds(Pot(portions).lots, "soup") == {};
    assert Increment(Pot(portions).stock, MenuItem("soup"), -1) == Pot(portions - 1).stock;
  }

  /** Two overlapping submissions of one cart take two portions of a tracked item. */
  lemma TrackedCartIsOrderedTwice()
    ensures var db := Play(Opening(Pot(2), {}), OneAfterTheOther(Soup("k1", "o1", "cart"), Soup("k2", "o2", "cart"))).db;
      OrderedTwice(db.orders, "cart") && db.store == Pot(0)
  {
    OnePortionLess(2);
    OnePortionLess(1);
    OverlappingKeysOrderACartTwice(Pot(2), Soup("k1", "o1", "cart"), Soup("k2", "o2", "cart"));
  }

  /** After them, a repeat under the first key is refused for the ordered cart and replayed for an open one. */
  lemma RepeatsOfBothKinds()
    ensures var w := Play(Opening(Pot(2), {}), OneAfterTheOther(Soup("k1", "o1", "cart"), Soup("k2", "o2", "cart")));
      && Next(w, Submit(Soup("k1", "o1", "cart"))) == w
      && IsReplayed(w, Soup("k1", "o3", "other"), 0)
  {
    hide Play, Next, IsReplayed;
    var moves := OneAfterTheOther(Soup("k1", "o1", "cart"), Soup("k2", "o2", "cart"));
    OnePortionLess(2);
    OnePortionLess(1);
    OverlappingKeysOrderACartTwice(Pot(2), Soup("k1", "o1", "cart"), Soup("k2", "o2", "cart"));
    EveryPlayIsSound(Pot(2), {}, moves);
    RepeatAfterCommitIsRefused(Pot(2), {}, moves, Soup("k1", "o1", "cart"), 0);
    var w := Play(Opening(Pot(2), {}), moves);
    forall c | c in CartsOf(w.db.orders) ensures c == "cart" {
    }
    assert w.db.orders[0].request == Soup("k1", "o1", "cart");
    assert "other" !in w.db.checkedOut;
    RepeatIsReplayedExactly(Pot(2), {}, moves, Soup("k1", "o3", "other"), 0);
  }
}
