/** Time priority of the orders a sweep leaves behind: who keeps a place, and who goes to the back. */
module Places {
  import opened Types
  import opened OrderBooks
  import opened MatchingSpec
  import opened Obligations
  import opened SweepProperties
  import opened Greedy
  import opened SelfTrade

  // ---------------------------------------------------------------------------------------
  // One queue
  // ---------------------------------------------------------------------------------------

  /** How many orders of a queue are looked at before the taker is done. */
  function Reached(t: Order, p: Price, q: seq<Order>): (n: nat)
    ensures n <= |q|
    decreases |q|
  {
    if q == [] || Exhausted(t) then 0 else 1 + Reached(Pop(t, p, q[0]).taker, p, q[1..])
  }

  /** `front` is the queue behind its first `n` orders, headed by the last of these if another user's order
      was only partly taken. */
  ghost predicate InPlace(q: seq<Order>, n: nat, u: nat, front: seq<Order>)
    requires n <= |q|
  {
    || front == q[n..]
    || (0 < n && q[n - 1].user != u && front != []
        && front == [Reduce(q[n - 1], q[n - 1].remaining - front[0].remaining)] + q[n..])
  }

  lemma PopShape(t: Order, p: Price, m: Order)
    ensures var h := Pop(t, p, m);
            && h.taker.user == t.user && h.own == (if m.user == t.user then [m] else [])
            && (h.front == [] || (&& m.user != t.user && Exhausted(h.taker)
                                  && h.front == [Reduce(m, m.remaining - h.front[0].remaining)]))
  {}

  /** What is left of a queue keeps its order, and own orders that were passed over come behind. */
  lemma {:induction false} QueueAfter(t: Order, p: Price, q: seq<Order>)
    ensures var r := SweepQueue(t, p, q);
            var n := Reached(t, p, q);
            && r.own == Own(q[..n], t.user)
            && (if Exhausted(r.taker) then InPlace(q, n, t.user, r.front) else n == |q| && r.front == [])
    decreases |q|
  {
    if q == [] || Exhausted(t) {
      assert q[..0] == [] && q[0..] == q;
    } else {
      var h := Pop(t, p, q[0]);
      var n := Reached(t, p, q);
      var r' := SweepQueue(h.taker, p, q[1..]);
      QueueStep(t, p, q);
      PopShape(t, p, q[0]);
      OwnOfTheFirst(q, n, t.user);
      QueueAfter(h.taker, p, q[1..]);
      if h.front != [] {
        assert n == 1 && r' == QueueOutcome([], h.taker, q[1..], [], []);
        hide SweepQueue, Pop, Exhausted, InPlace, Own, Reached, Reduce;
        PartlyTaken(q, t.user, h.front);
      } else {
        hide SweepQueue, Pop, Exhausted, InPlace, Own, Reached, Reduce;
        assert [] + r'.front == r'.front;
        InPlaceStep(q, n, t.user, r'.front);
      }
    }
  }

  lemma PartlyTaken(q: seq<Order>, u: nat, front: seq<Order>)
    requires q != [] && q[0].user != u && front != [] && front == [Reduce(q[0], q[0].remaining - front[0].remaining)]
    ensures InPlace(q, 1, u, front + q[1..])
  {
    assert (front + q[1..])[0] == front[0];
  }

  lemma OwnOfTheFirst(q: seq<Order>, n: nat, u: nat)
    requires 0 < n <= |q|
    ensures Own(q[..n], u) == (if q[0].user == u then [q[0]] else []) + Own(q[1..][..n - 1], u)
  {
    assert q[..n][1..] == q[1..][..n - 1] && q[..n][0] == q[0];
  }

  lemma InPlaceStep(q: seq<Order>, n: nat, u: nat, front: seq<Order>)
    requires 0 < n <= |q|
    ensures InPlace(q[1..], n - 1, u, front) ==> InPlace(q, n, u, front)
  {
    assert q[1..][n - 1..] == q[n..];
    if n > 1 {
      assert q[1..][n - 2] == q[n - 1];
    }
  }

  /** An order is reached exactly when the orders before it leave the taker hungry. */
  lemma {:induction false} ReachedIff(t: Order, p: Price, q: seq<Order>, i: nat)
    requires i < |q|
    ensures i < Reached(t, p, q) <==> !Exhausted(SweepQueue(t, p, q[..i]).taker)
    decreases |q|
  {
    if i > 0 && !Exhausted(t) {
      assert q[..i][0] == q[0] && q[..i][1..] == q[1..][..i - 1];
      ReachedIff(Pop(t, p, q[0]).taker, p, q[1..], i - 1);
    }
  }

  // ---------------------------------------------------------------------------------------
  // The whole side
  // ---------------------------------------------------------------------------------------

  lemma {:induction false} QueueOfLevel(levels: seq<Level>, side: Side, pair: Pair, k: nat)
    requires GoodLevels(levels, side, pair) && k < |levels|
    ensures QueueAt(levels, levels[k].price) == levels[k].queue
  {
    if k > 0 {
      PriceIn(levels[1..], k - 1);
      QueueOfLevel(levels[1..], side, pair, k - 1);
    }
  }

  /** The taker when it comes to level `k`. */
  function Arriving(t: Order, levels: seq<Level>, k: nat): Order
    requires k <= |levels|
  {
    Sweep(t, levels[..k]).taker
  }

  /** The queue that the sweep of `q` by `t` leaves at its price. */
  function QueueLeft(t: Order, p: Price, q: seq<Order>): seq<Order> {
    var r := SweepQueue(t, p, q);
    if !Crosses(t, p) then q else if Exhausted(r.taker) then r.front + r.own else []
  }

  lemma QueueAtWithLevel(p: Price, q: seq<Order>, rest: seq<Level>, r: Price)
    ensures QueueAt(WithLevel(p, q, rest), r) == if q != [] && r == p then q else QueueAt(rest, r)
  {
    if q != [] {
      assert WithLevel(p, q, rest)[1..] == rest;
    }
  }

  lemma SweptElsewhere(t: Order, levels: seq<Level>, side: Side, pair: Pair, p: Price)
    requires TakerOk(t, side, pair) && GoodLevels(levels, side, pair) && p !in Prices(levels)
    ensures QueueAt(Sweep(t, levels).levels, p) == [] && QueueAt(levels, p) == []
  {
    SweepKeeps(t, levels, side, pair);
    NoQueueElsewhere(levels, p);
    NoQueueElsewhere(Sweep(t, levels).levels, p);
  }

  /** After the sweep every level of the side holds what the taker arriving at it leaves. */
  lemma {:induction false} QueuesAfter(t: Order, levels: seq<Level>, side: Side, pair: Pair, k: nat)
    requires TakerOk(t, side, pair) && GoodLevels(levels, side, pair) && k < |levels|
    ensures QueueAt(Sweep(t, levels).levels, levels[k].price) ==
            QueueLeft(Arriving(t, levels, k), levels[k].price, levels[k].queue)
    decreases |levels|
  {
    var p, q, rest := levels[0].price, levels[0].queue, levels[1..];
    if Exhausted(t) || !Crosses(t, p) {
      QueuesUnswept(t, levels, side, pair, k);
    } else {
      var r := SweepQueue(t, p, q);
      QueueKeeps(t, p, q, side, pair);
      SweepUnfolds(t, levels);
      if k == 0 {
        assert levels[..0] == [];
        SweepStops(t, []);
        QueueAtWithLevel(p, r.front + r.own, rest, p);
        SweptElsewhere(r.taker, rest, side, pair, p);
        hide Sweep, SweepQueue;
      } else {
        assert levels[..k][1..] == rest[..k - 1];
        SweepUnfolds(t, levels[..k]);
        PriceIn(rest, k - 1);
        hide Sweep, SweepQueue;
        if Exhausted(r.taker) {
          QueueAtWithLevel(p, r.front + r.own, rest, levels[k].price);
          QueueOfLevel(rest, side, pair, k - 1);
          DoneLeaves(r.taker, levels[k].price, levels[k].queue);
        } else {
          QueuesAfter(r.taker, rest, side, pair, k - 1);
        }
      }
    }
  }

  lemma DoneLeaves(t: Order, p: Price, q: seq<Order>)
    requires Exhausted(t)
    ensures QueueLeft(t, p, q) == q
  {
    assert q + [] == q;
  }

  lemma QueuesUnswept(t: Order, levels: seq<Level>, side: Side, pair: Pair, k: nat)
    requires TakerOk(t, side, pair) && GoodLevels(levels, side, pair) && k < |levels|
    requires Exhausted(t) || !Crosses(t, levels[0].price)
    ensures QueueAt(Sweep(t, levels).levels, levels[k].price) ==
            QueueLeft(Arriving(t, levels, k), levels[k].price, levels[k].queue)
  {
    PriceIn(levels, k);
    SweepStops(t, levels);
    SweepStops(t, levels[..k]);
    QueueOfLevel(levels, side, pair, k);
    assert levels[k].price == levels[0].price || Ahead(side, levels[0].price, levels[k].price);
    if Exhausted(t) {
      DoneLeaves(t, levels[k].price, levels[k].queue);
    }
  }

  // ---------------------------------------------------------------------------------------
  // Who is reached
  // ---------------------------------------------------------------------------------------

  /** A walk over acceptable makers can be interrupted anywhere. */
  lemma {:induction false} WalkInParts(t: Order, a: seq<Order>, b: seq<Order>)
    requires AllCross(t, a)
    ensures Walk(t, a + b).taker == Walk(Walk(t, a).taker, b).taker
    decreases |a|
  {
    if a == [] {
      assert a + b == b;
    } else if Exhausted(t) {
      WalkStops(t, a);
      WalkStops(t, b);
      WalkStops(t, a + b);
    } else {
      var m := a[0];
      assert m in a && (a + b)[0] == m && (a + b)[1..] == a[1..] + b;
      var amt := Fill(t, m.price.value, m);
      var t' := if 0 < amt then Take(t, m.price.value, amt) else t;
      WalkInParts(t', a[1..], b);
    }
  }

  lemma {:induction false} QueuedPart(t: Order, a: seq<Order>, b: seq<Order>, pair: Pair)
    requires Queued(t, a + b, pair)
    ensures Queued(t, a, pair)
  {
    if a != [] {
      assert (a + b)[1..] == a[1..] + b;
      QueuedPart(t, a[1..], b, pair);
    }
  }

  lemma {:induction false} OthersDistribute(a: seq<Level>, b: seq<Level>, u: nat)
    ensures Others(a + b, u) == Others(a, u) + Others(b, u)
  {
    if a == [] {
      assert a + b == b;
    } else {
      assert (a + b)[1..] == a[1..] + b;
      OthersDistribute(a[1..], b, u);
    }
  }

  /** The other users' orders ahead of position `i` of level `k`. */
  function OthersAhead(levels: seq<Level>, k: nat, i: nat, u: nat): seq<Order>
    requires k < |levels| && i <= |levels[k].queue|
  {
    Others(levels[..k], u) + Without(levels[k].queue[..i], u)
  }

  lemma OthersUpTo(levels: seq<Level>, k: nat, i: nat, u: nat)
    requires k < |levels| && i <= |levels[k].queue|
    ensures Others(levels[..k + 1], u) == OthersAhead(levels, k, i, u) + Without(levels[k].queue[i..], u)
  {
    var q := levels[k].queue;
    assert levels[..k + 1] == levels[..k] + [levels[k]];
    OthersDistribute(levels[..k], [levels[k]], u);
    assert [levels[k]][1..] == [];
    assert Others([levels[k]], u) == Without(q, u);
    assert q == q[..i] + q[i..];
    WithoutDistributes(q[..i], q[i..], u);
  }

  /** The taker that has passed everything ahead of position `i` of level `k`. */
  lemma PassedAhead(t: Order, levels: seq<Level>, side: Side, pair: Pair, k: nat, i: nat)
    requires TakerOk(t, side, pair) && GoodLevels(levels, side, pair)
    requires k < |levels| && i <= |levels[k].queue| && Crosses(t, levels[k].price)
    ensures SweepQueue(Arriving(t, levels, k), levels[k].price, levels[k].queue[..i]).taker ==
            Walk(t, OthersAhead(levels, k, i, t.user)).taker
  {
    var p, part := levels[k].price, levels[k].queue[..i];
    PartIsGood(t, levels, side, pair, k);
    var t' := Arriving(t, levels, k);
    SweepIsGreedy(t, levels[..k], side, pair);
    SweepKeeps(t, levels[..k], side, pair);
    QueueOfGoodLevel(levels, side, pair, k);
    WalkAQueue(t', p, part, [], side, pair);
    hide Walk, SweepQueue, Sweep, Others, Without;
    var r := SweepQueue(t', p, part);
    WalkStops(r.taker, []);
    assert Without(part, t.user) + [] == Without(part, t.user);
    WalkInParts(t, Others(levels[..k], t.user), Without(part, t.user));
  }

  /** The levels ahead of an acceptable one. */
  lemma PartIsGood(t: Order, levels: seq<Level>, side: Side, pair: Pair, k: nat)
    requires t.side == side.Opposite() && GoodLevels(levels, side, pair)
    requires k < |levels| && Crosses(t, levels[k].price)
    ensures GoodLevels(levels[..k], side, pair) && AllCross(t, Others(levels[..k], t.user))
  {
    if k > 0 {
      AheadOfNext(levels, side, pair, k - 1);
      UpToAcceptable(t, levels, side, pair, k - 1);
    } else {
      assert levels[..0] == [];
    }
  }

  lemma {:induction false} AheadOfNext(levels: seq<Level>, side: Side, pair: Pair, k: nat)
    requires GoodLevels(levels, side, pair) && k + 1 < |levels|
    ensures Ahead(side, levels[k].price, levels[k + 1].price)
  {
    if k > 0 {
      AheadOfNext(levels[1..], side, pair, k - 1);
    } else {
      PriceIn(levels[1..], 0);
    }
  }

  lemma {:induction false} QueueOfGoodLevel(levels: seq<Level>, side: Side, pair: Pair, k: nat)
    requires GoodLevels(levels, side, pair) && k < |levels|
    ensures GoodQueue(levels[k].queue, side, pair, levels[k].price)
  {
    if k > 0 {
      QueueOfGoodLevel(levels[1..], side, pair, k - 1);
    }
  }

  /** The orders ahead are acceptable, well formed and in price order. */
  lemma AheadIsInOrder(t: Order, levels: seq<Level>, side: Side, pair: Pair, k: nat, i: nat)
    requires TakerOk(t, side, pair) && GoodLevels(levels, side, pair)
    requires k < |levels| && i <= |levels[k].queue| && Crosses(t, levels[k].price)
    ensures var ahead := OthersAhead(levels, k, i, t.user);
            && Resting(ahead, side, pair) && AllCross(t, ahead)
            && (t.remainingQuote.Some? ==> Queued(t, ahead, pair))
  {
    var part := levels[..k + 1];
    var ahead, behind := OthersAhead(levels, k, i, t.user), Without(levels[k].queue[i..], t.user);
    UpToAcceptable(t, levels, side, pair, k);
    hide Others, Without, OthersAhead, Queued, GoodLevels, RestsAt, Crosses;
    OthersRest(part, side, pair, t.user);
    OthersUpTo(levels, k, i, t.user);
    assert forall m :: m in ahead ==> m in ahead + behind;
    if t.remainingQuote.Some? {
      OthersAreQueued(t, part, pair);
      QueuedPart(t, ahead, behind, pair);
    }
  }

  /** Position `i` of an acceptable level `k` is reached exactly when everybody ahead of it leaves the taker
      hungry. */
  lemma PlaceReachedIff(t: Order, levels: seq<Level>, side: Side, pair: Pair, k: nat, i: nat)
    requires TakerOk(t, side, pair) && GoodLevels(levels, side, pair)
    requires k < |levels| && i < |levels[k].queue| && Crosses(t, levels[k].price)
    ensures i < Reached(Arriving(t, levels, k), levels[k].price, levels[k].queue) <==>
            StaysHungry(t, OthersAhead(levels, k, i, t.user))
  {
    hide SweepQueue, Walk, Queued, GoodLevels, Reached, StaysHungry, OthersAhead, Arriving, Resting, AllCross;
    ReachedIff(Arriving(t, levels, k), levels[k].price, levels[k].queue, i);
    PassedAhead(t, levels, side, pair, k, i);
    AheadIsInOrder(t, levels, side, pair, k, i);
    WalkHungryIff(t, OthersAhead(levels, k, i, t.user), side, pair);
  }

  /** The queue at an acceptable price that the taker does not use up: the orders it reached are gone, but
      for a last one only partly taken; those it did not reach keep their order; and its own orders among
      the reached ones come last, behind orders they were ahead of. */
  lemma PlacesAfter(t: Order, levels: seq<Level>, side: Side, pair: Pair, k: nat)
    requires TakerOk(t, side, pair) && GoodLevels(levels, side, pair)
    requires k < |levels| && Crosses(t, levels[k].price)
    requires !StaysHungry(t, Others(levels[..k + 1], t.user))
    ensures var q := levels[k].queue;
            exists n: nat, front ::
              && n <= |q| && InPlace(q, n, t.user, front)
              && QueueAt(Sweep(t, levels).levels, levels[k].price) == front + Own(q[..n], t.user)
              && forall i :: 0 <= i < |q| ==> (i < n <==> StaysHungry(t, OthersAhead(levels, k, i, t.user)))
  {
    var p, q := levels[k].price, levels[k].queue;
    var t' := Arriving(t, levels, k);
    var n, r := Reached(t', p, q), SweepQueue(t', p, q);
    PartIsGood(t, levels, side, pair, k);
    SweepKeeps(t, levels[..k], side, pair);
    QueuesAfter(t, levels, side, pair, k);
    QueueAfter(t', p, q);
    hide SweepQueue, Sweep, Others, Reached, StaysHungry, GoodLevels, InPlace, Own;
    assert Exhausted(r.taker) by { UsedUpIff(t, levels, side, pair, k); }
    forall i | 0 <= i < |q| ensures i < n <==> StaysHungry(t, OthersAhead(levels, k, i, t.user)) {
      PlaceReachedIff(t, levels, side, pair, k, i);
    }
    assert InPlace(q, n, t.user, r.front);
  }

  lemma UsedUpIff(t: Order, levels: seq<Level>, side: Side, pair: Pair, k: nat)
    requires TakerOk(t, side, pair) && GoodLevels(levels, side, pair)
    requires k < |levels| && Crosses(t, levels[k].price)
    ensures !Exhausted(SweepQueue(Arriving(t, levels, k), levels[k].price, levels[k].queue).taker) <==>
            StaysHungry(t, Others(levels[..k + 1], t.user))
  {
    hide SweepQueue, Walk, Queued, GoodLevels, StaysHungry, Arriving, Resting, AllCross, OthersAhead, Others;
    var q := levels[k].queue;
    assert q[..|q|] == q && Without(q[|q|..], t.user) == [];
    PassedAhead(t, levels, side, pair, k, |q|);
    OthersUpTo(levels, k, |q|, t.user);
    assert Others(levels[..k + 1], t.user) == OthersAhead(levels, k, |q|, t.user);
    AheadIsInOrder(t, levels, side, pair, k, |q|);
    WalkHungryIff(t, Others(levels[..k + 1], t.user), side, pair);
  }

  /** An ask of the bidder's own, first in its queue, ends up behind another user's. */
  lemma OwnAskGoesToTheBack()
    ensures var own, other := Ask(1, 7, 105, 1), Ask(2, 8, 105, 2);
            var bid := Order(3, 7, Buy, Limit, Pair("SOL", "USDT"), Some(105), 1, None, 0, 1, None);
            Sweep(bid, [Level(105, [own, other])]).levels == [Level(105, [Reduce(other, 1), own])]
  {
    var own, other := Ask(1, 7, 105, 1), Ask(2, 8, 105, 2);
    var bid := Order(3, 7, Buy, Limit, Pair("SOL", "USDT"), Some(105), 1, None, 0, 1, None);
    var q := [own, other];
    assert q[1..] == [other];
    UntradedFront(bid, 105, q);
    SingleMaker(bid, 105, other);
    var h := Pop(bid, 105, other);
    assert h.front == [Reduce(other, 1)] && Exhausted(h.taker);
    var r := SweepQueue(bid, 105, q);
    assert r.front + r.own == [Reduce(other, 1), own];
    assert [Level(105, q)][1..] == [];
    SweepUnfolds(bid, [Level(105, q)]);
  }
}
