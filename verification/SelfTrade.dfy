/** What becomes of a taker's own resting orders, and two small books where orders disappear. */
module SelfTrade {
  import opened Types
  import opened OrderBooks
  import opened MatchingSpec
  import opened Obligations
  import opened SweepProperties
  import opened Greedy

  /** The orders of `u`, order kept. */
  function Own(q: seq<Order>, u: nat): seq<Order> {
    if q == [] then [] else (if q[0].user == u then [q[0]] else []) + Own(q[1..], u)
  }

  /** Would a budget still be hungry after `makers`?  It buys whole makers as long as it can; the first one
      it cannot buy whole ends it unless a remainder is left over, which then buys nothing more. */
  predicate BudgetStaysHungry(rq: int, makers: seq<Order>)
    decreases |makers|
  {
    if rq <= 0 then false
    else if makers == [] then true
    else
      var p := makers[0].price.GetOr(1);
      if rq >= p * makers[0].remaining then BudgetStaysHungry(rq - p * makers[0].remaining, makers[1..])
      else rq % p != 0
  }

  /** Does the taker want more than `makers` offer? */
  predicate StaysHungry(t: Order, makers: seq<Order>) {
    match t.remainingQuote
    case Some(rq) => BudgetStaysHungry(rq, makers)
    case None => QueueLots(makers) < t.remaining
  }

  lemma {:induction false} BudgetAppetite(t: Order, makers: seq<Order>, pair: Pair)
    requires TakerOk(t, Sell, pair) && t.remainingQuote.Some? && Queued(t, makers, pair)
    ensures !Exhausted(Walk(t, makers).taker) <==> BudgetStaysHungry(t.remainingQuote.value, makers)
    decreases |makers|
  {
    if makers == [] || Exhausted(t) {
      WalkStops(t, makers);
    } else {
      hide Walk;
      var m := makers[0];
      var p := m.price.value;
      var h := Pop(t, p, m);
      PopOnBudget(t, m, p, pair);
      WalkStep(t, makers, p, h);
      QueuedFor(t, h.taker, makers[1..], pair);
      if t.remainingQuote.value >= p * m.remaining {
        BudgetAppetite(h.taker, makers[1..], pair);
      } else if Exhausted(h.taker) {
        WalkStops(h.taker, makers[1..]);
      } else {
        TooPoor(h.taker, makers[1..], pair);
      }
    }
  }

  ghost predicate AllCross(t: Order, makers: seq<Order>) {
    forall m :: m in makers ==> m.price.Some? && Crosses(t, m.price.value)
  }

  /** A walk over acceptable makers leaves a hungry taker exactly when they offer too little. */
  lemma WalkHungryIff(t: Order, makers: seq<Order>, side: Side, pair: Pair)
    requires TakerOk(t, side, pair) && Resting(makers, side, pair) && AllCross(t, makers)
    requires t.remainingQuote.Some? ==> Queued(t, makers, pair)
    ensures !Exhausted(Walk(t, makers).taker) <==> StaysHungry(t, makers)
  {
    hide Walk, BudgetStaysHungry, Queued;
    if t.remainingQuote.Some? {
      BudgetAppetite(t, makers, pair);
    } else {
      AllAcceptable(t, makers);
      WalkAppetite(t, makers, side, pair);
      WalkKeepsTaker(t, makers);
    }
  }

  /** And so does the sweep of acceptable levels. */
  lemma SweepAppetite(t: Order, levels: seq<Level>, side: Side, pair: Pair)
    requires TakerOk(t, side, pair) && GoodLevels(levels, side, pair) && AllCross(t, Others(levels, t.user))
    ensures !Exhausted(Sweep(t, levels).taker) <==> StaysHungry(t, Others(levels, t.user))
  {
    hide Sweep, Walk, Others, StaysHungry, Queued, Resting;
    var makers := Others(levels, t.user);
    SweepIsGreedy(t, levels, side, pair);
    OthersRest(levels, side, pair, t.user);
    if t.remainingQuote.Some? {
      OthersAreQueued(t, levels, pair);
    }
    WalkHungryIff(t, makers, side, pair);
  }

  /** The levels up to an acceptable one are well formed and acceptable. */
  lemma {:induction false} UpToAcceptable(t: Order, levels: seq<Level>, side: Side, pair: Pair, k: nat)
    requires t.side == side.Opposite() && GoodLevels(levels, side, pair)
    requires k < |levels| && Crosses(t, levels[k].price)
    ensures GoodLevels(levels[..k + 1], side, pair) && Prices(levels[..k + 1]) <= Prices(levels)
    ensures AllCross(t, Others(levels[..k + 1], t.user))
  {
    var part := levels[..k + 1];
    assert part[1..] == levels[1..][..k];
    WithoutIsASubset(levels[0].queue, t.user);
    if k > 0 {
      PriceIn(levels[1..], k - 1);
      UpToAcceptable(t, levels[1..], side, pair, k - 1);
    } else {
      assert part[1..] == [] && GoodLevels([], side, pair) && Others([], t.user) == [];
    }
  }

  lemma {:induction false} OwnIsPassedOver(t: Order, p: Price, q: seq<Order>, side: Side, pair: Pair, o: Order)
    requires TakerOk(t, side, pair) && GoodQueue(q, side, pair, p) && Crosses(t, p)
    requires o in q && o.user == t.user
    ensures var r := SweepQueue(t, p, q); o in r.front || o in r.own
    decreases |q|
  {
    if !Exhausted(t) && q[0] != o {
      assert q[0] in q;
      PopKeeps(t, p, q[0], side, pair);
      OwnIsPassedOver(Pop(t, p, q[0]).taker, p, q[1..], side, pair, o);
    }
  }

  lemma {:induction false} InFlat(levels: seq<Level>, k: nat, o: Order)
    requires k < |levels| && o in levels[k].queue
    ensures o in Flat(levels)
  {
    if k > 0 {
      InFlat(levels[1..], k - 1, o);
    }
  }

  lemma {:induction false} PriceIn(levels: seq<Level>, k: nat)
    requires k < |levels|
    ensures levels[k].price in Prices(levels)
  {
    if k > 0 {
      PriceIn(levels[1..], k - 1);
    }
  }

  /** Own order `o` of level `k` is discarded exactly when its price is acceptable and the levels up to its
      own leave the taker hungry; otherwise it stays in the book. */
  ghost predicate Fate(t: Order, levels: seq<Level>, k: nat, o: Order)
    requires k < |levels|
  {
    var out := Sweep(t, levels);
    var discarded := Crosses(t, levels[k].price) && !Exhausted(Sweep(t, levels[..k + 1]).taker);
    (o in out.lost <==> discarded) && (!discarded ==> o in Flat(out.levels))
  }

  lemma {:induction false} FateByLevels(t: Order, levels: seq<Level>, side: Side, pair: Pair, k: nat, o: Order)
    requires TakerOk(t, side, pair) && GoodLevels(levels, side, pair)
    requires k < |levels| && o in levels[k].queue && o.user == t.user
    ensures Fate(t, levels, k, o)
    decreases |levels|
  {
    if Exhausted(t) || !Crosses(t, levels[0].price) {
      FateUnswept(t, levels, side, pair, k, o);
    } else if k == 0 {
      FateAtTheBest(t, levels, side, pair, o);
    } else {
      hide Fate;
      var r := SweepQueue(t, levels[0].price, levels[0].queue);
      QueueKeeps(t, levels[0].price, levels[0].queue, side, pair);
      if !Exhausted(r.taker) {
        FateByLevels(r.taker, levels[1..], side, pair, k - 1, o);
      }
      FateBehind(t, levels, side, pair, k, o);
    }
  }

  lemma FateUnswept(t: Order, levels: seq<Level>, side: Side, pair: Pair, k: nat, o: Order)
    requires TakerOk(t, side, pair) && GoodLevels(levels, side, pair)
    requires k < |levels| && o in levels[k].queue
    requires Exhausted(t) || !Crosses(t, levels[0].price)
    ensures Fate(t, levels, k, o)
  {
    PriceIn(levels, k);
    InFlat(levels, k, o);
    SweepStops(t, levels);
    SweepStops(t, levels[..k + 1]);
    assert levels[k].price == levels[0].price || Ahead(side, levels[0].price, levels[k].price);
    hide Sweep, Flat, GoodLevels, Prices;
  }

  lemma FateAtTheBest(t: Order, levels: seq<Level>, side: Side, pair: Pair, o: Order)
    requires TakerOk(t, side, pair) && GoodLevels(levels, side, pair)
    requires levels != [] && !Exhausted(t) && Crosses(t, levels[0].price)
    requires o in levels[0].queue && o.user == t.user
    ensures Fate(t, levels, 0, o)
  {
    var p, q, rest := levels[0].price, levels[0].queue, levels[1..];
    var r := SweepQueue(t, p, q);
    QueueKeeps(t, p, q, side, pair);
    HungryFrontIsEmpty(t, p, q);
    OwnIsPassedOver(t, p, q, side, pair, o);
    SweepUnfolds(t, levels);
    SweepUnfolds(t, levels[..1]);
    assert levels[..1][1..] == [];
    SweepStops(r.taker, []);
    hide Sweep, SweepQueue;
    if Exhausted(r.taker) {
      KeptInFlat(p, r.front + r.own, rest, o);
    }
  }

  lemma FateBehind(t: Order, levels: seq<Level>, side: Side, pair: Pair, k: nat, o: Order)
    requires TakerOk(t, side, pair) && GoodLevels(levels, side, pair)
    requires 0 < k < |levels| && o in levels[k].queue && o.user == t.user
    requires !Exhausted(t) && Crosses(t, levels[0].price)
    requires var r := SweepQueue(t, levels[0].price, levels[0].queue);
             !Exhausted(r.taker) ==> Fate(r.taker, levels[1..], k - 1, o)
    ensures Fate(t, levels, k, o)
  {
    var p, q, rest := levels[0].price, levels[0].queue, levels[1..];
    var r := SweepQueue(t, p, q);
    QueueKeeps(t, p, q, side, pair);
    PriceIn(rest, k - 1);
    RestsAtItsLevel(levels, k, o, side, pair);
    SweepUnfolds(t, levels);
    SweepUnfolds(t, levels[..k + 1]);
    assert levels[..k + 1][1..] == rest[..k];
    InFlat(rest, k - 1, o);
    TailInFlat(p, r.front + r.own, rest, o);
    assert o !in r.own && o !in r.lost;
    hide Sweep, SweepQueue, WithLevel, Flat, GoodLevels, Prices;
    FateFromRest(t, levels, k, o, r);
  }

  lemma FateFromRest(t: Order, levels: seq<Level>, k: nat, o: Order, r: QueueOutcome)
    requires 0 < k < |levels| && Sweep(t, levels) == Assemble(r, levels[0].price, levels[1..])
    requires Sweep(t, levels[..k + 1]) == Assemble(r, levels[0].price, levels[1..][..k])
    requires o !in r.own && o !in r.lost && SameTaker(t, r.taker)
    requires o in Flat(WithLevel(levels[0].price, r.front + r.own, levels[1..]))
    requires !Exhausted(r.taker) ==> Fate(r.taker, levels[1..], k - 1, o)
    ensures Fate(t, levels, k, o)
  {
    hide Sweep, WithLevel, Flat;
    assert Crosses(r.taker, levels[k].price) == Crosses(t, levels[k].price);
  }

  /** What becomes of a taker's own order on the other side, for every kind of taker: it is discarded
      exactly when its price is acceptable and the taker wants more than everybody else offers up to that
      price; otherwise it stays in the book. */
  lemma OwnOrderFate(t: Order, levels: seq<Level>, side: Side, pair: Pair, k: nat, o: Order)
    requires TakerOk(t, side, pair) && GoodLevels(levels, side, pair)
    requires k < |levels| && o in levels[k].queue && o.user == t.user
    ensures var out := Sweep(t, levels);
            var discarded := Crosses(t, levels[k].price) && StaysHungry(t, Others(levels[..k + 1], t.user));
            (o in out.lost <==> discarded) && (!discarded ==> o in Flat(out.levels))
  {
    hide Sweep, Flat, StaysHungry, Others, GoodLevels;
    FateByLevels(t, levels, side, pair, k, o);
    if Crosses(t, levels[k].price) {
      UpToAcceptable(t, levels, side, pair, k);
      SweepAppetite(t, levels[..k + 1], side, pair);
    }
  }

  /** No own order is at an acceptable price with a taker still hungry after that price. */
  ghost predicate OwnSurvive(t: Order, levels: seq<Level>) {
    forall k, o :: 0 <= k < |levels| && o in levels[k].queue && o.user == t.user && Crosses(t, levels[k].price) ==>
      !StaysHungry(t, Others(levels[..k + 1], t.user))
  }

  /** Matching discards no order at all exactly when all own orders survive and no budget leaves dust. */
  lemma NothingIsDiscardedIff(t: Order, levels: seq<Level>, side: Side, pair: Pair)
    requires TakerOk(t, side, pair) && GoodLevels(levels, side, pair)
    ensures Sweep(t, levels).lost == [] <==>
            OwnSurvive(t, levels) &&
            (t.remainingQuote.Some? ==> !LeavesDust(t.remainingQuote.value, Others(levels, t.user)))
  {
    hide Sweep, Flat, StaysHungry, Others, GoodLevels, LeavesDust;
    var lost := Sweep(t, levels).lost;
    LostOrders(t, levels, side, pair);
    if t.remainingQuote.Some? {
      MarketBuyLosesMakers(t, levels, pair);
    }
    forall k, o | 0 <= k < |levels| && o in levels[k].queue && o.user == t.user
      ensures o in lost <==> Crosses(t, levels[k].price) && StaysHungry(t, Others(levels[..k + 1], t.user))
    {
      OwnOrderFate(t, levels, side, pair, k, o);
    }
    if lost != [] && lost[0].user == t.user {
      assert lost[0] in lost;
      var k := LevelHolding(levels, lost[0]);
    }
  }

  lemma {:induction false} LevelHolding(levels: seq<Level>, o: Order) returns (k: nat)
    requires o in Flat(levels)
    ensures k < |levels| && o in levels[k].queue
  {
    if o in levels[0].queue {
      k := 0;
    } else {
      var i := LevelHolding(levels[1..], o);
      k := i + 1;
    }
  }

  lemma {:induction false} RestsAtItsLevel(levels: seq<Level>, k: nat, o: Order, side: Side, pair: Pair)
    requires GoodLevels(levels, side, pair) && k < |levels| && o in levels[k].queue
    ensures RestsAt(o, side, pair, levels[k].price)
  {
    if k > 0 {
      RestsAtItsLevel(levels[1..], k - 1, o, side, pair);
    }
  }

  lemma KeptInFlat(p: Price, q: seq<Order>, rest: seq<Level>, o: Order)
    requires o in q
    ensures o in Flat(WithLevel(p, q, rest))
  {
    assert WithLevel(p, q, rest)[1..] == rest;
  }

  lemma TailInFlat(p: Price, q: seq<Order>, rest: seq<Level>, o: Order)
    requires o in Flat(rest)
    ensures o in Flat(WithLevel(p, q, rest))
  {
    if q != [] {
      assert WithLevel(p, q, rest)[1..] == rest;
    }
  }

  // ---------------------------------------------------------------------------------------
  // Two books in which orders disappear
  // ---------------------------------------------------------------------------------------

  function Ask(id: nat, user: nat, price: Price, amount: int): Order {
    Order(id, user, Sell, Limit, Pair("SOL", "USDT"), Some(price), amount, None, 0, amount, None)
  }

  /** Own orders are meant to be skipped and kept, but a limit buy that meets only its owner's ask
      makes that ask disappear, and rests itself. */
  lemma OwnAskDisappears()
    ensures var ask := Ask(1, 7, 105, 1);
            var bid := Order(2, 7, Buy, Limit, Pair("SOL", "USDT"), Some(105), 1, None, 0, 1, None);
            Sweep(bid, [Level(105, [ask])]) == Outcome([], bid, [], [ask])
  {
    var ask := Ask(1, 7, 105, 1);
    var bid := Order(2, 7, Buy, Limit, Pair("SOL", "USDT"), Some(105), 1, None, 0, 1, None);
    OnlyOwnQueue(bid, 105, [ask]);
    SweepStops(bid, []);
    assert [Level(105, [ask])][1..] == [];
    assert [] + [ask] + [] == [ask];
  }

  /** A market buy with 4 to spend buys one unit at 3.  The 1 it cannot spend empties the side: both
      sellers' remaining orders are gone. */
  lemma DustEmptiesTheSide()
    ensures var a, b := Ask(1, 2, 3, 5), Ask(2, 3, 4, 5);
            var buy := Order(9, 1, Buy, Market, Pair("SOL", "USDT"), None, 0, Some(4), 0, 0, Some(4));
            var o := Sweep(buy, [Level(3, [a]), Level(4, [b])]);
            && o.matches == [MakeMatch(buy, a, 3, 1)] && o.levels == []
            && o.lost == [Reduce(a, 1), b] && o.taker.remainingQuote == Some(1)
  {
    var a, b := Ask(1, 2, 3, 5), Ask(2, 3, 4, 5);
    var buy := Order(9, 1, Buy, Market, Pair("SOL", "USDT"), None, 0, Some(4), 0, 0, Some(4));
    var t := Take(buy, 3, 1);
    SingleMaker(buy, 3, a);
    SingleMaker(t, 4, b);
    SweepStops(t, []);
    assert [Level(4, [b])][1..] == [];
    assert Sweep(t, [Level(4, [b])]) == Outcome([], t, [], [b]);
    assert [Level(3, [a]), Level(4, [b])][1..] == [Level(4, [b])];
  }

  lemma SingleMaker(t: Order, p: Price, m: Order)
    requires !Exhausted(t)
    ensures var h := Pop(t, p, m);
            SweepQueue(t, p, [m]) == h
  {
    var h := Pop(t, p, m);
    assert [m][1..] == [];
    assert SweepQueue(h.taker, p, []) == QueueOutcome([], h.taker, [], [], []);
  }
}
