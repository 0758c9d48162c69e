/** What a submission leaves locked for good, read off the book before the call. */
module Stranding {
  import opened Types
  import opened OrderBooks
  import opened MatchingSpec
  import opened Obligations
  import opened SweepProperties
  import opened Greedy
  import opened SelfTrade
  import opened Places
  import opened Ledgers
  import opened EngineSpec
  import opened BookKeeping
  import opened MapSums
  import opened Solvency
  import S = Solvency

  // ---------------------------------------------------------------------------------------
  // The discarded orders of a quantity-based taker
  // ---------------------------------------------------------------------------------------

  /** The own orders of every acceptable level after which the others have offered less than `wanted`. */
  function OwnDiscarded(t: Order, levels: seq<Level>, wanted: int): seq<Order> {
    if levels == [] || !Crosses(t, levels[0].price) then []
    else
      var left := wanted - QueueLots(Without(levels[0].queue, t.user));
      if left <= 0 then [] else Own(levels[0].queue, t.user) + OwnDiscarded(t, levels[1..], left)
  }

  lemma {:induction false} QueueAppetite(t: Order, p: Price, q: seq<Order>, side: Side, pair: Pair)
    requires TakerOk(t, side, pair) && t.remainingQuote.None? && GoodQueue(q, side, pair, p) && Crosses(t, p)
    ensures var r := SweepQueue(t, p, q);
            var lots := QueueLots(Without(q, t.user));
            && 0 <= lots
            && r.taker.remaining == (if lots < t.remaining then t.remaining - lots else 0)
            && (lots < t.remaining ==> r.own == Own(q, t.user))
    decreases |q|
  {
    if q != [] {
      assert q[0] in q;
      LotsOfTheFirst(q, t.user);
      if Exhausted(t) {
        QueueAppetite(t, p, q[1..], side, pair);
      } else {
        PopKeeps(t, p, q[0], side, pair);
        TradeKeeps(t, q[0], side, pair, p);
        QueueAppetite(Pop(t, p, q[0]).taker, p, q[1..], side, pair);
      }
    }
  }

  lemma LotsOfTheFirst(q: seq<Order>, u: nat)
    requires q != []
    ensures QueueLots(Without(q, u)) == (if q[0].user == u then 0 else q[0].remaining) + QueueLots(Without(q[1..], u))
  {
    QueueSums(if q[0].user == u then [] else [q[0]], Without(q[1..], u), 0, "");
  }

  lemma CrossesFor(t: Order, t': Order, levels: seq<Level>, wanted: int)
    requires SameTaker(t, t')
    ensures OwnDiscarded(t', levels, wanted) == OwnDiscarded(t, levels, wanted)
    decreases |levels|
  {
    if levels != [] {
      CrossesFor(t, t', levels[1..], wanted - QueueLots(Without(levels[0].queue, t.user)));
    }
  }

  /** Exactly which orders a quantity-based taker makes disappear, and in which order. */
  lemma {:induction false} LostAreOwnDiscarded(t: Order, levels: seq<Level>, side: Side, pair: Pair)
    requires TakerOk(t, side, pair) && t.remainingQuote.None? && GoodLevels(levels, side, pair)
    ensures Sweep(t, levels).lost == OwnDiscarded(t, levels, t.remaining)
    decreases |levels|
  {
    if levels == [] || Exhausted(t) || !Crosses(t, levels[0].price) {
      SweepStops(t, levels);
      if levels != [] && Crosses(t, levels[0].price) {
        QueueAppetite(t, levels[0].price, levels[0].queue, side, pair);
      }
    } else {
      var p, q := levels[0].price, levels[0].queue;
      hide SweepQueue, OwnDiscarded, Own, Without, QueueLots, Assemble;
      var r := SweepQueue(t, p, q);
      assert GoodLevels(levels[1..], side, pair);
      QueueAppetite(t, p, q, side, pair);
      QueueKeeps(t, p, q, side, pair);
      SweepUnfolds(t, levels);
      hide Sweep, GoodLevels, GoodQueue;
      if !Exhausted(r.taker) {
        LostAreOwnDiscarded(r.taker, levels[1..], side, pair);
        CrossesFor(t, r.taker, levels[1..], r.taker.remaining);
      }
      LostStep(t, levels, r);
    }
  }

  lemma LostStep(t: Order, levels: seq<Level>, r: QueueOutcome)
    requires levels != [] && Crosses(t, levels[0].price) && r.taker.remainingQuote.None? && r.lost == []
    requires var left := t.remaining - QueueLots(Without(levels[0].queue, t.user));
             && r.taker.remaining == (if 0 < left then left else 0)
             && (0 < left ==> r.own == Own(levels[0].queue, t.user)
                              && Sweep(r.taker, levels[1..]).lost == OwnDiscarded(t, levels[1..], left))
    ensures Assemble(r, levels[0].price, levels[1..]).lost == OwnDiscarded(t, levels, t.remaining)
  {
    hide Sweep, QueueLots, Without, Own, WithLevel, Crosses;
  }

  // ---------------------------------------------------------------------------------------
  // The discarded orders of a market buy
  // ---------------------------------------------------------------------------------------

  /** What a budget is after buying from `makers`: whole ones as long as it can, then as many units as it
      can, and nothing of what comes behind. */
  function BudgetAfter(rq: int, makers: seq<Order>): int
    decreases |makers|
  {
    if makers == [] || rq <= 0 then rq
    else
      var p := makers[0].price.GetOr(1);
      if rq >= p * makers[0].remaining then BudgetAfter(rq - p * makers[0].remaining, makers[1..]) else rq % p
  }

  /** The makers a budget makes disappear: if it leaves a remainder at the first one it cannot buy whole,
      what is left of that one and everybody behind. */
  function Shed(rq: int, makers: seq<Order>): seq<Order>
    decreases |makers|
  {
    if makers == [] || rq <= 0 then []
    else
      var p := makers[0].price.GetOr(1);
      if rq >= p * makers[0].remaining then Shed(rq - p * makers[0].remaining, makers[1..])
      else if rq % p == 0 then [] else [Reduce(makers[0], rq / p)] + makers[1..]
  }

  /** Level by level while the budget is hungry: what it sheds of the others, then the own orders. */
  function BudgetDiscarded(rq: int, levels: seq<Level>, u: nat): seq<Order>
    decreases |levels|
  {
    if levels == [] then []
    else
      var others := Without(levels[0].queue, u);
      var left := BudgetAfter(rq, others);
      if left <= 0 then []
      else Shed(rq, others) + Own(levels[0].queue, u) + BudgetDiscarded(left, levels[1..], u)
  }

  lemma {:induction false} BudgetWalk(t: Order, makers: seq<Order>, pair: Pair)
    requires TakerOk(t, Sell, pair) && t.remainingQuote.Some? && Queued(t, makers, pair)
    ensures var rq := t.remainingQuote.value;
            && Walk(t, makers).gone == Shed(rq, makers)
            && Walk(t, makers).taker.remainingQuote == Some(BudgetAfter(rq, makers))
    decreases |makers|
  {
    if makers == [] || Exhausted(t) {
      WalkStops(t, makers);
    } else {
      hide Walk, Shed, BudgetAfter;
      var m := makers[0];
      var p, rq := m.price.value, t.remainingQuote.value;
      var h := Pop(t, p, m);
      PopOnBudget(t, m, p, pair);
      WalkStep(t, makers, p, h);
      QueuedFor(t, h.taker, makers[1..], pair);
      BudgetStep(rq, makers, p);
      if rq >= p * m.remaining {
        BudgetWalk(h.taker, makers[1..], pair);
      } else {
        ShedByPop(t, m, p, pair);
        assert forall o :: o in makers[1..] ==> o.price.Some? && rq % p < o.price.value;
        hide Pop, RestsAt, Reduce;
        if Exhausted(h.taker) {
          WalkStops(h.taker, makers[1..]);
        } else {
          TooPoor(h.taker, makers[1..], pair);
        }
      }
    }
  }

  lemma BudgetStep(rq: int, makers: seq<Order>, p: Price)
    requires makers != [] && 0 < rq && makers[0].price == Some(p)
    ensures var left := rq - p * makers[0].remaining;
            if left >= 0 then Shed(rq, makers) == Shed(left, makers[1..])
                              && BudgetAfter(rq, makers) == BudgetAfter(left, makers[1..])
            else Shed(rq, makers) == (if rq % p == 0 then [] else [Reduce(makers[0], rq / p)] + makers[1..])
                 && BudgetAfter(rq, makers) == rq % p
  {}

  lemma ShedByPop(t: Order, m: Order, p: Price, pair: Pair)
    requires TakerOk(t, Sell, pair) && t.remainingQuote.Some? && !Exhausted(t)
    requires RestsAt(m, Sell, pair, p) && m.user != t.user && t.remainingQuote.value < p * m.remaining
    ensures var rq := t.remainingQuote.value;
            Pop(t, p, m).lost == if rq % p == 0 then [] else [Reduce(m, rq / p)]
  {
    TradeKeeps(t, m, Sell, pair, p);
    BudgetMeetsMaker(t, m, p);
    assert Reduce(m, 0) == m;
  }

  /** What a queue loses to a budget. */
  lemma BudgetQueue(t: Order, p: Price, q: seq<Order>, pair: Pair)
    requires TakerOk(t, Sell, pair) && t.remainingQuote.Some? && GoodQueue(q, Sell, pair, p) && Crosses(t, p)
    ensures var r := SweepQueue(t, p, q);
            var rq, others := t.remainingQuote.value, Without(q, t.user);
            && r.lost == Shed(rq, others) && r.taker.remainingQuote == Some(BudgetAfter(rq, others))
            && (if Exhausted(r.taker) then r.lost == [] else r.own == Own(q, t.user))
  {
    var r := SweepQueue(t, p, q);
    var others := Without(q, t.user);
    WalkAQueue(t, p, q, [], Sell, pair);
    QueueIsQueued(t, p, q, [], pair);
    QueueAfter(t, p, q);
    WalkStops(r.taker, []);
    assert others + [] == others && r.lost + [] == r.lost && q[..|q|] == q;
    BudgetWalk(t, others, pair);
    SpentShedsNothing(t.remainingQuote.value, others);
  }

  lemma {:induction false} SpentShedsNothing(rq: int, makers: seq<Order>)
    ensures BudgetAfter(rq, makers) <= 0 ==> Shed(rq, makers) == []
    decreases |makers|
  {
    if makers != [] && rq > 0 {
      var m := makers[0];
      if rq >= m.price.GetOr(1) * m.remaining {
        SpentShedsNothing(rq - m.price.GetOr(1) * m.remaining, makers[1..]);
      }
    }
  }

  /** Exactly which orders a market buy makes disappear, and in which order. */
  lemma {:induction false} LostAreBudgetDiscarded(t: Order, levels: seq<Level>, pair: Pair)
    requires TakerOk(t, Sell, pair) && t.remainingQuote.Some? && GoodLevels(levels, Sell, pair)
    ensures Sweep(t, levels).lost == BudgetDiscarded(t.remainingQuote.value, levels, t.user)
    decreases |levels|
  {
    hide SweepQueue, Shed, Own, Without, Assemble;
    if levels == [] || Exhausted(t) {
      SweepStops(t, levels);
    } else {
      var p, q := levels[0].price, levels[0].queue;
      hide BudgetAfter, BudgetDiscarded;
      var r := SweepQueue(t, p, q);
      assert GoodLevels(levels[1..], Sell, pair);
      BudgetQueue(t, p, q, pair);
      QueueKeeps(t, p, q, Sell, pair);
      SweepUnfolds(t, levels);
      hide Sweep, GoodLevels, GoodQueue;
      if !Exhausted(r.taker) {
        LostAreBudgetDiscarded(r.taker, levels[1..], pair);
      }
      BudgetLostStep(t, levels, r);
    }
  }

  lemma BudgetLostStep(t: Order, levels: seq<Level>, r: QueueOutcome)
    requires levels != [] && t.remainingQuote.Some?
    requires var rq, others := t.remainingQuote.value, Without(levels[0].queue, t.user);
             var left := BudgetAfter(rq, others);
             && r.taker.remainingQuote == Some(left) && r.lost == Shed(rq, others)
             && (left <= 0 ==> r.lost == [])
             && (0 < left ==> r.own == Own(levels[0].queue, t.user)
                              && Sweep(r.taker, levels[1..]).lost == BudgetDiscarded(left, levels[1..], t.user))
    ensures Assemble(r, levels[0].price, levels[1..]).lost == BudgetDiscarded(t.remainingQuote.value, levels, t.user)
  {
    hide Sweep, Without, Own, WithLevel, Shed, BudgetAfter;
  }

  // ---------------------------------------------------------------------------------------
  // The price improvement of a limit buy
  // ---------------------------------------------------------------------------------------

  /** What buying all of `makers` costs. */
  function Cost(makers: seq<Order>): int {
    if makers == [] then 0 else makers[0].price.GetOr(1) * makers[0].remaining + Cost(makers[1..])
  }

  /** How much less than the limit `makers` ask for all they offer. */
  function Spread(o: Order, makers: seq<Order>): int {
    if makers == [] then 0
    else (o.PriceOrZero() - makers[0].price.GetOr(1)) * makers[0].remaining + Spread(o, makers[1..])
  }

  lemma {:induction false} SpreadIsLimitMinusCost(o: Order, makers: seq<Order>)
    ensures Spread(o, makers) == o.PriceOrZero() * QueueLots(makers) - Cost(makers)
  {
    if makers != [] {
      SpreadIsLimitMinusCost(o, makers[1..]);
      var limit, p, n, lots := o.PriceOrZero(), makers[0].price.GetOr(1), makers[0].remaining, QueueLots(makers[1..]);
      assert (limit - p) * n == limit * n - p * n;
      assert limit * (n + lots) == limit * n + limit * lots;
    }
  }

  /** A taker that wants more than is offered pays every acceptable maker whole. */
  lemma {:induction false} HungryPaysAll(t: Order, makers: seq<Order>, side: Side, pair: Pair)
    requires TakerOk(t, side, pair) && t.remainingQuote.None? && Resting(makers, side, pair)
    requires forall m :: m in makers ==> m.user != t.user
    requires QueueLots(Acceptable(t, makers)) < t.remaining
    ensures QuoteTotal(Walk(t, makers).matches) == Cost(Acceptable(t, makers))
    decreases |makers|
  {
    if makers == [] || Exhausted(t) || !Crosses(t, makers[0].price.GetOr(1)) {
      WalkAppetite(t, makers, side, pair);
      WalkStops(t, makers);
    } else {
      var m := makers[0];
      assert m in makers;
      var p := m.price.value;
      var acc := Acceptable(t, makers[1..]);
      WalkAppetite(t, makers[1..], side, pair);
      assert Acceptable(t, makers)[1..] == acc;
      TradeKeeps(t, m, side, pair, p);
      var t' := Take(t, p, m.remaining);
      AcceptableFor(t, t', makers[1..]);
      HungryPaysAll(t', makers[1..], side, pair);
      WalkStep(t, makers, p, Pop(t, p, m));
      var r := MakeMatch(t, m, p, m.remaining);
      assert Walk(t, makers).matches == [r] + Walk(t', makers[1..]).matches;
      assert ([r] + Walk(t', makers[1..]).matches)[1..] == Walk(t', makers[1..]).matches;
    }
  }

  /** The other users' asks a limit buy may trade with. */
  function Offers(o: Order, book: Book): seq<Order> {
    Acceptable(o, Others(book.On(o.side.Opposite()), o.user))
  }

  /** A limit order has something left exactly when the acceptable offers are too few; then what is left
      and the price improvement are known from the book. */
  lemma LeftAndImprovement(o: Order, book: Book)
    requires ValidOrder(o) && o.style == Limit && GoodBook(book, o.pair)
    ensures var out := MatchSpec(o, book);
            var offers := Offers(o, book);
            && (0 < out.taker.remaining <==> QueueLots(offers) < o.amount)
            && (QueueLots(offers) < o.amount ==> out.taker.remaining == o.amount - QueueLots(offers))
            && (QueueLots(offers) < o.amount && o.side == Buy ==> Improvement(o, out) == Spread(o, offers))
  {
    hide Sweep, Walk, Others, Acceptable, GoodLevels, QueueLots, QuoteTotal, Spread, Resting;
    var side := o.side.Opposite();
    var levels := book.On(side);
    var makers := Others(levels, o.user);
    OrderIsReady(o);
    SweepIsGreedy(o, levels, side, o.pair);
    OthersRest(levels, side, o.pair, o.user);
    OthersAreOthers(levels, o.user);
    WalkAppetite(o, makers, side, o.pair);
    if QueueLots(Offers(o, book)) < o.amount {
      HungryPaysAll(o, makers, side, o.pair);
      SpreadIsLimitMinusCost(o, Offers(o, book));
    }
  }

  lemma {:induction false} OthersAreOthers(levels: seq<Level>, u: nat)
    ensures forall m :: m in Others(levels, u) ==> m.user != u
  {
    if levels != [] {
      WithoutIsASubset(levels[0].queue, u);
      OthersAreOthers(levels[1..], u);
    }
  }

  /** The spread is positive exactly when the cheapest offer is below the limit. */
  lemma {:induction false} SpreadIsPositiveIff(o: Order, t: Order, makers: seq<Order>, pair: Pair)
    requires o.side == Buy && o.style == Limit && o.price.Some? && Queued(t, makers, pair)
    ensures var offers := Acceptable(o, makers);
            && 0 <= Spread(o, offers)
            && (0 < Spread(o, offers) <==> offers != [] && offers[0].price.GetOr(1) < o.price.value)
  {
    if makers != [] && Crosses(o, makers[0].price.GetOr(1)) {
      SpreadIsPositiveIff(o, t, makers[1..], pair);
      var rest := Acceptable(o, makers[1..]);
      assert Acceptable(o, makers)[1..] == rest;
      var d, n := o.price.value - makers[0].price.value, makers[0].remaining;
      assert if d == 0 then d * n == 0 else d * n > 0;
      if rest != [] {
        assert rest[0] in makers[1..];
      }
    }
  }

  // ---------------------------------------------------------------------------------------
  // The ledger
  // ---------------------------------------------------------------------------------------

  /** Does a limit buy end with more locked than it owes? */
  predicate OverLocks(o: Order, book: Book) {
    var offers := Offers(o, book);
    && o.side == Buy && o.style == Limit && QueueLots(offers) < o.amount
    && offers != [] && offers[0].price.GetOr(1) < o.PriceOrZero()
  }

  /** The spread that stays locked behind a limit buy that stays hungry. */
  function KeptSpread(o: Order, book: Book): int {
    if o.style == Limit && o.side == Buy && QueueLots(Offers(o, book)) < o.amount then Spread(o, Offers(o, book)) else 0
  }

  lemma StrandedParts(s: State, o: Order, u: nat, mint: string)
    requires GoodBooks(s.books) && ValidOrder(o) && Process(s, o).Accepted?
    ensures var book := BookOf(s, o.pair);
            Stranded(s, SubmitOrder(o), u, mint) ==
            QueueOwes(Sweep(o, book.On(o.side.Opposite())).lost, u, mint)
            + if u == o.user && mint == PayMint(o) then KeptSpread(o, book) else 0
  {
    hide ExecuteAll, Lock, Unlock, Sweep, Offers, Spread, GoodLevels, QueueOwes, QueueLots;
    OrderIsReady(o);
    OwedCoversABook(s, o.pair, 0, "");
    if o.style == Limit {
      LeftAndImprovement(o, BookOf(s, o.pair));
    }
  }

  /** The orders a taker makes disappear. */
  function Discarded(o: Order, levels: seq<Level>): seq<Order> {
    match o.remainingQuote
    case Some(rq) => BudgetDiscarded(rq, levels, o.user)
    case None => OwnDiscarded(o, levels, o.remaining)
  }

  /** What a submission leaves locked for good, from the state before it: what the orders it discards owed,
      and for a limit buy that stays hungry the spread of what it bought. */
  lemma StrandedFromTheBook(s: State, o: Order, u: nat, mint: string)
    requires GoodBooks(s.books) && ValidOrder(o) && Process(s, o).Accepted?
    ensures var book := BookOf(s, o.pair);
            Stranded(s, SubmitOrder(o), u, mint) ==
            QueueOwes(Discarded(o, book.On(o.side.Opposite())), u, mint)
            + if u == o.user && mint == PayMint(o) then KeptSpread(o, book) else 0
  {
    hide Process, Stranded, Sweep, OwnDiscarded, BudgetDiscarded, KeptSpread, GoodLevels, QueueOwes;
    var levels := BookOf(s, o.pair).On(o.side.Opposite());
    OrderIsReady(o);
    OwedCoversABook(s, o.pair, 0, "");
    if o.remainingQuote.Some? {
      LostAreBudgetDiscarded(o, levels, o.pair);
    } else {
      LostAreOwnDiscarded(o, levels, o.side.Opposite(), o.pair);
    }
    StrandedParts(s, o, u, mint);
  }

  /** The improvement stays locked exactly when the offers within the limit are too few and the cheapest is
      below the limit. */
  lemma OverLocksIff(o: Order, book: Book)
    requires ValidOrder(o) && o.style == Limit && o.side == Buy && GoodBook(book, o.pair)
    ensures var out := MatchSpec(o, book);
            0 < out.taker.remaining && 0 < Improvement(o, out) <==> OverLocks(o, book)
  {
    hide MatchSpec, Others, Acceptable, GoodLevels, QueueLots, Spread, Queued, Improvement;
    LeftAndImprovement(o, book);
    OthersAreQueued(o, book.asks, o.pair);
    SpreadIsPositiveIff(o, o, Others(book.asks, o.user), o.pair);
  }

  lemma OwedByDiscarded(q: seq<Order>, side: Side, pair: Pair, u: nat, mint: string)
    requires q != [] && forall o :: o in q ==> o.price.Some? && RestsAt(o, side, pair, o.price.value)
    requires u == q[0].user && mint == PayMint(q[0])
    ensures 0 < QueueOwes(q, u, mint)
  {
    assert q[0] in q;
    assert 0 < q[0].price.value * q[0].remaining;
    LostOwes(q[1..], side, pair, u, mint);
  }

  lemma KeptSpreadIff(o: Order, book: Book)
    requires ValidOrder(o) && GoodBook(book, o.pair)
    ensures 0 <= KeptSpread(o, book) && (0 < KeptSpread(o, book) <==> OverLocks(o, book))
  {
    hide Others, Acceptable, GoodLevels, QueueLots, Spread, Queued;
    if o.side == Buy && o.style == Limit {
      OthersAreQueued(o, book.asks, o.pair);
      SpreadIsPositiveIff(o, o, Others(book.asks, o.user), o.pair);
    }
  }

  /** `locked == owed` survives a submission, for every user and asset, exactly when all own orders survive,
      no budget leaves dust, and the order does not over-lock. */
  lemma NothingIsStrandedIff(s: State, o: Order)
    requires GoodBooks(s.books) && ValidOrder(o) && Process(s, o).Accepted?
    ensures var book := BookOf(s, o.pair);
            var levels := book.On(o.side.Opposite());
            (forall u, mint :: Stranded(s, SubmitOrder(o), u, mint) == 0) <==>
            && OwnSurvive(o, levels)
            && (o.remainingQuote.Some? ==> !LeavesDust(o.remainingQuote.value, Others(levels, o.user)))
            && !OverLocks(o, book)
  {
    hide Process, Stranded, OverLocks, KeptSpread, Others, GoodLevels, Sweep, QueueOwes, LeavesDust, OwnSurvive;
    var side := o.side.Opposite();
    var book := BookOf(s, o.pair);
    var levels := book.On(side);
    var lost := Sweep(o, levels).lost;
    OwedCoversABook(s, o.pair, 0, "");
    OrderIsReady(o);
    NothingIsDiscardedIff(o, levels, side, o.pair);
    LostOrders(o, levels, side, o.pair);
    KeptSpreadIff(o, book);
    StrandedParts(s, o, o.user, PayMint(o));
    LostOwes(lost, side, o.pair, o.user, PayMint(o));
    if lost != [] {
      var mint := PayMint(lost[0]);
      StrandedParts(s, o, lost[0].user, mint);
      OwedByDiscarded(lost, side, o.pair, lost[0].user, mint);
    } else {
      forall u, mint | !OverLocks(o, book) ensures Stranded(s, SubmitOrder(o), u, mint) == 0 {
        StrandedParts(s, o, u, mint);
        NoneOwesNothing(u, mint);
      }
      NoneOwesNothing(o.user, PayMint(o));
    }
  }

  ghost predicate Tight(s: State) {
    forall u, mint :: At(s.ledger, u, mint).locked == Owed(s.books, u, mint)
  }

  /** From a state in which every locked balance is exactly what is owed, an accepted submission leads to
      such a state if and only if all own orders survive, no budget leaves dust, and the order does not
      over-lock. */
  lemma LockedStaysOwedIff(s: State, o: Order)
    requires Inv(s) && Tight(s) && ValidOrder(o) && Process(s, o).Accepted?
    ensures var book := BookOf(s, o.pair);
            var levels := book.On(o.side.Opposite());
            Tight(Submit(s, o).0) <==>
            && OwnSurvive(o, levels)
            && (o.remainingQuote.Some? ==> !LeavesDust(o.remainingQuote.value, Others(levels, o.user)))
            && !OverLocks(o, book)
  {
    hide Process, Submit, Stranded, OverLocks, Others, LeavesDust, OwnSurvive, Owed;
    var s' := Submit(s, o).0;
    forall u, mint
      ensures At(s'.ledger, u, mint).locked - Owed(s'.books, u, mint) == Stranded(s, SubmitOrder(o), u, mint)
    {
      SubmitLedger(s, o, u, mint);
      assert At(s.ledger, u, mint).locked == Owed(s.books, u, mint);
    }
    NothingIsStrandedIff(s, o);
  }

  lemma NoneOwesNothing(u: nat, mint: string)
    ensures QueueOwes([], u, mint) == 0
  {}

  // ---------------------------------------------------------------------------------------
  // A run that strands 10
  // ---------------------------------------------------------------------------------------

  const SOL := Pair("SOL", "USDT")
  const ASK := Order(1, 2, Sell, Limit, SOL, Some(90), 1, None, 0, 1, None)
  const BID := Order(2, 1, Buy, Limit, SOL, Some(100), 2, None, 0, 2, None)

  lemma AskRests(s: State)
    requires s.books == map[] && At(s.ledger, 2, "SOL") == Balance(1, 0)
    ensures Stranded(s, SubmitOrder(ASK), 1, "USDT") == 0
    ensures Submit(s, ASK).0 == State(map[SOL := Book([], [Level(90, [ASK])])], s.ledger[(2, "SOL") := Balance(0, 1)])
  {
    SweepStops(ASK, []);
    var out := Outcome([], ASK, [], []);
    assert MatchSpec(ASK, EMPTY_BOOK) == out;
    assert [Level(90, [ASK])] + [] == [Level(90, [ASK])];
    assert Rest(ASK, out, EMPTY_BOOK) == Book([], [Level(90, [ASK])]);
    var l := s.ledger[(2, "SOL") := Balance(0, 1)];
    assert Lock(s.ledger, 2, "SOL", 1) == (l, true) && ExecuteAll(l, []) == (l, []);
  }

  lemma OfferOfOne()
    ensures Offers(BID, Book([], [Level(90, [ASK])])) == [ASK]
    ensures QueueLots([ASK]) == 1 && Spread(BID, [ASK]) == 10
    ensures Discarded(BID, [Level(90, [ASK])]) == []
  {
    var levels := [Level(90, [ASK])];
    assert levels[1..] == [] && [ASK][1..] == [];
    assert Without([ASK], 1) == [ASK];
    assert Others(levels, 1) == [ASK] + Others([], 1) == [ASK];
    assert Acceptable(BID, [ASK]) == [ASK] + Acceptable(BID, []);
    assert Own([ASK], 1) == [];
    assert OwnDiscarded(BID, [], 1) == [];
  }

  lemma OneAskIsGood(books: map<Pair, Book>)
    requires books == map[SOL := Book([], [Level(90, [ASK])])]
    ensures GoodBooks(books)
  {
    var levels := [Level(90, [ASK])];
    assert levels[1..] == [];
    assert GoodQueue([ASK], Sell, SOL, 90);
    assert GoodLevels(levels, Sell, SOL);
  }

  lemma BidIsAccepted(s: State)
    requires At(s.ledger, 1, "USDT") == Balance(200, 0)
    ensures Process(s, BID).Accepted?
  {
    hide MatchSpec, ExecuteAll, Unlock, Rest, Refund, Release;
  }

  lemma BidStrandsTen(s: State)
    requires s.books == map[SOL := Book([], [Level(90, [ASK])])] && At(s.ledger, 1, "USDT") == Balance(200, 0)
    ensures Stranded(s, SubmitOrder(BID), 1, "USDT") == 10 && OverLocks(BID, s.books[SOL])
  {
    hide GoodBooks, Process, Offers, Discarded, QueueLots, Spread, Stranded;
    var book := BookOf(s, SOL);
    assert book == Book([], [Level(90, [ASK])]) && book.On(Sell) == [Level(90, [ASK])];
    OneAskIsGood(s.books);
    OfferOfOne();
    BidIsAccepted(s);
    StrandedFromTheBook(s, BID, 1, "USDT");
  }

  const BEFORE := State(map[], map[(1, "USDT") := Balance(200, 0), (2, "SOL") := Balance(1, 0)])

  /** One asks 90 for one unit, another bids 100 for two: the bidder's locked balance exceeds what the
      resting bid owes by 10. */
  lemma ImprovementStaysLocked()
    ensures var cs := [SubmitOrder(ASK), SubmitOrder(BID)];
            var s' := Run(BEFORE, cs);
            && Started(BEFORE) && ValidCommands(cs)
            && OverLocks(BID, Step(BEFORE, cs[0]).books[SOL])
            && At(s'.ledger, 1, "USDT").locked == Owed(s'.books, 1, "USDT") + 10
  {
    var cs := [SubmitOrder(ASK), SubmitOrder(BID)];
    hide Process, MatchSpec, Owed, Inv, Submit, Stranded, OverLocks;
    var s1 := Step(BEFORE, cs[0]);
    AskRests(BEFORE);
    assert s1.books == map[SOL := Book([], [Level(90, [ASK])])];
    BidStrandsTen(s1);
    S.Solvency(BEFORE, cs, 1, "USDT");
    assert cs[1..] == [SubmitOrder(BID)] && cs[1..][1..] == [];
    assert StrandedBy(s1, cs[1..], 1, "USDT") == 10;
  }
}
