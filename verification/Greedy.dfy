/** Price-time priority: the sweep against a plain fold over the other users' orders. */
module Greedy {
  import opened Types
  import opened OrderBooks
  import opened MatchingSpec
  import opened Obligations
  import opened SweepProperties

  datatype Walked = Walked(matches: seq<MatchResult>, taker: Order, rest: seq<Order>, gone: seq<Order>)

  /** Take from the first maker, then from the second, ... until the taker is done or a price is
      not acceptable.  `gone` collects makers that are neither traded away nor kept. */
  function Walk(t: Order, makers: seq<Order>): Walked
    decreases |makers|
  {
    if makers == [] || Exhausted(t) || !Crosses(t, makers[0].price.GetOr(1)) then
      Walked([], t, makers, [])
    else
      var m := makers[0];
      var p := m.price.GetOr(1);
      var amt := Fill(t, p, m);
      var t' := if 0 < amt then Take(t, p, amt) else t;
      var m' := if 0 < amt then Reduce(m, amt) else m;
      var w := Walk(t', makers[1..]);
      Walked((if 0 < amt then [MakeMatch(t, m, p, amt)] else []) + w.matches,
             w.taker,
             (if 0 < m'.remaining && Exhausted(t') then [m'] else []) + w.rest,
             (if 0 < m'.remaining && !Exhausted(t') then [m'] else []) + w.gone)
  }

  lemma {:induction false} WalkKeepsTaker(t: Order, makers: seq<Order>)
    ensures SameTaker(t, Walk(t, makers).taker)
    decreases |makers|
  {
    if makers != [] && !Exhausted(t) && Crosses(t, makers[0].price.GetOr(1)) {
      var amt := Fill(t, makers[0].price.GetOr(1), makers[0]);
      WalkKeepsTaker(if 0 < amt then Take(t, makers[0].price.GetOr(1), amt) else t, makers[1..]);
    }
  }

  /** The orders of everybody but `u`, order kept. */
  function Without(q: seq<Order>, u: nat): seq<Order> {
    if q == [] then [] else (if q[0].user == u then [] else [q[0]]) + Without(q[1..], u)
  }

  /** The side as one list, best price first and oldest first, without the orders of `u`. */
  function Others(levels: seq<Level>, u: nat): seq<Order> {
    if levels == [] then [] else Without(levels[0].queue, u) + Others(levels[1..], u)
  }

  lemma {:induction false} WithoutDistributes(q: seq<Order>, q': seq<Order>, u: nat)
    ensures Without(q + q', u) == Without(q, u) + Without(q', u)
  {
    if q == [] {
      assert q + q' == q';
    } else {
      assert (q + q')[1..] == q[1..] + q';
      WithoutDistributes(q[1..], q', u);
    }
  }

  lemma {:induction false} WithoutOwn(q: seq<Order>, u: nat)
    ensures (forall o :: o in q ==> o.user == u) <==> Without(q, u) == []
    ensures (forall o :: o in q ==> o.user != u) ==> Without(q, u) == q
  {
    if q != [] {
      assert q[0] in q;
      WithoutOwn(q[1..], u);
      assert q == [q[0]] + q[1..];
    }
  }

  lemma WalkStops(t: Order, makers: seq<Order>)
    requires makers == [] || Exhausted(t) || !Crosses(t, makers[0].price.GetOr(1))
    ensures Walk(t, makers) == Walked([], t, makers, [])
  {}

  lemma WalkStep(t: Order, makers: seq<Order>, p: Price, h: QueueOutcome)
    requires makers != [] && !Exhausted(t) && makers[0].price == Some(p) && Crosses(t, p)
    requires makers[0].user != t.user && 0 < makers[0].remaining && h == Pop(t, p, makers[0])
    requires t.side == Sell ==> 0 < Fill(t, p, makers[0])
    ensures var w := Walk(h.taker, makers[1..]);
            Walk(t, makers) == Walked(h.matches + w.matches, w.taker, h.front + w.rest, h.lost + w.gone)
  {}

  lemma QueueStep(t: Order, p: Price, q: seq<Order>)
    requires q != [] && !Exhausted(t)
    ensures var h := Pop(t, p, q[0]);
            var r := SweepQueue(h.taker, p, q[1..]);
            SweepQueue(t, p, q) ==
            QueueOutcome(h.matches + r.matches, r.taker, h.front + r.front, h.own + r.own, h.lost + r.lost)
  {}

  /** A walk over one queue and then `tail` is the queue's sweep and then a walk over `tail`. */
  ghost predicate SplitsAt(t: Order, p: Price, q: seq<Order>, tail: seq<Order>) {
    var r := SweepQueue(t, p, q);
    var w := Walk(r.taker, tail);
    Walk(t, Without(q, t.user) + tail) ==
    Walked(r.matches + w.matches, w.taker, Without(r.front, t.user) + w.rest, r.lost + w.gone)
  }

  lemma SplitAtOwn(t: Order, p: Price, q: seq<Order>, tail: seq<Order>)
    requires q != [] && !Exhausted(t) && q[0].user == t.user
    requires SplitsAt(t, p, q[1..], tail)
    ensures SplitsAt(t, p, q, tail)
  {
    hide Walk, SweepQueue;
    UntradedFront(t, p, q);
    assert Without(q, t.user) == Without(q[1..], t.user);
  }

  lemma SplitAtOther(t: Order, p: Price, q: seq<Order>, tail: seq<Order>, h: QueueOutcome)
    requires q != [] && !Exhausted(t) && h == Pop(t, p, q[0]) && Crosses(t, p) && q[0].user != t.user
    requires q[0].price == Some(p) && 0 < q[0].remaining && h.taker.user == t.user
    requires t.side == Sell ==> 0 < Fill(t, p, q[0])
    requires SplitsAt(h.taker, p, q[1..], tail)
    ensures SplitsAt(t, p, q, tail)
  {
    hide Walk, SweepQueue, Exhausted, Crosses;
    var r' := SweepQueue(h.taker, p, q[1..]);
    var makers := Without(q, t.user) + tail;
    assert makers[0] == q[0] && makers[1..] == Without(q[1..], t.user) + tail;
    WalkStep(t, makers, p, h);
    QueueStep(t, p, q);
    assert Without(h.front, t.user) == h.front;
    WithoutDistributes(h.front, r'.front, t.user);
    hide Pop, Without;
    Joins(h, r', Walk(r'.taker, tail), Without(r'.front, t.user));
  }

  /** Popping one maker, then the rest of the queue, then `w`: the order of joining is irrelevant. */
  lemma Joins(h: QueueOutcome, r: QueueOutcome, w: Walked, front: seq<Order>)
    ensures h.matches + (r.matches + w.matches) == (h.matches + r.matches) + w.matches
    ensures h.front + (front + w.rest) == (h.front + front) + w.rest
    ensures h.lost + (r.lost + w.gone) == (h.lost + r.lost) + w.gone
  {}

  lemma {:induction false} WalkAQueue(t: Order, p: Price, q: seq<Order>, tail: seq<Order>, side: Side, pair: Pair)
    requires TakerOk(t, side, pair) && GoodQueue(q, side, pair, p) && Crosses(t, p)
    ensures SplitsAt(t, p, q, tail)
    decreases |q|
  {
    if q == [] {
      assert Without(q, t.user) + tail == tail;
    } else if Exhausted(t) {
      WalkStops(t, tail);
      WalkStops(t, Without(q, t.user) + tail);
    } else {
      hide SplitsAt;
      var h := Pop(t, p, q[0]);
      assert q[0] in q;
      PopKeeps(t, p, q[0], side, pair);
      WalkAQueue(h.taker, p, q[1..], tail, side, pair);
      if q[0].user == t.user {
        SplitAtOwn(t, p, q, tail);
      } else {
        TradeKeeps(t, q[0], side, pair, p);
        SplitAtOther(t, p, q, tail, h);
      }
    }
  }

  /** No order behind an unacceptable best price is acceptable. */
  lemma {:induction false} BehindIsUnacceptable(t: Order, levels: seq<Level>, side: Side, pair: Pair, limit: Price)
    requires t.side == side.Opposite() && GoodLevels(levels, side, pair)
    requires !Crosses(t, limit) && forall r :: r in Prices(levels) ==> r == limit || Ahead(side, limit, r)
    ensures Walk(t, Others(levels, t.user)) == Walked([], t, Others(levels, t.user), [])
  {
    if levels != [] {
      BehindIsUnacceptable(t, levels[1..], side, pair, limit);
      var head := Without(levels[0].queue, t.user);
      WithoutIsASubset(levels[0].queue, t.user);
      if head != [] {
        assert head[0] in levels[0].queue && levels[0].price in Prices(levels);
        assert Others(levels, t.user)[0] == head[0];
      } else {
        assert Others(levels, t.user) == Others(levels[1..], t.user);
      }
    }
  }

  lemma {:induction false} WithoutIsASubset(q: seq<Order>, u: nat)
    ensures forall o :: o in Without(q, u) ==> o in q && o.user != u
  {
    if q != [] {
      WithoutIsASubset(q[1..], u);
    }
  }

  lemma OthersWithLevel(p: Price, q: seq<Order>, rest: seq<Level>, u: nat)
    ensures Others(WithLevel(p, q, rest), u) == Without(q, u) + Others(rest, u)
  {
    if q != [] {
      assert WithLevel(p, q, rest)[1..] == rest;
    }
  }

  /** What the other users see of an outcome: the matches, the taker, and which of their orders are
      left and lost. */
  function SeenByOthers(t: Order, o: Outcome): Walked {
    Walked(o.matches, o.taker, Others(o.levels, t.user), Without(o.lost, t.user))
  }

  ghost predicate AgreesWithGreedy(t: Order, o: Outcome, w: Walked) {
    SeenByOthers(t, o) == w
  }

  /** The nested loops are one greedy walk over the other users' orders in price-time order. */
  lemma {:induction false} SweepIsGreedy(t: Order, levels: seq<Level>, side: Side, pair: Pair)
    requires TakerOk(t, side, pair) && GoodLevels(levels, side, pair)
    ensures AgreesWithGreedy(t, Sweep(t, levels), Walk(t, Others(levels, t.user)))
    decreases |levels|
  {
    if levels == [] || Exhausted(t) {
    } else if !Crosses(t, levels[0].price) {
      BehindIsUnacceptable(t, levels, side, pair, levels[0].price);
    } else {
      var p, q, rest := levels[0].price, levels[0].queue, levels[1..];
      var r := SweepQueue(t, p, q);
      QueueKeeps(t, p, q, side, pair);
      WalkAQueue(t, p, q, Others(rest, t.user), side, pair);
      HungryFrontIsEmpty(t, p, q);
      if Exhausted(r.taker) {
        WalkStops(r.taker, Others(rest, t.user));
      } else {
        SweepIsGreedy(r.taker, rest, side, pair);
      }
      AssembleIsGreedy(t, r, p, rest, Walk(r.taker, Others(rest, t.user)));
    }
  }

  lemma AssembleIsGreedy(t: Order, r: QueueOutcome, p: Price, rest: seq<Level>, w: Walked)
    requires r.taker.user == t.user
    requires (forall o :: o in r.own ==> o.user == t.user) && (forall o :: o in r.lost ==> o.user != t.user)
    requires if Exhausted(r.taker) then w == Walked([], r.taker, Others(rest, t.user), [])
             else r.front == [] && AgreesWithGreedy(r.taker, Sweep(r.taker, rest), w)
    ensures AgreesWithGreedy(t, Assemble(r, p, rest),
                             Walked(r.matches + w.matches, w.taker, Without(r.front, t.user) + w.rest, r.lost + w.gone))
  {
    hide Sweep, Without, Others, WithLevel, Exhausted;
    WithoutOwn(r.own, t.user);
    WithoutOwn(r.lost, t.user);
    WithoutDistributes(r.front, r.own, t.user);
    OthersWithLevel(p, r.front + r.own, rest, t.user);
    WithoutOwn([], t.user);
    var o := Sweep(r.taker, rest);
    WithoutDistributes(r.lost + r.own, o.lost, t.user);
    WithoutDistributes(r.lost, r.own, t.user);
  }

  ghost predicate Resting(makers: seq<Order>, side: Side, pair: Pair) {
    forall m :: m in makers ==> m.price.Some? && RestsAt(m, side, pair, m.price.value)
  }

  lemma {:induction false} OthersRest(levels: seq<Level>, side: Side, pair: Pair, u: nat)
    requires GoodLevels(levels, side, pair)
    ensures Resting(Others(levels, u), side, pair)
  {
    if levels != [] {
      WithoutIsASubset(levels[0].queue, u);
      OthersRest(levels[1..], side, pair, u);
    }
  }

  /** `r` is a trade of taker `t` with maker `m`: both orders and users in their roles, at the maker's price. */
  predicate TradeBetween(t: Order, m: Order, r: MatchResult) {
    && r.pair == t.pair && m.price == Some(r.price) && 0 < r.amount <= m.remaining
    && if t.side == Buy
       then r.buyOrder == t.id && r.buyer == t.user && r.sellOrder == m.id && r.seller == m.user
       else r.sellOrder == t.id && r.seller == t.user && r.buyOrder == m.id && r.buyer == m.user
  }

  /** First in, first out: the `n` matches are with the first `n` makers, in order and at their
      prices, and all but the last take the whole maker. */
  ghost predicate InOrder(t: Order, makers: seq<Order>, ms: seq<MatchResult>) {
    var n := |ms|;
    n <= |makers| &&
    forall i :: 0 <= i < n ==>
      && TradeBetween(t, makers[i], ms[i])
      && (ms[i].amount == makers[i].remaining || i == n - 1)
  }

  /** What the matches leave of the makers: the rest of the list, headed by the last one if it was only
      partly taken; then only its counters have moved, by the traded amount. */
  function Untaken(makers: seq<Order>, ms: seq<MatchResult>): seq<Order>
    requires |ms| <= |makers|
  {
    var n := |ms|;
    if n > 0 && ms[n - 1].amount < makers[n - 1].remaining then
      var m, amt := makers[n - 1], ms[n - 1].amount;
      [m.(remaining := m.remaining - amt, filled := m.filled + amt)] + makers[n..]
    else makers[n..]
  }

  /** Nobody is lost, and everything that was not taken is left. */
  ghost predicate Fifo(t: Order, makers: seq<Order>, w: Walked) {
    InOrder(t, makers, w.matches) && w.gone == [] && w.rest == Untaken(makers, w.matches)
  }

  /** What a walk does with its first maker. */
  lemma WalkFirst(t: Order, makers: seq<Order>, p: Price, side: Side, pair: Pair)
    requires TakerOk(t, side, pair) && t.remainingQuote.None? && !Exhausted(t) && Crosses(t, p)
    requires makers != [] && RestsAt(makers[0], side, pair, p)
    ensures var m := makers[0];
            var amt := Fill(t, p, m);
            var t', m' := Take(t, p, amt), Reduce(m, amt);
            var w' := Walk(t', makers[1..]);
            && 0 < amt <= m.remaining && TakerOk(t', side, pair) && t'.remainingQuote.None?
            && (0 < m'.remaining ==> Exhausted(t') && w' == Walked([], t', makers[1..], []))
            && Walk(t, makers) == Walked([MakeMatch(t, m, p, amt)] + w'.matches, w'.taker,
                                         (if 0 < m'.remaining then [m'] else []) + w'.rest, w'.gone)
  {
    TradeKeeps(t, makers[0], side, pair, p);
    var t' := Take(t, p, Fill(t, p, makers[0]));
    if Exhausted(t') {
      WalkStops(t', makers[1..]);
    }
  }

  lemma {:induction false} WalkIsFifo(t: Order, makers: seq<Order>, side: Side, pair: Pair)
    requires TakerOk(t, side, pair) && t.remainingQuote.None? && Resting(makers, side, pair)
    ensures Fifo(t, makers, Walk(t, makers))
    decreases |makers|
  {
    if makers == [] || Exhausted(t) || !Crosses(t, makers[0].price.GetOr(1)) {
      WalkStops(t, makers);
      assert makers[0..] == makers;
    } else {
      hide Walk, Fifo, InOrder, Fill, Take, TakerOk, Exhausted, Crosses;
      var m := makers[0];
      assert m in makers;
      var p := m.price.value;
      var amt := Fill(t, p, m);
      WalkFirst(t, makers, p, side, pair);
      WalkIsFifo(Take(t, p, amt), makers[1..], side, pair);
      FifoStep(t, makers, p, amt, Walk(Take(t, p, amt), makers[1..]));
    }
  }

  /** The sweep of a quantity-based taker serves the other users first in, first out, and loses none
      of their orders. */
  lemma SweepIsFifo(t: Order, levels: seq<Level>, side: Side, pair: Pair)
    requires TakerOk(t, side, pair) && t.remainingQuote.None? && GoodLevels(levels, side, pair)
    ensures Fifo(t, Others(levels, t.user), SeenByOthers(t, Sweep(t, levels)))
  {
    SweepIsGreedy(t, levels, side, pair);
    OthersRest(levels, side, pair, t.user);
    WalkIsFifo(t, Others(levels, t.user), side, pair);
  }

  lemma InOrderStep(t: Order, makers: seq<Order>, p: Price, amt: int, ms: seq<MatchResult>)
    requires makers != [] && makers[0].price == Some(p) && 0 < amt <= makers[0].remaining
    requires InOrder(Take(t, p, amt), makers[1..], ms) && (amt < makers[0].remaining ==> ms == [])
    ensures InOrder(t, makers, [MakeMatch(t, makers[0], p, amt)] + ms)
  {
    var all := [MakeMatch(t, makers[0], p, amt)] + ms;
    var n := |all|;
    forall i | 0 <= i < n
      ensures TradeBetween(t, makers[i], all[i])
      ensures all[i].amount == makers[i].remaining || i == n - 1
    {
      if i > 0 {
        assert all[i] == ms[i - 1] && makers[i] == makers[1..][i - 1];
        assert TradeBetween(Take(t, p, amt), makers[1..][i - 1], ms[i - 1]);
      }
    }
  }

  lemma FifoStep(t: Order, makers: seq<Order>, p: Price, amt: int, w': Walked)
    requires makers != [] && makers[0].price == Some(p) && 0 < amt <= makers[0].remaining
    requires var t' := Take(t, p, amt);
             Fifo(t', makers[1..], w') && (amt < makers[0].remaining ==> w' == Walked([], t', makers[1..], []))
    ensures var m' := Reduce(makers[0], amt);
            Fifo(t, makers, Walked([MakeMatch(t, makers[0], p, amt)] + w'.matches, w'.taker,
                                   (if 0 < m'.remaining then [m'] else []) + w'.rest, w'.gone))
  {
    InOrderStep(t, makers, p, amt, w'.matches);
    hide InOrder;
    var n := |w'.matches| + 1;
    assert makers[1..][n - 1..] == makers[n..];
    if n > 1 {
      assert makers[n - 1] == makers[1..][n - 2];
    }
  }

  /** The makers a taker may trade with: those before the first unacceptable price. */
  function Acceptable(t: Order, makers: seq<Order>): seq<Order> {
    if makers == [] || !Crosses(t, makers[0].price.GetOr(1)) then [] else [makers[0]] + Acceptable(t, makers[1..])
  }

  lemma {:induction false} AllAcceptable(t: Order, makers: seq<Order>)
    requires forall m :: m in makers ==> m.price.Some? && Crosses(t, m.price.value)
    ensures Acceptable(t, makers) == makers
  {
    if makers != [] {
      assert makers[0] in makers;
      AllAcceptable(t, makers[1..]);
    }
  }

  lemma {:induction false} AcceptableFor(t: Order, t': Order, makers: seq<Order>)
    requires SameTaker(t, t')
    ensures Acceptable(t', makers) == Acceptable(t, makers)
  {
    if makers != [] {
      AcceptableFor(t, t', makers[1..]);
    }
  }

  /** A quantity-based taker takes all it wants, or everything acceptable. */
  lemma {:induction false} WalkAppetite(t: Order, makers: seq<Order>, side: Side, pair: Pair)
    requires TakerOk(t, side, pair) && t.remainingQuote.None? && Resting(makers, side, pair)
    ensures var lots := QueueLots(Acceptable(t, makers));
            && 0 <= lots
            && Walk(t, makers).taker.remaining == if lots < t.remaining then t.remaining - lots else 0
    decreases |makers|
  {
    if makers != [] && Crosses(t, makers[0].price.GetOr(1)) {
      var m := makers[0];
      assert m in makers;
      if Exhausted(t) {
        WalkAppetite(t, makers[1..], side, pair);
      } else {
        TradeKeeps(t, m, side, pair, m.price.value);
        var t' := Take(t, m.price.value, Fill(t, m.price.value, m));
        WalkAppetite(t', makers[1..], side, pair);
        AcceptableFor(t, t', makers[1..]);
      }
    }
  }

  ghost predicate Monotone(side: Side, ms: seq<MatchResult>) {
    forall i, j :: 0 <= i < j < |ms| ==> !Ahead(side, ms[j].price, ms[i].price)
  }

  /** Trade prices never get better as the sweep goes on. */
  lemma {:induction false} PricesAreMonotone(t: Order, levels: seq<Level>, side: Side, pair: Pair)
    requires TakerOk(t, side, pair) && GoodLevels(levels, side, pair)
    ensures Monotone(side, Sweep(t, levels).matches)
    decreases |levels|
  {
    if levels != [] && !Exhausted(t) && Crosses(t, levels[0].price) {
      var p := levels[0].price;
      var r := SweepQueue(t, p, levels[0].queue);
      QueueKeeps(t, p, levels[0].queue, side, pair);
      QueueMatchesAreSound(t, p, levels[0].queue, side, pair);
      if !Exhausted(r.taker) {
        PricesAreMonotone(r.taker, levels[1..], side, pair);
        MatchesAreSound(r.taker, levels[1..], side, pair);
        var later := Sweep(r.taker, levels[1..]).matches;
        var ms := r.matches + later;
        forall i, j | 0 <= i < j < |ms| ensures !Ahead(side, ms[j].price, ms[i].price) {
          if j < |r.matches| {
            assert r.matches[i] in r.matches && r.matches[j] in r.matches;
          } else if i < |r.matches| {
            assert r.matches[i] in r.matches && later[j - |r.matches|] in later;
          } else {
            assert !Ahead(side, later[j - |r.matches|].price, later[i - |r.matches|].price);
          }
        }
      } else {
        forall i, j | 0 <= i < j < |r.matches| ensures !Ahead(side, r.matches[j].price, r.matches[i].price) {
          assert r.matches[i] in r.matches && r.matches[j] in r.matches;
        }
      }
    }
  }

  /** Without own orders at acceptable prices a quantity-based taker discards nothing, so the side
      loses exactly the lots that were matched. */
  lemma NothingIsLost(t: Order, levels: seq<Level>, side: Side, pair: Pair)
    requires TakerOk(t, side, pair) && GoodLevels(levels, side, pair) && t.remainingQuote.None?
    requires forall o :: o in Flat(levels) && o.user == t.user ==> !Crosses(t, o.price.GetOr(1))
    ensures var o := Sweep(t, levels);
            && o.lost == []
            && Lots(levels) - Lots(o.levels) == BaseTotal(o.matches) == t.remaining - o.taker.remaining
  {
    var o := Sweep(t, levels);
    if o.lost != [] {
      assert o.lost[0] in o.lost;
      LostOrders(t, levels, side, pair);
    }
    SweepOwesSplit(t, levels, side, pair, 0, "");
    SweepSpends(t, levels);
  }

  // ---------------------------------------------------------------------------------------
  // Dust: when a market buy makes other users' orders disappear
  // ---------------------------------------------------------------------------------------

  /** Buying whole makers as long as the budget `rq` allows, is there a first maker it cannot buy
      whole, and is the budget left for it not a multiple of its price? */
  predicate LeavesDust(rq: int, makers: seq<Order>)
    decreases |makers|
  {
    if makers == [] || rq <= 0 then false
    else
      var p := makers[0].price.GetOr(1);
      if rq >= p * makers[0].remaining then LeavesDust(rq - p * makers[0].remaining, makers[1..])
      else rq % p != 0
  }

  lemma WholeUnits(rq: nat, p: Price, k: nat)
    ensures rq >= p * k <==> rq / p >= k
  {
    var n := rq / p;
    assert rq == p * n + rq % p;
    if n >= k {
      assert p * (n - k) >= 0;
    } else {
      assert p * (k - n - 1) >= 0;
    }
  }

  lemma BudgetMeetsMaker(t: Order, m: Order, p: Price)
    requires t.remainingQuote.Some? && !Exhausted(t) && 0 < m.remaining
    ensures var rq := t.remainingQuote.value;
            if rq >= p * m.remaining then Fill(t, p, m) == m.remaining
            else Fill(t, p, m) == rq / p < m.remaining && rq - rq / p * p == rq % p
  {
    WholeUnits(t.remainingQuote.value, p, m.remaining);
  }

  /** Where a budget leaves the first maker it meets: the maker is gone, and the taker still
      hungry, exactly when a remainder is left over. */
  lemma PopOnBudget(t: Order, m: Order, p: Price, pair: Pair)
    requires TakerOk(t, Sell, pair) && t.remainingQuote.Some? && !Exhausted(t)
    requires RestsAt(m, Sell, pair, p) && m.user != t.user
    ensures var rq := t.remainingQuote.value;
            var h := Pop(t, p, m);
            && TakerOk(h.taker, Sell, pair) && h.taker.remainingQuote.Some?
            && (if rq >= p * m.remaining
                then h.lost == [] && h.taker.remainingQuote == Some(rq - p * m.remaining)
                else h.taker.remainingQuote == Some(rq % p) && (h.lost != [] <==> rq % p != 0))
  {
    TradeKeeps(t, m, Sell, pair, p);
    BudgetMeetsMaker(t, m, p);
  }

  /** Makers of other users, in price order. */
  ghost predicate Queued(t: Order, makers: seq<Order>, pair: Pair) {
    makers == [] ||
    (&& makers[0].price.Some? && RestsAt(makers[0], Sell, pair, makers[0].price.value) && makers[0].user != t.user
     && (forall m :: m in makers[1..] ==> m.price.Some? && makers[0].price.value <= m.price.value)
     && Queued(t, makers[1..], pair))
  }

  lemma {:induction false} QueuedFor(t: Order, t': Order, makers: seq<Order>, pair: Pair)
    requires t.user == t'.user
    ensures Queued(t, makers, pair) == Queued(t', makers, pair)
  {
    if makers != [] {
      QueuedFor(t, t', makers[1..], pair);
    }
  }

  lemma {:induction false} QueueIsQueued(t: Order, p: Price, q: seq<Order>, tail: seq<Order>, pair: Pair)
    requires GoodQueue(q, Sell, pair, p) && Queued(t, tail, pair)
    requires forall m :: m in tail ==> m.price.Some? && p <= m.price.value
    ensures Queued(t, Without(q, t.user) + tail, pair)
    ensures forall m :: m in Without(q, t.user) + tail ==> m.price.Some? && p <= m.price.value
  {
    if q == [] {
      assert Without(q, t.user) + tail == tail;
    } else {
      QueueIsQueued(t, p, q[1..], tail, pair);
      assert q[0] in q;
      var all := Without(q, t.user) + tail;
      if q[0].user == t.user {
        assert all == Without(q[1..], t.user) + tail;
      } else {
        assert all[1..] == Without(q[1..], t.user) + tail;
      }
    }
  }

  lemma {:induction false} OthersAreQueued(t: Order, levels: seq<Level>, pair: Pair)
    requires GoodLevels(levels, Sell, pair)
    ensures Queued(t, Others(levels, t.user), pair)
    ensures forall m :: m in Others(levels, t.user) ==> m.price.Some? && m.price.value in Prices(levels)
  {
    if levels != [] {
      OthersAreQueued(t, levels[1..], pair);
      QueueIsQueued(t, levels[0].price, levels[0].queue, Others(levels[1..], t.user), pair);
      WithoutIsASubset(levels[0].queue, t.user);
    }
  }

  /** A budget below every price buys nothing more. */
  lemma {:induction false} TooPoor(t: Order, makers: seq<Order>, pair: Pair)
    requires TakerOk(t, Sell, pair) && t.remainingQuote.Some? && !Exhausted(t) && Queued(t, makers, pair)
    requires forall m :: m in makers ==> m.price.Some? && t.remainingQuote.value < m.price.value
    ensures Walk(t, makers) == Walked([], t, [], makers)
    decreases |makers|
  {
    hide Walk;
    if makers == [] || !Crosses(t, makers[0].price.value) {
      WalkStops(t, makers);
    } else {
      var p := makers[0].price.value;
      assert makers[0] in makers;
      assert t.remainingQuote.value / p == 0;
      WalkStep(t, makers, p, Pop(t, p, makers[0]));
      TooPoor(t, makers[1..], pair);
    }
  }

  lemma {:induction false} GoneIffDust(t: Order, makers: seq<Order>, pair: Pair)
    requires TakerOk(t, Sell, pair) && t.remainingQuote.Some? && Queued(t, makers, pair)
    ensures Walk(t, makers).gone != [] <==> LeavesDust(t.remainingQuote.value, makers)
    ensures Walk(t, makers).gone != [] ==> !Exhausted(Walk(t, makers).taker)
    decreases |makers|
  {
    if makers == [] || Exhausted(t) {
      WalkStops(t, makers);
    } else {
      hide Walk;
      var m := makers[0];
      var p := m.price.value;
      var h := Pop(t, p, m);
      PopOnBudget(t, m, p, pair);
      WalkStep(t, makers, p, h);
      QueuedFor(t, h.taker, makers[1..], pair);
      if t.remainingQuote.value >= p * m.remaining {
        GoneIffDust(h.taker, makers[1..], pair);
      } else if Exhausted(h.taker) {
        WalkStops(h.taker, makers[1..]);
      } else {
        TooPoor(h.taker, makers[1..], pair);
      }
    }
  }

  /** A budget is spent in price-time order as far as it goes: what is left over is too little for one
      more unit of the next maker, or nobody is left to buy from.  What was not taken is all left or,
      where a remainder stays, all lost. */
  ghost predicate SpentInOrder(t: Order, makers: seq<Order>, w: Walked) {
    && InOrder(t, makers, w.matches)
    && w.taker.remainingQuote.Some? && 0 <= w.taker.remainingQuote.value
    && (w.gone != [] ==> w.taker.remainingQuote.value < w.gone[0].price.GetOr(1))
    && (w.gone == [] && !Exhausted(w.taker) ==>
          |w.matches| == |makers| && forall i :: 0 <= i < |makers| ==> w.matches[i].amount == makers[i].remaining)
    && (if w.gone == [] then w.rest == Untaken(makers, w.matches)
        else w.rest == [] && w.gone == Untaken(makers, w.matches))
  }

  lemma UntakenStep(makers: seq<Order>, r: MatchResult, ms: seq<MatchResult>)
    requires |ms| < |makers| && r.amount == makers[0].remaining
    ensures Untaken(makers, [r] + ms) == Untaken(makers[1..], ms)
  {
    var all := [r] + ms;
    assert makers[1..][|ms|..] == makers[|all|..];
    if ms != [] {
      assert all[|all| - 1] == ms[|ms| - 1] && makers[|all| - 1] == makers[1..][|ms| - 1];
    }
  }

  lemma {:induction false} BudgetIsSpentInOrder(t: Order, makers: seq<Order>, pair: Pair)
    requires TakerOk(t, Sell, pair) && t.remainingQuote.Some? && Queued(t, makers, pair)
    ensures SpentInOrder(t, makers, Walk(t, makers))
    decreases |makers|
  {
    if makers == [] || Exhausted(t) {
      WalkStops(t, makers);
      assert makers[0..] == makers;
    } else {
      hide Walk;
      var m := makers[0];
      var p := m.price.value;
      if t.remainingQuote.value >= p * m.remaining {
        var h := Pop(t, p, m);
        PopOnBudget(t, m, p, pair);
        BudgetMeetsMaker(t, m, p);
        WalkStep(t, makers, p, h);
        QueuedFor(t, h.taker, makers[1..], pair);
        BudgetIsSpentInOrder(h.taker, makers[1..], pair);
        hide Pop, Queued, SpentInOrder;
        WholeMakerStep(t, makers, p, Walk(h.taker, makers[1..]));
      } else {
        LastMaker(t, makers, p, pair);
        hide Queued, SpentInOrder, Fill;
        var amt := Fill(t, p, m);
        if amt == 0 {
          assert [m] + makers[1..] == makers;
          NoneBought(t, makers, p, Walk(t, makers));
        } else {
          SomeBought(t, makers, p, amt, Walk(t, makers));
        }
      }
    }
  }

  /** A walk that meets a maker its budget cannot buy whole. */
  lemma LastMaker(t: Order, makers: seq<Order>, p: Price, pair: Pair)
    requires TakerOk(t, Sell, pair) && t.remainingQuote.Some? && !Exhausted(t) && Queued(t, makers, pair)
    requires makers != [] && makers[0].price == Some(p) && t.remainingQuote.value < p * makers[0].remaining
    ensures var m, rq := makers[0], t.remainingQuote.value;
            var amt := Fill(t, p, m);
            var left := [if 0 < amt then Reduce(m, amt) else m] + makers[1..];
            var w := Walk(t, makers);
            && 0 <= amt < m.remaining && (amt == 0 ==> rq % p != 0)
            && w.matches == (if 0 < amt then [MakeMatch(t, m, p, amt)] else [])
            && w.taker.remainingQuote == Some(rq % p)
            && (if rq % p == 0 then w.rest == left && w.gone == [] else w.rest == [] && w.gone == left)
  {
    hide Walk;
    var m := makers[0];
    var h := Pop(t, p, m);
    PopOnBudget(t, m, p, pair);
    BudgetMeetsMaker(t, m, p);
    WalkStep(t, makers, p, h);
    QueuedFor(t, h.taker, makers[1..], pair);
    if Exhausted(h.taker) {
      WalkStops(h.taker, makers[1..]);
    } else {
      TooPoor(h.taker, makers[1..], pair);
    }
  }

  lemma NoneBought(t: Order, makers: seq<Order>, p: Price, w: Walked)
    requires makers != [] && makers[0].price == Some(p)
    requires w.matches == [] && w.rest == [] && w.gone == makers
    requires w.taker.remainingQuote.Some? && 0 <= w.taker.remainingQuote.value < p
    ensures SpentInOrder(t, makers, w)
  {
    assert makers[0..] == makers;
  }

  lemma SomeBought(t: Order, makers: seq<Order>, p: Price, amt: int, w: Walked)
    requires makers != [] && makers[0].price == Some(p) && 0 < amt < makers[0].remaining
    requires w.matches == [MakeMatch(t, makers[0], p, amt)]
    requires w.taker.remainingQuote.Some? && 0 <= w.taker.remainingQuote.value < p
    requires var left := [Reduce(makers[0], amt)] + makers[1..];
             if Exhausted(w.taker) then w.rest == left && w.gone == [] else w.rest == [] && w.gone == left
    ensures SpentInOrder(t, makers, w)
  {
    InOrderStep(t, makers, p, amt, []);
    assert w.matches + [] == w.matches;
    hide InOrder;
  }

  /** The sweep of a market buy spends its budget on the other users' orders in that order. */
  lemma SweepSpendsInOrder(t: Order, levels: seq<Level>, pair: Pair)
    requires TakerOk(t, Sell, pair) && t.remainingQuote.Some? && GoodLevels(levels, Sell, pair)
    ensures SpentInOrder(t, Others(levels, t.user), SeenByOthers(t, Sweep(t, levels)))
  {
    SweepIsGreedy(t, levels, Sell, pair);
    OthersAreQueued(t, levels, pair);
    BudgetIsSpentInOrder(t, Others(levels, t.user), pair);
  }

  lemma WholeMakerStep(t: Order, makers: seq<Order>, p: Price, w': Walked)
    requires makers != [] && makers[0].price == Some(p) && 0 < makers[0].remaining && makers[0].user != t.user
    requires !Exhausted(t) && Fill(t, p, makers[0]) == makers[0].remaining
    requires SpentInOrder(Take(t, p, makers[0].remaining), makers[1..], w')
    ensures var h := Pop(t, p, makers[0]);
            && h.taker == Take(t, p, makers[0].remaining)
            && SpentInOrder(t, makers, Walked(h.matches + w'.matches, w'.taker, h.front + w'.rest, h.lost + w'.gone))
  {
    InOrderStep(t, makers, p, makers[0].remaining, w'.matches);
    UntakenStep(makers, MakeMatch(t, makers[0], p, makers[0].remaining), w'.matches);
    hide InOrder, Untaken;
    assert forall i :: 0 < i < |makers| ==> makers[i] == makers[1..][i - 1];
  }

  /** A market buy discards another user's order exactly when its budget leaves dust; the dust
      then empties the whole side. */
  lemma MarketBuyLosesMakers(t: Order, levels: seq<Level>, pair: Pair)
    requires TakerOk(t, Sell, pair) && GoodLevels(levels, Sell, pair) && t.remainingQuote.Some?
    ensures var o := Sweep(t, levels);
            var dust := LeavesDust(t.remainingQuote.value, Others(levels, t.user));
            && ((exists m :: m in o.lost && m.user != t.user) <==> dust)
            && (dust ==> o.levels == [])
  {
    hide Sweep, Walk, LeavesDust, Others, Without;
    var o := Sweep(t, levels);
    SweepIsGreedy(t, levels, Sell, pair);
    OthersAreQueued(t, levels, pair);
    GoneIffDust(t, Others(levels, t.user), pair);
    SweepKeeps(t, levels, Sell, pair);
    WithoutIsASubset(o.lost, t.user);
    WithoutOwn(o.lost, t.user);
    var gone := Without(o.lost, t.user);
    if gone != [] {
      assert gone[0] in gone;
      assert gone[0] in o.lost && gone[0].user != t.user;
    }
  }
}
