/** What a sweep keeps and what it moves. */
module SweepProperties {
  import opened Types
  import opened OrderBooks
  import opened MatchingSpec
  import opened Obligations

  /** A budget buys no more than it can pay for. */
  lemma FillIsAffordable(t: Order, p: Price, m: Order)
    requires t.remainingQuote.Some? && 0 <= t.remainingQuote.value
    ensures Fill(t, p, m) * p <= t.remainingQuote.value
  {
    var rq := t.remainingQuote.value;
    var n := rq / p;
    assert n * p <= rq;
    var amt := Fill(t, p, m);
    assert (n - amt) * p >= 0;
    assert n * p - amt * p == (n - amt) * p;
  }

  lemma FillIsBounded(t: Order, p: Price, m: Order)
    requires !Exhausted(t) && 0 < m.remaining
    requires t.remainingQuote.None? ==> 0 < t.remaining
    ensures 0 <= Fill(t, p, m) <= m.remaining
    ensures t.remainingQuote.None? ==> 0 < Fill(t, p, m) <= t.remaining
  {
    if t.remainingQuote.Some? {
      assert 0 <= t.remainingQuote.value / p;
    }
  }

  /** A trade leaves a sound taker and, if anything is left of it, a sound maker. */
  lemma TradeKeeps(t: Order, m: Order, side: Side, pair: Pair, p: Price)
    requires TakerOk(t, side, pair) && RestsAt(m, side, pair, p) && !Exhausted(t)
    ensures var amt := Fill(t, p, m);
            var t' := Take(t, p, amt);
            var m' := Reduce(m, amt);
            && 0 <= amt <= m.remaining
            && TakerOk(t', side, pair) && SameTaker(t, t')
            && (0 < m'.remaining ==> RestsAt(m', side, pair, p))
            && (t.remainingQuote.None? ==> 0 < amt && (0 < m'.remaining ==> Exhausted(t')))
  {
    FillIsBounded(t, p, m);
    if t.remainingQuote.Some? {
      FillIsAffordable(t, p, m);
    }
  }

  lemma PriceDistributes(p: Price, n: int, k: int)
    ensures p * n == p * (n - k) + p * k
  {}

  /** What a maker owes falls by exactly its leg of the match. */
  lemma MakerPays(t: Order, m: Order, side: Side, pair: Pair, p: Price, amt: int, u: nat, mint: string)
    requires RestsAt(m, side, pair, p) && t.side == side.Opposite() && t.pair == pair
    ensures OrderOwes(m, u, mint) == OrderOwes(Reduce(m, amt), u, mint) + Leg(side, MakeMatch(t, m, p, amt), u, mint)
  {
    if side == Buy {
      PriceDistributes(p, m.remaining, amt);
    }
  }

  /** A match made by taker `t`: acceptable price, something traded, two different users. */
  predicate SoundMatch(t: Order, m: MatchResult) {
    && m.pair == t.pair && 0 < m.amount && Crosses(t, m.price) && m.buyer != m.seller
    && if t.side == Buy then m.buyer == t.user && m.buyOrder == t.id else m.seller == t.user && m.sellOrder == t.id
  }

  // ---------------------------------------------------------------------------------------
  // One maker, then one queue
  // ---------------------------------------------------------------------------------------

  lemma PopKeeps(t: Order, p: Price, m: Order, side: Side, pair: Pair)
    requires TakerOk(t, side, pair) && RestsAt(m, side, pair, p) && Crosses(t, p) && !Exhausted(t)
    ensures var h := Pop(t, p, m);
            && TakerOk(h.taker, side, pair) && SameTaker(t, h.taker)
            && GoodQueue(h.front, side, pair, p) && GoodQueue(h.own, side, pair, p) && GoodQueue(h.lost, side, pair, p)
            && (forall o :: o in h.own ==> o.user == t.user)
            && (forall o :: o in h.lost ==> o.user != t.user)
            && (t.remainingQuote.None? ==> h.lost == [])
            && forall r :: r in h.matches ==> SoundMatch(t, r) && r.price == p
  {
    TradeKeeps(t, m, side, pair, p);
  }

  lemma {:induction false} QueueKeeps(t: Order, p: Price, q: seq<Order>, side: Side, pair: Pair)
    requires TakerOk(t, side, pair) && GoodQueue(q, side, pair, p) && Crosses(t, p)
    ensures var r := SweepQueue(t, p, q);
            && TakerOk(r.taker, side, pair) && SameTaker(t, r.taker)
            && GoodQueue(r.front, side, pair, p) && GoodQueue(r.own, side, pair, p) && GoodQueue(r.lost, side, pair, p)
            && (forall o :: o in r.own ==> o.user == t.user && o in q)
            && (forall o :: o in r.lost ==> o.user != t.user)
            && (t.remainingQuote.None? ==> r.lost == [])
    decreases |q|
  {
    if q != [] && !Exhausted(t) {
      PopKeeps(t, p, q[0], side, pair);
      QueueKeeps(Pop(t, p, q[0]).taker, p, q[1..], side, pair);
    }
  }

  lemma {:induction false} QueueMatchesAreSound(t: Order, p: Price, q: seq<Order>, side: Side, pair: Pair)
    requires TakerOk(t, side, pair) && GoodQueue(q, side, pair, p) && Crosses(t, p)
    ensures forall m :: m in SweepQueue(t, p, q).matches ==> SoundMatch(t, m) && m.price == p
    decreases |q|
  {
    if q != [] && !Exhausted(t) {
      var t' := Pop(t, p, q[0]).taker;
      PopKeeps(t, p, q[0], side, pair);
      QueueMatchesAreSound(t', p, q[1..], side, pair);
      assert forall m :: SoundMatch(t', m) ==> SoundMatch(t, m);
    }
  }

  lemma PopOwesSplit(t: Order, p: Price, m: Order, side: Side, pair: Pair, u: nat, mint: string)
    requires t.side == side.Opposite() && t.pair == pair && RestsAt(m, side, pair, p)
    ensures var h := Pop(t, p, m);
            && OrderOwes(m, u, mint) == QueueOwes(h.front, u, mint) + QueueOwes(h.own, u, mint)
                                        + QueueOwes(h.lost, u, mint) + Legs(side, h.matches, u, mint)
            && m.remaining == QueueLots(h.front) + QueueLots(h.own) + QueueLots(h.lost) + BaseTotal(h.matches)
  {
    MakerPays(t, m, side, pair, p, Fill(t, p, m), u, mint);
  }

  lemma {:induction false} QueueOwesSplit(t: Order, p: Price, q: seq<Order>,
                                          side: Side, pair: Pair, u: nat, mint: string)
    requires t.side == side.Opposite() && t.pair == pair && GoodQueue(q, side, pair, p)
    ensures var r := SweepQueue(t, p, q);
            && QueueOwes(q, u, mint) == QueueOwes(r.front, u, mint) + QueueOwes(r.own, u, mint)
                                        + QueueOwes(r.lost, u, mint) + Legs(side, r.matches, u, mint)
            && QueueLots(q) == QueueLots(r.front) + QueueLots(r.own) + QueueLots(r.lost) + BaseTotal(r.matches)
    decreases |q|
  {
    if q != [] && !Exhausted(t) {
      var h := Pop(t, p, q[0]);
      var r := SweepQueue(h.taker, p, q[1..]);
      PopOwesSplit(t, p, q[0], side, pair, u, mint);
      QueueOwesSplit(h.taker, p, q[1..], side, pair, u, mint);
      QueueSums(h.front, r.front, u, mint);
      QueueSums(h.own, r.own, u, mint);
      QueueSums(h.lost, r.lost, u, mint);
      MatchSums(h.matches, r.matches, u, mint);
    }
  }

  /** `t'` is `t` after paying for `ms` out of its budget or its quantity. */
  predicate Spent(t: Order, ms: seq<MatchResult>, t': Order) {
    && (if t.remainingQuote.Some?
        then t'.remainingQuote == Some(t.remainingQuote.value - QuoteTotal(ms))
        else t'.remainingQuote.None? && t'.remaining == t.remaining - BaseTotal(ms))
    && t'.filled == t.filled + BaseTotal(ms)
  }

  lemma PopSpends(t: Order, p: Price, m: Order)
    ensures Spent(t, Pop(t, p, m).matches, Pop(t, p, m).taker)
  {
    var amt := Fill(t, p, m);
    var r := MakeMatch(t, m, p, amt);
    assert [r][1..] == [];
    assert QuoteTotal([r]) == p * amt && BaseTotal([r]) == amt;
  }

  lemma SpentTwice(t: Order, ms: seq<MatchResult>, t': Order, ms': seq<MatchResult>, t'': Order)
    requires Spent(t, ms, t') && Spent(t', ms', t'')
    ensures Spent(t, ms + ms', t'')
  {
    MatchSums(ms, ms', 0, "");
  }

  lemma {:induction false} QueueSpends(t: Order, p: Price, q: seq<Order>)
    ensures Spent(t, SweepQueue(t, p, q).matches, SweepQueue(t, p, q).taker)
    decreases |q|
  {
    if q != [] && !Exhausted(t) {
      var h := Pop(t, p, q[0]);
      var r := SweepQueue(h.taker, p, q[1..]);
      PopSpends(t, p, q[0]);
      QueueSpends(h.taker, p, q[1..]);
      SpentTwice(t, h.matches, h.taker, r.matches, r.taker);
    }
  }

  // ---------------------------------------------------------------------------------------
  // The whole side
  // ---------------------------------------------------------------------------------------

  lemma {:induction false} QueueKeepsTaker(t: Order, p: Price, q: seq<Order>)
    ensures SameTaker(t, SweepQueue(t, p, q).taker)
    decreases |q|
  {
    if q != [] && !Exhausted(t) {
      QueueKeepsTaker(Pop(t, p, q[0]).taker, p, q[1..]);
    }
  }

  /** Whatever the book looks like, matching only moves the taker's counters. */
  lemma {:induction false} SweepKeepsTaker(t: Order, levels: seq<Level>)
    ensures SameTaker(t, Sweep(t, levels).taker)
    decreases |levels|
  {
    if levels != [] && !Exhausted(t) && Crosses(t, levels[0].price) {
      QueueKeepsTaker(t, levels[0].price, levels[0].queue);
      SweepKeepsTaker(SweepQueue(t, levels[0].price, levels[0].queue).taker, levels[1..]);
    }
  }

  /** The side stays well formed and gains no price; the sweep stops only when the taker is
      done, the side is empty, or its best price is not acceptable. */
  lemma {:induction false} SweepKeeps(t: Order, levels: seq<Level>, side: Side, pair: Pair)
    requires TakerOk(t, side, pair) && GoodLevels(levels, side, pair)
    ensures var o := Sweep(t, levels);
            && TakerOk(o.taker, side, pair) && SameTaker(t, o.taker)
            && GoodLevels(o.levels, side, pair) && Prices(o.levels) <= Prices(levels)
            && (Exhausted(o.taker) || o.levels == [] || !Crosses(t, o.levels[0].price))
    decreases |levels|
  {
    if levels != [] && !Exhausted(t) && Crosses(t, levels[0].price) {
      var p, q := levels[0].price, levels[0].queue;
      var r := SweepQueue(t, p, q);
      QueueKeeps(t, p, q, side, pair);
      if Exhausted(r.taker) {
        if r.front + r.own != [] {
          assert WithLevel(p, r.front + r.own, levels[1..])[1..] == levels[1..];
        }
      } else {
        SweepKeeps(r.taker, levels[1..], side, pair);
      }
    }
  }

  /** A side as one list: best price first, oldest first within a price. */
  function Flat(levels: seq<Level>): seq<Order> {
    if levels == [] then [] else levels[0].queue + Flat(levels[1..])
  }

  /** No quantity-based taker makes another user's order disappear, and every discarded order
      was a resting order of the swept side. */
  lemma {:induction false} LostOrders(t: Order, levels: seq<Level>, side: Side, pair: Pair)
    requires TakerOk(t, side, pair) && GoodLevels(levels, side, pair)
    ensures forall o :: o in Sweep(t, levels).lost ==>
                          && o.price.Some? && RestsAt(o, side, pair, o.price.value) && Crosses(t, o.price.value)
                          && (t.remainingQuote.None? ==> o.user == t.user)
                          && (o.user == t.user ==> o in Flat(levels))
    decreases |levels|
  {
    if levels != [] && !Exhausted(t) && Crosses(t, levels[0].price) {
      var r := SweepQueue(t, levels[0].price, levels[0].queue);
      QueueKeeps(t, levels[0].price, levels[0].queue, side, pair);
      if !Exhausted(r.taker) {
        LostOrders(r.taker, levels[1..], side, pair);
      }
    }
  }

  lemma {:induction false} MatchesAreSound(t: Order, levels: seq<Level>, side: Side, pair: Pair)
    requires TakerOk(t, side, pair) && GoodLevels(levels, side, pair)
    ensures forall m :: m in Sweep(t, levels).matches ==> SoundMatch(t, m) && m.price in Prices(levels)
    decreases |levels|
  {
    if levels != [] && !Exhausted(t) && Crosses(t, levels[0].price) {
      var r := SweepQueue(t, levels[0].price, levels[0].queue);
      QueueKeeps(t, levels[0].price, levels[0].queue, side, pair);
      QueueMatchesAreSound(t, levels[0].price, levels[0].queue, side, pair);
      if !Exhausted(r.taker) {
        MatchesAreSound(r.taker, levels[1..], side, pair);
        assert forall m :: SoundMatch(r.taker, m) ==> SoundMatch(t, m);
      }
    }
  }

  /** The makers' ledger: what the side owed is still owed, or was lost with a discarded order,
      or is what the matches take from the makers.  The same holds for lots. */
  lemma {:induction false} SweepOwesSplit(t: Order, levels: seq<Level>, side: Side, pair: Pair, u: nat, mint: string)
    requires TakerOk(t, side, pair) && GoodLevels(levels, side, pair)
    ensures var o := Sweep(t, levels);
            && LevelsOwe(levels, u, mint) ==
               LevelsOwe(o.levels, u, mint) + QueueOwes(o.lost, u, mint) + Legs(side, o.matches, u, mint)
            && Lots(levels) == Lots(o.levels) + QueueLots(o.lost) + BaseTotal(o.matches)
    decreases |levels|
  {
    if levels != [] && !Exhausted(t) && Crosses(t, levels[0].price) {
      var p, q := levels[0].price, levels[0].queue;
      var r := SweepQueue(t, p, q);
      QueueKeeps(t, p, q, side, pair);
      QueueOwesSplit(t, p, q, side, pair, u, mint);
      if Exhausted(r.taker) {
        QueueSums(r.front, r.own, u, mint);
        assert r.front + r.own != [] ==> WithLevel(p, r.front + r.own, levels[1..])[1..] == levels[1..];
      } else {
        HungryFrontIsEmpty(t, p, q);
        SweepOwesSplit(r.taker, levels[1..], side, pair, u, mint);
        var o := Sweep(r.taker, levels[1..]);
        MatchSums(r.matches, o.matches, u, mint);
        QueueSums(r.lost + r.own, o.lost, u, mint);
        QueueSums(r.lost, r.own, u, mint);
      }
    }
  }

  /** The taker's ledger: its quantity, or its budget, falls by exactly what was matched. */
  lemma {:induction false} SweepSpends(t: Order, levels: seq<Level>)
    ensures Spent(t, Sweep(t, levels).matches, Sweep(t, levels).taker)
    decreases |levels|
  {
    if levels != [] && !Exhausted(t) && Crosses(t, levels[0].price) {
      var r := SweepQueue(t, levels[0].price, levels[0].queue);
      QueueSpends(t, levels[0].price, levels[0].queue);
      if !Exhausted(r.taker) {
        SweepSpends(r.taker, levels[1..]);
        var o := Sweep(r.taker, levels[1..]);
        SpentTwice(t, r.matches, r.taker, o.matches, o.taker);
      }
    }
  }

  /** The taker's own legs: nobody else pays on its side, and it pays exactly the total. */
  lemma {:induction false} TakerPays(t: Order, ms: seq<MatchResult>, u: nat, mint: string)
    requires forall m :: m in ms ==> SoundMatch(t, m)
    ensures Legs(t.side, ms, u, mint) == if u == t.user && mint == PayMint(t) then Paid(t.side, ms) else 0
  {
    if ms != [] {
      assert SoundMatch(t, ms[0]) by { assert ms[0] in ms; }
      TakerPays(t, ms[1..], u, mint);
    }
  }

  /** A limit buyer never pays more than its limit for what it gets. */
  lemma {:induction false} WithinLimit(t: Order, ms: seq<MatchResult>)
    requires t.side == Buy && t.style == Limit && forall m :: m in ms ==> SoundMatch(t, m)
    ensures 0 <= BaseTotal(ms) && 0 <= QuoteTotal(ms) <= t.PriceOrZero() * BaseTotal(ms)
  {
    if ms != [] {
      assert SoundMatch(t, ms[0]) by { assert ms[0] in ms; }
      WithinLimit(t, ms[1..]);
      var limit, m := t.PriceOrZero(), ms[0];
      assert (limit - m.price) * m.amount >= 0;
      assert limit * m.amount - m.price * m.amount == (limit - m.price) * m.amount;
      assert limit * (m.amount + BaseTotal(ms[1..])) == limit * m.amount + limit * BaseTotal(ms[1..]);
    }
  }

  lemma {:induction false} TotalsArePositive(t: Order, ms: seq<MatchResult>)
    requires forall m :: m in ms ==> SoundMatch(t, m)
    ensures |ms| <= BaseTotal(ms) && |ms| <= QuoteTotal(ms)
  {
    if ms != [] {
      assert SoundMatch(t, ms[0]) by { assert ms[0] in ms; }
      TotalsArePositive(t, ms[1..]);
      assert ms[0].price * ms[0].amount >= 1;
    }
  }
}
