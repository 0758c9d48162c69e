/** Market buys under any rounding of the quotient of budget and price.

    `Walk` rounds down.  A library that rounds to the nearest digit can round up, and then a taker buys for
    more than its budget. */
module Rounding {
  import opened Types
  import opened OrderBooks
  import opened MatchingSpec
  import opened Obligations
  import opened SweepProperties
  import opened Greedy
  import opened Ledgers
  import opened EngineSpec
  import opened Solvency

  /** Is an inexact quotient of a budget by a price rounded up? */
  type Rule = (int, int) -> bool

  predicate RoundsUp(up: Rule, rq: int, p: Price) {
    rq % p != 0 && up(rq, p)
  }

  function Quotient(up: Rule, rq: int, p: Price): int {
    rq / p + if RoundsUp(up, rq, p) then 1 else 0
  }

  /** A remainder that was rounded off is not rounded up at the same or a higher price. */
  ghost predicate Sensible(up: Rule) {
    forall rq: nat, p: Price, p': Price ::
      !RoundsUp(up, rq, p) && p <= p' ==> !RoundsUp(up, rq % p, p')
  }

  function Down(rq: int, p: int): bool {
    false
  }

  /** Rounding to the nearest unit, ties to the even one. */
  function Nearest(rq: int, p: int): bool {
    p > 0 && (2 * (rq % p) > p || (2 * (rq % p) == p && rq / p % 2 == 1))
  }

  lemma RulesAreSensible()
    ensures Sensible(Nearest) && Sensible(Down)
  {
    forall rq: nat, p: Price, p': Price | !RoundsUp(Nearest, rq, p) && p <= p'
      ensures !RoundsUp(Nearest, rq % p, p')
    {
      NearestLeavesLittle(rq, p, p');
    }
  }

  lemma NearestLeavesLittle(rq: nat, p: Price, p': Price)
    requires !RoundsUp(Nearest, rq, p) && p <= p'
    ensures !RoundsUp(Nearest, rq % p, p')
  {
    var r := rq % p;
    QuotientIs(r, p', 0, r);
    assert 2 * r <= p;
  }

  /** `Walk` of a budget under a rounding rule. */
  function WalkBy(up: Rule, t: Order, makers: seq<Order>): Walked
    requires t.remainingQuote.Some?
    decreases |makers|
  {
    if makers == [] || Exhausted(t) then
      Walked([], t, makers, [])
    else
      var m := makers[0];
      var p := m.price.GetOr(1);
      var amt := Min(Quotient(up, t.remainingQuote.value, p), m.remaining);
      var t' := if 0 < amt then Take(t, p, amt) else t;
      var m' := if 0 < amt then Reduce(m, amt) else m;
      var w := WalkBy(up, t', makers[1..]);
      Walked((if 0 < amt then [MakeMatch(t, m, p, amt)] else []) + w.matches,
             w.taker,
             (if 0 < m'.remaining && Exhausted(t') then [m'] else []) + w.rest,
             (if 0 < m'.remaining && !Exhausted(t') then [m'] else []) + w.gone)
  }

  /** By how much the budget is overspent: what is missing to the next unit where the quotient is
      rounded up. */
  function Excess(up: Rule, rq: int, makers: seq<Order>): int
    decreases |makers|
  {
    if makers == [] || rq <= 0 then 0
    else
      var p := makers[0].price.GetOr(1);
      if rq >= p * makers[0].remaining then Excess(up, rq - p * makers[0].remaining, makers[1..])
      else if RoundsUp(up, rq, p) then p - rq % p
      else 0
  }

  /** The same order with `extra` more to spend. */
  function Enlarged(t: Order, extra: int): Order
    requires t.remainingQuote.Some?
  {
    t.(remainingQuote := Some(t.remainingQuote.value + extra),
       quoteAmount := match t.quoteAmount case Some(q) => Some(q + extra) case None => None)
  }

  // ---------------------------------------------------------------------------------------
  // Matching: the same as with the excess added to the budget
  // ---------------------------------------------------------------------------------------

  lemma StepBy(up: Rule, t: Order, makers: seq<Order>, p: Price, amt: int)
    requires t.remainingQuote.Some? && makers != [] && !Exhausted(t) && makers[0].price == Some(p)
    requires amt == Min(Quotient(up, t.remainingQuote.value, p), makers[0].remaining) && 0 < amt
    ensures var t', m' := Take(t, p, amt), Reduce(makers[0], amt);
            var w := WalkBy(up, t', makers[1..]);
            WalkBy(up, t, makers) ==
            Walked([MakeMatch(t, makers[0], p, amt)] + w.matches, w.taker,
                   (if 0 < m'.remaining && Exhausted(t') then [m'] else []) + w.rest,
                   (if 0 < m'.remaining && !Exhausted(t') then [m'] else []) + w.gone)
  {}

  lemma DownIsWalk(t: Order, makers: seq<Order>, p: Price, amt: int)
    requires t.remainingQuote.Some? && t.style == Market && makers != [] && !Exhausted(t) && makers[0].price == Some(p)
    requires amt == Fill(t, p, makers[0]) && 0 < amt
    ensures var t', m' := Take(t, p, amt), Reduce(makers[0], amt);
            var w := Walk(t', makers[1..]);
            Walk(t, makers) ==
            Walked([MakeMatch(t, makers[0], p, amt)] + w.matches, w.taker,
                   (if 0 < m'.remaining && Exhausted(t') then [m'] else []) + w.rest,
                   (if 0 < m'.remaining && !Exhausted(t') then [m'] else []) + w.gone)
  {}

  lemma StopsBy(up: Rule, t: Order, makers: seq<Order>)
    requires t.remainingQuote.Some? && (makers == [] || Exhausted(t))
    ensures WalkBy(up, t, makers) == Walked([], t, makers, [])
    ensures makers == [] || t.remainingQuote.value <= 0 ==> Excess(up, t.remainingQuote.value, makers) == 0
  {}

  /** A remainder buys nothing more, rounded either way. */
  lemma {:induction false} PoorUnder(up: Rule, t: Order, makers: seq<Order>, pair: Pair)
    requires TakerOk(t, Sell, pair) && t.remainingQuote.Some? && !Exhausted(t) && Queued(t, makers, pair)
    requires forall m :: m in makers ==>
               && m.price.Some? && t.remainingQuote.value < m.price.value
               && !RoundsUp(up, t.remainingQuote.value, m.price.value)
    ensures WalkBy(up, t, makers) == Walked([], t, [], makers)
    ensures Excess(up, t.remainingQuote.value, makers) == 0
    decreases |makers|
  {
    if makers != [] {
      var m := makers[0];
      assert m in makers;
      var rq, p := t.remainingQuote.value, m.price.value;
      PoorBuysNothing(up, rq, p, m.remaining);
      hide RoundsUp, Quotient;
      PoorUnder(up, t, makers[1..], pair);
      hide Queued, TakerOk;
      assert [m] + makers[1..] == makers;
    }
  }

  lemma PoorBuysNothing(up: Rule, rq: nat, p: Price, n: int)
    requires rq < p && 0 < n && !RoundsUp(up, rq, p)
    ensures Quotient(up, rq, p) == 0 && rq < p * n
  {
    QuotientIs(rq, p, 0, rq);
    AtLeastOnce(n, p);
  }

  /** Both walks agree: same matches, same orders left and lost; the taker of one is that of the other with
      the excess taken back. */
  ghost predicate Agree(w: Walked, v: Walked, excess: int) {
    && w.matches == v.matches && w.rest == v.rest && w.gone == v.gone
    && w.taker.remainingQuote.Some? && v.taker == Enlarged(w.taker, excess)
    && 0 <= excess
    && (0 < excess ==>
          v.taker.remainingQuote == Some(0) && w.matches != [] && excess < w.matches[|w.matches| - 1].price)
  }

  /** Under any sensible rounding a budget is matched as the budget with the excess added is when rounding
      down; a positive excess then spends that budget exactly. */
  lemma {:induction false} RoundingEnlarges(up: Rule, t: Order, makers: seq<Order>, pair: Pair)
    requires TakerOk(t, Sell, pair) && t.remainingQuote.Some? && Queued(t, makers, pair) && Sensible(up)
    ensures var excess := Excess(up, t.remainingQuote.value, makers);
            Agree(WalkBy(up, t, makers), Walk(Enlarged(t, excess), makers), excess)
    decreases |makers|
  {
    if makers == [] || Exhausted(t) {
      StopsBy(up, t, makers);
      WalkStops(Enlarged(t, 0), makers);
    } else {
      var m := makers[0];
      var rq, p := t.remainingQuote.value, m.price.value;
      BudgetMeetsMaker(t, m, p);
      if rq >= p * m.remaining {
        WholeUnder(up, t, makers, p, pair);
      } else if RoundsUp(up, rq, p) {
        UpUnder(up, t, makers, p, pair);
      } else {
        DownUnder(up, t, makers, p, pair);
      }
    }
  }

  /** A maker that is bought whole. */
  lemma {:induction false} WholeUnder(up: Rule, t: Order, makers: seq<Order>, p: Price, pair: Pair)
    requires TakerOk(t, Sell, pair) && t.remainingQuote.Some? && Queued(t, makers, pair) && Sensible(up)
    requires makers != [] && !Exhausted(t) && makers[0].price == Some(p)
    requires t.remainingQuote.value >= p * makers[0].remaining
    ensures var excess := Excess(up, t.remainingQuote.value, makers);
            Agree(WalkBy(up, t, makers), Walk(Enlarged(t, excess), makers), excess)
    decreases |makers|, 0
  {
    var m := makers[0];
    var rq := t.remainingQuote.value;
    var excess := Excess(up, rq, makers);
    var t', big := Take(t, p, m.remaining), Enlarged(t, excess);
    TradeKeeps(t, m, Sell, pair, p);
    BudgetMeetsMaker(t, m, p);
    QueuedFor(t, t', makers[1..], pair);
    assert t'.remainingQuote == Some(rq - p * m.remaining);
    hide Walk, WalkBy, Excess, Queued, Sensible, Fill, Take, Agree;
    ExcessBehind(up, rq, makers, p);
    RoundingEnlarges(up, t', makers[1..], pair);
    WholeBuys(up, t, m, p, excess);
    hide Fill, Take, Quotient, Reduce, TakerOk, Agree;
    WholeJoins(up, t, makers, p, t', big, excess);
  }

  lemma ExcessBehind(up: Rule, rq: int, makers: seq<Order>, p: Price)
    requires makers != [] && 0 < rq && makers[0].price == Some(p) && rq >= p * makers[0].remaining
    ensures Excess(up, rq, makers) == Excess(up, rq - p * makers[0].remaining, makers[1..])
  {}

  lemma WholeJoins(up: Rule, t: Order, makers: seq<Order>, p: Price, t': Order, big: Order, excess: int)
    requires t.remainingQuote.Some? && big.remainingQuote.Some? && big.style == Market && t'.remainingQuote.Some?
    requires makers != [] && makers[0].price == Some(p) && 0 < makers[0].remaining && !Exhausted(t) && !Exhausted(big)
    requires var m := makers[0];
             && m.remaining == Min(Quotient(up, t.remainingQuote.value, p), m.remaining) == Fill(big, p, m)
             && MakeMatch(big, m, p, m.remaining) == MakeMatch(t, m, p, m.remaining)
             && t' == Take(t, p, m.remaining) && Take(big, p, m.remaining) == Enlarged(t', excess)
    requires Agree(WalkBy(up, t', makers[1..]), Walk(Enlarged(t', excess), makers[1..]), excess)
    ensures Agree(WalkBy(up, t, makers), Walk(big, makers), excess)
  {
    hide Walk, WalkBy, Fill, Take, Quotient, Agree, MakeMatch, Exhausted;
    var m := makers[0];
    var w, v := WalkBy(up, t', makers[1..]), Walk(Enlarged(t', excess), makers[1..]);
    var r := MakeMatch(t, m, p, m.remaining);
    StepBy(up, t, makers, p, m.remaining);
    DownIsWalk(big, makers, p, m.remaining);
    AgreeStep(w, v, r, excess);
    assert [] + w.rest == w.rest && [] + w.gone == w.gone && [] + v.rest == v.rest && [] + v.gone == v.gone;
  }

  lemma AgreeStep(w: Walked, v: Walked, r: MatchResult, excess: int)
    requires Agree(w, v, excess)
    ensures Agree(w.(matches := [r] + w.matches), v.(matches := [r] + v.matches), excess)
  {}

  lemma WholeBuys(up: Rule, t: Order, m: Order, p: Price, excess: nat)
    requires t.remainingQuote.Some? && !Exhausted(t) && 0 < m.remaining && t.remainingQuote.value >= p * m.remaining
    ensures var big := Enlarged(t, excess);
            && m.remaining == Min(Quotient(up, t.remainingQuote.value, p), m.remaining) == Fill(big, p, m)
            && Reduce(m, m.remaining).remaining == 0
            && MakeMatch(big, m, p, m.remaining) == MakeMatch(t, m, p, m.remaining)
            && Take(big, p, m.remaining) == Enlarged(Take(t, p, m.remaining), excess)
  {
    BudgetMeetsMaker(t, m, p);
    BudgetMeetsMaker(Enlarged(t, excess), m, p);
  }

  /** The maker at which the quotient is rounded up: the budget is overspent and the walk ends. */
  lemma UpUnder(up: Rule, t: Order, makers: seq<Order>, p: Price, pair: Pair)
    requires TakerOk(t, Sell, pair) && t.remainingQuote.Some? && Queued(t, makers, pair)
    requires makers != [] && !Exhausted(t) && makers[0].price == Some(p)
    requires t.remainingQuote.value < p * makers[0].remaining && RoundsUp(up, t.remainingQuote.value, p)
    ensures var excess := Excess(up, t.remainingQuote.value, makers);
            Agree(WalkBy(up, t, makers), Walk(Enlarged(t, excess), makers), excess)
  {
    var m := makers[0];
    var rq := t.remainingQuote.value;
    var amt, excess := rq / p + 1, p - rq % p;
    var big := Enlarged(t, excess);
    UpBuys(up, t, m, p);
    hide Fill, Take, Quotient, RoundsUp, Queued;
    assert Excess(up, rq, makers) == excess;
    StepBy(up, t, makers, p, amt);
    DownIsWalk(big, makers, p, amt);
    StopsBy(up, Take(t, p, amt), makers[1..]);
    WalkStops(Take(big, p, amt), makers[1..]);
  }

  lemma UpBuys(up: Rule, t: Order, m: Order, p: Price)
    requires t.remainingQuote.Some? && !Exhausted(t) && 0 < m.remaining
    requires t.remainingQuote.value < p * m.remaining && RoundsUp(up, t.remainingQuote.value, p)
    ensures var rq := t.remainingQuote.value;
            var amt, excess := rq / p + 1, p - rq % p;
            var big := Enlarged(t, excess);
            && 0 < amt == Min(Quotient(up, rq, p), m.remaining) == Fill(big, p, m)
            && 0 < excess < p
            && Take(t, p, amt).remainingQuote == Some(-excess)
            && Take(big, p, amt) == Enlarged(Take(t, p, amt), excess)
  {
    BudgetMeetsMaker(t, m, p);
    NextUnit(t.remainingQuote.value, p);
  }

  lemma NextUnit(rq: nat, p: Price)
    ensures var n := rq / p + 1;
            && n * p == rq - rq % p + p && (rq + (p - rq % p)) / p == n
  {
    var q, n := rq / p, rq / p + 1;
    assert rq == p * q + rq % p;
    Distributes(q, 1, p);
    QuotientIs(rq + (p - rq % p), p, n, 0);
  }

  lemma Distributes(a: int, b: int, p: int)
    ensures (a + b) * p == a * p + b * p
  {}

  lemma QuotientIs(a: int, p: Price, q: int, r: int)
    requires a == q * p + r && 0 <= r < p
    ensures a / p == q && a % p == r
  {
    var d := a / p - q;
    assert a == p * (a / p) + a % p;
    Distributes(q, d, p);
    assert d * p == r - a % p;
    AtLeastOnce(d, p);
  }

  lemma AtLeastOnce(d: int, p: Price)
    ensures (d > 0 ==> d * p >= p) && (d < 0 ==> d * p + p <= 0)
  {
    if d > 0 {
      Distributes(d - 1, 1, p);
      assert (d - 1) * p >= 0;
    } else if d < 0 {
      Distributes(d + 1, -1, p);
      assert (d + 1) * p <= 0;
    }
  }

  /** The maker at which the quotient is rounded down: a remainder buys nothing more. */
  lemma DownUnder(up: Rule, t: Order, makers: seq<Order>, p: Price, pair: Pair)
    requires TakerOk(t, Sell, pair) && t.remainingQuote.Some? && Queued(t, makers, pair) && Sensible(up)
    requires makers != [] && !Exhausted(t) && makers[0].price == Some(p)
    requires t.remainingQuote.value < p * makers[0].remaining && !RoundsUp(up, t.remainingQuote.value, p)
    ensures Excess(up, t.remainingQuote.value, makers) == 0
    ensures Agree(WalkBy(up, t, makers), Walk(Enlarged(t, 0), makers), 0)
  {
    var m := makers[0];
    var rq := t.remainingQuote.value;
    var amt := rq / p;
    var t' := if 0 < amt then Take(t, p, amt) else t;
    DownBuys(up, t, m, p, pair);
    QueuedFor(t, t', makers[1..], pair);
    forall o | o in makers[1..]
      ensures o.price.Some? && rq % p < o.price.value && !RoundsUp(up, rq % p, o.price.value)
    {
      assert p <= o.price.value;
    }
    hide Walk, WalkBy, RoundsUp, Sensible;
    if Exhausted(t') {
      StopsBy(up, t', makers[1..]);
      WalkStops(t', makers[1..]);
    } else {
      PoorUnder(up, t', makers[1..], pair);
      TooPoor(t', makers[1..], pair);
    }
    hide Queued, Fill, Take, TakerOk, Quotient;
    if 0 < amt {
      StepBy(up, t, makers, p, amt);
      DownIsWalk(t, makers, p, amt);
    } else {
      NothingBought(up, t, makers, p);
    }
  }

  lemma DownBuys(up: Rule, t: Order, m: Order, p: Price, pair: Pair)
    requires TakerOk(t, Sell, pair) && t.remainingQuote.Some? && !Exhausted(t) && RestsAt(m, Sell, pair, p)
    requires t.remainingQuote.value < p * m.remaining && !RoundsUp(up, t.remainingQuote.value, p)
    ensures var rq := t.remainingQuote.value;
            var amt := rq / p;
            var t' := if 0 < amt then Take(t, p, amt) else t;
            && 0 <= amt == Min(Quotient(up, rq, p), m.remaining) == Fill(t, p, m)
            && TakerOk(t', Sell, pair) && t'.remainingQuote == Some(rq % p) && Enlarged(t, 0) == t
  {
    BudgetMeetsMaker(t, m, p);
    TradeKeeps(t, m, Sell, pair, p);
  }

  lemma NothingBought(up: Rule, t: Order, makers: seq<Order>, p: Price)
    requires t.remainingQuote.Some? && t.style == Market && makers != [] && !Exhausted(t)
    requires makers[0].price == Some(p) && 0 < makers[0].remaining
    requires Min(Quotient(up, t.remainingQuote.value, p), makers[0].remaining) <= 0 && Fill(t, p, makers[0]) <= 0
    ensures var w, v := WalkBy(up, t, makers[1..]), Walk(t, makers[1..]);
            && WalkBy(up, t, makers) == w.(gone := [makers[0]] + w.gone)
            && Walk(t, makers) == v.(gone := [makers[0]] + v.gone)
  {}

  /** Rounding down, nothing is overspent, and the walk is the one the sweep makes. */
  lemma DownIsTheWalk(t: Order, makers: seq<Order>, pair: Pair)
    requires TakerOk(t, Sell, pair) && t.remainingQuote.Some? && Queued(t, makers, pair)
    ensures WalkBy(Down, t, makers) == Walk(t, makers)
  {
    NoExcess(t.remainingQuote.value, makers);
    RulesAreSensible();
    RoundingEnlarges(Down, t, makers, pair);
    hide Walk, WalkBy, Excess;
    assert forall o: Order :: o.remainingQuote.Some? ==> Enlarged(o, 0) == o;
  }

  lemma {:induction false} NoExcess(rq: int, makers: seq<Order>)
    ensures Excess(Down, rq, makers) == 0
    decreases |makers|
  {
    if makers != [] && rq > 0 {
      NoExcess(rq - makers[0].price.GetOr(1) * makers[0].remaining, makers[1..]);
    }
  }

  /** A budget of 5 at price 3 buys 2 when rounding to the nearest unit, and is short of 1. */
  lemma FiveAtThree(m: Order)
    requires m.price == Some(3) && m.remaining == 5
    ensures Quotient(Nearest, 5, 3) == 2 && Excess(Nearest, 5, [m]) == 1
  {}

  // ---------------------------------------------------------------------------------------
  // Trading: the overspending trade
  // ---------------------------------------------------------------------------------------

  /** No buyer sells to itself. */
  lemma {:induction false} BuyerSellsNothing(t: Order, ms: seq<MatchResult>, mint: string)
    requires t.side == Buy && forall m :: m in ms ==> SoundMatch(t, m)
    ensures Legs(Sell, ms, t.user, mint) == 0
  {
    if ms != [] {
      assert SoundMatch(t, ms[0]) by { assert ms[0] in ms; }
      BuyerSellsNothing(t, ms[1..], mint);
    }
  }

  /** A ledger that covers all of `ms` but for `missing` of the buyer's quote, less than the last price. */
  ghost predicate AlmostCovers(l: Ledger, t: Order, ms: seq<MatchResult>, missing: nat) {
    && ms != [] && missing < ms[|ms| - 1].price
    && (forall m :: m in ms ==> SoundMatch(t, m))
    && forall u, mint ::
         Demand(ms, u, mint) <= At(l, u, mint).locked + if u == t.user && mint == t.pair.quote then missing else 0
  }

  lemma LastLegs(t: Order, front: seq<MatchResult>, last: MatchResult, u: nat, mint: string)
    requires t.side == Buy && SoundMatch(t, last)
    ensures Demand(front + [last], u, mint) ==
            Demand(front, u, mint) + Leg(Buy, last, u, mint) + Leg(Sell, last, u, mint)
    ensures 0 <= Leg(Buy, last, u, mint) && 0 <= Leg(Sell, last, u, mint)
    ensures last.price <= Leg(Buy, last, t.user, t.pair.quote) == last.price * last.amount
  {
    MatchSums(front, [last], u, mint);
    assert [last][1..] == [];
    assert Legs(Buy, [last], u, mint) == Leg(Buy, last, u, mint) + Legs(Buy, [], u, mint);
    assert Legs(Sell, [last], u, mint) == Leg(Sell, last, u, mint) + Legs(Sell, [], u, mint);
    AtLeastOnce(last.amount, last.price);
  }

  /** All trades but the last are covered. */
  lemma FrontIsCovered(l: Ledger, t: Order, front: seq<MatchResult>, last: MatchResult, missing: nat)
    requires t.side == Buy && AlmostCovers(l, t, front + [last], missing)
    ensures Covers(l, front) && SoundMatch(t, last) && forall m :: m in front ==> SoundMatch(t, m) && Fair(m)
  {
    var ms := front + [last];
    assert last == ms[|ms| - 1] && last in ms && forall m :: m in front ==> m in ms;
    hide Demand, Leg;
    forall u, mint ensures Demand(front, u, mint) <= At(l, u, mint).locked {
      LastLegs(t, front, last, u, mint);
      assert Demand(ms, u, mint) <= At(l, u, mint).locked + if u == t.user && mint == t.pair.quote then missing else 0;
    }
  }

  /** Whether the last trade succeeds. */
  lemma LastTrade(l: Ledger, t: Order, front: seq<MatchResult>, last: MatchResult, missing: nat)
    requires t.side == Buy && AlmostCovers(l, t, front + [last], missing)
    ensures var ms := front + [last];
            ExecuteAll(l, ms).1 == if QuoteTotal(ms) <= At(l, t.user, t.pair.quote).locked then ms else front
  {
    var ms := front + [last];
    var l1 := ExecuteAll(l, front).0;
    var base := last.pair.base;
    FrontIsCovered(l, t, front, last, missing);
    ExecuteAllMoves(l, front, t.user, t.pair.quote);
    ExecuteAllMoves(l, front, last.seller, base);
    TakerPays(t, front, t.user, t.pair.quote);
    BuyerSellsNothing(t, front, t.pair.quote);
    MatchSums(front, [last], 0, "");
    assert QuoteTotal([last]) == last.price * last.amount by { assert [last][1..] == []; }
    LastLegs(t, front, last, last.seller, base);
    assert Demand(ms, last.seller, base) <= At(l, last.seller, base).locked;
    hide QuoteTotal, Demand, Covers, ExecuteAll;
    LastSucceedsIff(l1, last);
    ExecuteInParts(l, front, [last]);
    ExecuteOne(l1, last);
    assert front + [] == front;
  }

  lemma LastSucceedsIff(l: Ledger, m: MatchResult)
    requires Fair(m) && m.amount <= At(l, m.seller, m.pair.base).locked
    ensures ExecuteTrade(l, m).1 <==> m.price * m.amount <= At(l, m.buyer, m.pair.quote).locked
  {}

  /** A market buy under any sensible rounding.  Without excess all its trades succeed.  With an excess it
      pays for more than its budget; all trades but the last succeed, and the last one does if and only if
      the buyer has the excess locked elsewhere: then other orders' funds pay for it, and otherwise the
      matched lots leave the book without a trade. */
  lemma RoundedUpTradeIsRefusedIff(s: State, o: Order, up: Rule)
    requires Inv(s) && ValidOrder(o) && o.remainingQuote.Some? && Process(s, o).Accepted? && Sensible(up)
    ensures var rq := o.remainingQuote.value;
            var makers := Others(BookOf(s, o.pair).asks, o.user);
            var ms := WalkBy(up, o, makers).matches;
            var excess := Excess(up, rq, makers);
            var done := ExecuteAll(Process(s, o).locked, ms).1;
            if excess == 0 then done == ms
            else
              && 0 < excess && ms != [] && QuoteTotal(ms) == rq + excess
              && done == if excess <= At(s.ledger, o.user, o.pair.quote).locked then ms else ms[..|ms| - 1]
  {
    EnlargedOrder(s, o, up);
    LockedFor(s, o);
    hide *;
    var rq := o.remainingQuote.value;
    var makers := Others(BookOf(s, o.pair).asks, o.user);
    var ms, excess := WalkBy(up, o, makers).matches, Excess(up, rq, makers);
    AllButTheLast(Process(s, o).locked, o, ms, rq, excess, At(s.ledger, o.user, o.pair.quote).locked);
  }

  lemma AllButTheLast(l: Ledger, t: Order, ms: seq<MatchResult>, rq: int, excess: nat, elsewhere: int)
    requires t.side == Buy && forall m :: m in ms ==> SoundMatch(t, m)
    requires if excess == 0 then Covers(l, ms) else AlmostCovers(l, t, ms, excess) && QuoteTotal(ms) == rq + excess
    requires At(l, t.user, t.pair.quote).locked == elsewhere + rq
    ensures var done := ExecuteAll(l, ms).1;
            if excess == 0 then done == ms
            else ms != [] && done == if excess <= elsewhere then ms else ms[..|ms| - 1]
  {
    if excess == 0 {
      CoveredAlready(l, t, ms);
    } else {
      assert ms != [];
      hide Covers, AlmostCovers, ExecuteAll, QuoteTotal, SoundMatch;
      var front, last := ms[..|ms| - 1], ms[|ms| - 1];
      assert front + [last] == ms;
      LastTrade(l, t, front, last, excess);
    }
  }

  lemma LockedFor(s: State, o: Order)
    requires ValidOrder(o) && o.remainingQuote.Some? && Process(s, o).Accepted?
    ensures PayMint(o) == o.pair.quote && o.side == Buy
    ensures At(Process(s, o).locked, o.user, o.pair.quote).locked ==
            At(s.ledger, o.user, o.pair.quote).locked + o.remainingQuote.value
  {
    hide MatchSpec, ExecuteAll, Unlock;
  }

  lemma CoveredAlready(l: Ledger, t: Order, ms: seq<MatchResult>)
    requires forall m :: m in ms ==> SoundMatch(t, m)
    requires Covers(l, ms)
    ensures ExecuteAll(l, ms).1 == ms
  {
    ExecuteAllMoves(l, ms, 0, "");
  }

  /** The matches of `o` are those of the order with the enlarged budget. */
  lemma EnlargedMatches(o: Order, book: Book, up: Rule)
    requires ValidOrder(o) && o.remainingQuote.Some? && GoodBook(book, o.pair) && Sensible(up)
    ensures var rq := o.remainingQuote.value;
            var makers := Others(book.asks, o.user);
            var ms := WalkBy(up, o, makers).matches;
            var excess := Excess(up, rq, makers);
            && 0 <= excess && ms == MatchSpec(Enlarged(o, excess), book).matches
            && (forall m :: m in ms ==> SoundMatch(o, m))
            && (0 < excess ==> ms != [] && excess < ms[|ms| - 1].price && QuoteTotal(ms) == rq + excess)
  {
    hide Walk, WalkBy, Excess, Sensible, Sweep, Others, GoodLevels, Queued, QuoteTotal;
    var rq := o.remainingQuote.value;
    var levels := book.asks;
    var makers := Others(levels, o.user);
    var excess := Excess(up, rq, makers);
    OrderIsReady(o);
    OthersAreQueued(o, levels, o.pair);
    RoundingEnlarges(up, o, makers, o.pair);
    var o' := Enlarged(o, excess);
    OrderIsReady(o');
    SweepIsGreedy(o', levels, Sell, o.pair);
    SweepSpends(o', levels);
    MatchesAreSound(o', levels, Sell, o.pair);
    assert forall m :: SoundMatch(o', m) ==> SoundMatch(o, m);
  }

  /** A buyer with as much more money could submit that order: so the matches are covered but for the
      excess. */
  lemma EnlargedOrder(s: State, o: Order, up: Rule)
    requires Inv(s) && ValidOrder(o) && o.remainingQuote.Some? && Process(s, o).Accepted? && Sensible(up)
    ensures var rq := o.remainingQuote.value;
            var makers := Others(BookOf(s, o.pair).asks, o.user);
            var ms := WalkBy(up, o, makers).matches;
            var excess := Excess(up, rq, makers);
            && 0 <= excess && (forall m :: m in ms ==> SoundMatch(o, m))
            && if excess == 0 then Covers(Process(s, o).locked, ms)
               else AlmostCovers(Process(s, o).locked, o, ms, excess) && QuoteTotal(ms) == rq + excess
  {
    hide Process, WalkBy, Excess, Others, Demand, QuoteTotal, ValidOrder, Sensible, MatchSpec, GoodBook;
    OwedCoversABook(s, o.pair, 0, "");
    hide Inv;
    EnlargedMatches(o, BookOf(s, o.pair), up);
    RicherIsCovered(s, o, Excess(up, o.remainingQuote.value, Others(BookOf(s, o.pair).asks, o.user)));
  }

  lemma RicherIsCovered(s: State, o: Order, extra: nat)
    requires Inv(s) && ValidOrder(o) && o.remainingQuote.Some? && Process(s, o).Accepted?
    ensures var ms := MatchSpec(Enlarged(o, extra), BookOf(s, o.pair)).matches;
            forall u, mint :: Demand(ms, u, mint) <= At(Process(s, o).locked, u, mint).locked
                              + if u == o.user && mint == o.pair.quote then extra else 0
  {
    var o' := Enlarged(o, extra);
    var k := (o.user, o.pair.quote);
    var b := At(s.ledger, o.user, o.pair.quote);
    var s' := s.(ledger := s.ledger[k := b.(available := b.available + extra)]);
    RicherIsSound(s, s', o.user, o.pair.quote, extra);
    LockedAmounts(s, o, s', o');
    hide Inv, MatchSpec, Process, Demand;
    TradesAreCovered(s', o');
    var ms := MatchSpec(o', BookOf(s, o.pair)).matches;
    forall u, mint
      ensures Demand(ms, u, mint) <= At(Process(s, o).locked, u, mint).locked
                                     + if u == o.user && mint == o.pair.quote then extra else 0
    {
      assert Demand(ms, u, mint) <= At(Process(s', o').locked, u, mint).locked;
    }
  }

  lemma RicherIsSound(s: State, s': State, u: nat, mint: string, extra: nat)
    requires Inv(s) && s'.books == s.books
    requires var b := At(s.ledger, u, mint);
             s'.ledger == s.ledger[(u, mint) := b.(available := b.available + extra)]
    ensures Inv(s')
  {
    hide Owed, GoodBooks;
    forall v, m ensures 0 <= Slack(s', v, m) && 0 <= At(s'.ledger, v, m).available && 0 <= At(s'.ledger, v, m).locked {
      assert 0 <= Slack(s, v, m) && 0 <= At(s.ledger, v, m).available && 0 <= At(s.ledger, v, m).locked;
    }
  }

  /** The locks of both orders. */
  lemma LockedAmounts(s: State, o: Order, s': State, o': Order)
    requires ValidOrder(o) && o.remainingQuote.Some? && Process(s, o).Accepted? && s'.books == s.books
    requires o'.remainingQuote.Some? && o' == Enlarged(o, o'.remainingQuote.value - o.remainingQuote.value)
    requires o.remainingQuote.value <= o'.remainingQuote.value
    requires var b := At(s.ledger, o.user, o.pair.quote);
             s'.ledger == s.ledger[(o.user, o.pair.quote) :=
                                     b.(available := b.available + o'.remainingQuote.value - o.remainingQuote.value)]
    ensures ValidOrder(o') && Process(s', o').Accepted?
    ensures Process(s', o').outcome == MatchSpec(o', BookOf(s, o.pair))
    ensures forall u, mint ::
              At(Process(s', o').locked, u, mint).locked ==
              At(Process(s, o).locked, u, mint).locked
              + if u == o.user && mint == o.pair.quote then o'.remainingQuote.value - o.remainingQuote.value else 0
  {
    hide MatchSpec, ExecuteAll, Unlock;
  }
}
