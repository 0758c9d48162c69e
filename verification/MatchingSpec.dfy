/** What sweeping one side of a book with a taker order amounts to, as a function.

    `Sweep` has no loops, no re-queueing and no pop counter; the nested loops in `Matcher`
    are proved equal to it with the four step lemmas at the end of this module. */
module MatchingSpec {
  import opened Types

  /** Nothing left to spend (market buy) or to trade (every other order). */
  predicate Exhausted(t: Order) {
    match t.remainingQuote
    case Some(rq) => rq <= 0
    case None => t.remaining == 0
  }

  /** Does the taker accept this price?  Market orders accept every price. */
  predicate Crosses(t: Order, p: Price) {
    t.style == Limit ==> if t.side == Buy then t.PriceOrZero() >= p else t.PriceOrZero() <= p
  }

  /** How much a taker trades with a maker at price `p`. */
  function Fill(t: Order, p: Price, m: Order): int {
    match t.remainingQuote
    case Some(rq) => Min(rq / p, m.remaining)
    case None => Min(t.remaining, m.remaining)
  }

  /** The taker after trading `amt` at price `p`. */
  function Take(t: Order, p: Price, amt: int): Order {
    match t.remainingQuote
    case Some(rq) =>
      t.(remainingQuote := Some(rq - amt * p), amount := t.amount + amt, filled := t.filled + amt,
         remaining := t.amount + amt - (t.filled + amt))
    case None =>
      t.(remaining := t.remaining - amt, filled := t.filled + amt)
  }

  /** The maker after trading `amt`. */
  function Reduce(m: Order, amt: int): Order {
    m.(remaining := m.remaining - amt, filled := m.filled + amt)
  }

  function MakeMatch(t: Order, m: Order, p: Price, amt: int): MatchResult {
    if t.side == Buy
    then MatchResult(t.id, m.id, t.user, m.user, p, amt, t.pair)
    else MatchResult(m.id, t.id, m.user, t.user, p, amt, t.pair)
  }

  /** `front`: makers the taker never reached (the first may be reduced).
      `own`: the taker's own orders that were passed over.
      `lost`: other users' orders that are popped and never put back. */
  datatype QueueOutcome = QueueOutcome(
    matches: seq<MatchResult>, taker: Order, front: seq<Order>, own: seq<Order>, lost: seq<Order>)

  /** Only a buyer looks at the amount before it trades. */
  predicate Stalls(t: Order, amt: int) {
    t.side == Buy && amt <= 0
  }

  /** What becomes of one maker.  A maker that is only partly bought stays in front of a taker
      that is done; a taker that is not done has only dust left, and the maker is lost. */
  function Pop(t: Order, p: Price, m: Order): QueueOutcome {
    var amt := Fill(t, p, m);
    if m.user == t.user then QueueOutcome([], t, [], [m], [])
    else if Stalls(t, amt) then QueueOutcome([], t, [], [], [m])
    else
      var t' := Take(t, p, amt);
      var m' := Reduce(m, amt);
      QueueOutcome([MakeMatch(t, m, p, amt)], t',
                   if 0 < m'.remaining && Exhausted(t') then [m'] else [], [],
                   if 0 < m'.remaining && !Exhausted(t') then [m'] else [])
  }

  /** One walk along the queue of a price level. */
  function SweepQueue(t: Order, p: Price, q: seq<Order>): QueueOutcome
    decreases |q|
  {
    if q == [] || Exhausted(t) then
      QueueOutcome([], t, q, [], [])
    else
      var h := Pop(t, p, q[0]);
      var r := SweepQueue(h.taker, p, q[1..]);
      QueueOutcome(h.matches + r.matches, r.taker, h.front + r.front, h.own + r.own, h.lost + r.lost)
  }

  datatype Outcome = Outcome(
    matches: seq<MatchResult>, taker: Order, levels: seq<Level>, lost: seq<Order>)

  /** A level is dropped as soon as its queue is empty. */
  function WithLevel(p: Price, q: seq<Order>, rest: seq<Level>): seq<Level> {
    if q == [] then rest else [Level(p, q)] + rest
  }

  /** Level by level while the price is acceptable.  A taker that is still hungry after a
      level leaves nothing of it: what was not traded is lost, the taker's own orders included. */
  function Sweep(t: Order, levels: seq<Level>): Outcome
    decreases |levels|, 0
  {
    if levels == [] || Exhausted(t) || !Crosses(t, levels[0].price) then
      Outcome([], t, levels, [])
    else
      Assemble(SweepQueue(t, levels[0].price, levels[0].queue), levels[0].price, levels[1..])
  }

  /** What the outcome of a level's queue means for the whole side. */
  function Assemble(r: QueueOutcome, p: Price, rest: seq<Level>): Outcome
    decreases |rest|, 1
  {
    if Exhausted(r.taker) then
      Outcome(r.matches, r.taker, WithLevel(p, r.front + r.own, rest), r.lost)
    else
      var o := Sweep(r.taker, rest);
      Outcome(r.matches + o.matches, o.taker, o.levels, r.lost + r.own + o.lost)
  }

  /** `has_remaining`, the entry test of `match_order`. */
  predicate HasRemaining(t: Order) {
    match t.remainingQuote
    case Some(rq) => rq > 0
    case None => t.remaining > 0
  }

  /** Matching a taker against a book: the outcome on the opposite side. */
  function MatchSpec(t: Order, book: Book): Outcome {
    var levels := book.On(t.side.Opposite());
    if HasRemaining(t) then Sweep(t, levels) else Outcome([], t, levels, [])
  }

  // ---------------------------------------------------------------------------------------
  // Step lemmas: one pop of the inner loop, whatever it does, leaves the outcome of the whole
  // sweep unchanged.  `w` is that outcome; `ms` and `gone` are what the loops did so far.
  // ---------------------------------------------------------------------------------------

  /** `whole` is `part` with `ms` matched and `gone` discarded beforehand. */
  ghost predicate Continues(whole: Outcome, ms: seq<MatchResult>, gone: seq<Order>, part: Outcome) {
    && whole.matches == ms + part.matches
    && whole.taker == part.taker
    && whole.levels == part.levels
    && multiset(whole.lost) == multiset(gone) + multiset(part.lost)
  }

  lemma {:induction false} HungryFrontIsEmpty(t: Order, p: Price, q: seq<Order>)
    ensures !Exhausted(SweepQueue(t, p, q).taker) ==> SweepQueue(t, p, q).front == []
    decreases |q|
  {
    if q != [] && !Exhausted(t) {
      var h := Pop(t, p, q[0]);
      HungryFrontIsEmpty(h.taker, p, q[1..]);
      if Exhausted(h.taker) {
        assert SweepQueue(h.taker, p, q[1..]).taker == h.taker;
      }
    }
  }

  /** An own order at the back of the queue is either not reached or passed over. */
  lemma {:induction false} OwnAtTheBack(t: Order, p: Price, q: seq<Order>, y: Order)
    requires y.user == t.user
    ensures var r := SweepQueue(t, p, q);
            SweepQueue(t, p, q + [y]) ==
            if Exhausted(r.taker) then r.(front := r.front + [y]) else r.(own := r.own + [y])
    decreases |q|
  {
    var whole := q + [y];
    if Exhausted(t) {
    } else if q == [] {
      assert whole[1..] == [];
    } else {
      var h := Pop(t, p, q[0]);
      var r := SweepQueue(h.taker, p, q[1..]);
      assert whole[0] == q[0] && whole[1..] == q[1..] + [y];
      OwnAtTheBack(h.taker, p, q[1..], y);
      assert h.front + (r.front + [y]) == (h.front + r.front) + [y];
      assert h.own + (r.own + [y]) == (h.own + r.own) + [y];
    }
  }

  lemma {:induction false} OnlyOwnQueue(t: Order, p: Price, q: seq<Order>)
    requires !Exhausted(t)
    requires forall i :: 0 <= i < |q| ==> q[i].user == t.user
    ensures SweepQueue(t, p, q) == QueueOutcome([], t, [], q, [])
  {
    if q != [] {
      OnlyOwnQueue(t, p, q[1..]);
    }
  }

  lemma SweepStops(t: Order, levels: seq<Level>)
    requires levels == [] || Exhausted(t) || !Crosses(t, levels[0].price)
    ensures Sweep(t, levels) == Outcome([], t, levels, [])
  {}

  lemma SweepUnfolds(t: Order, levels: seq<Level>)
    requires levels != [] && !Exhausted(t) && Crosses(t, levels[0].price)
    ensures Sweep(t, levels) == Assemble(SweepQueue(t, levels[0].price, levels[0].queue), levels[0].price, levels[1..])
  {}

  /** An acceptable level unfolds, and one that has become empty changes nothing. */
  lemma Unfold(t: Order, p: Price, q: seq<Order>, rest: seq<Level>)
    requires !Exhausted(t) && Crosses(t, p)
    ensures Sweep(t, WithLevel(p, q, rest)) == Assemble(SweepQueue(t, p, q), p, rest)
  {
    if q != [] {
      assert WithLevel(p, q, rest)[1..] == rest;
    }
  }

  /** A maker that is not traded with is added to the front of `own` or of `lost`. */
  lemma UntradedFront(t: Order, p: Price, q: seq<Order>)
    requires q != [] && !Exhausted(t)
    ensures var r := SweepQueue(t, p, q[1..]);
            && (q[0].user == t.user ==> SweepQueue(t, p, q) == r.(own := [q[0]] + r.own))
            && (q[0].user != t.user && Stalls(t, Fill(t, p, q[0])) ==>
                  SweepQueue(t, p, q) == r.(lost := [q[0]] + r.lost))
  {}

  lemma AssembleRotate(r: QueueOutcome, p: Price, rest: seq<Level>, y: Order)
    ensures Continues(Assemble(r.(own := [y] + r.own), p, rest), [], [],
                      Assemble(if Exhausted(r.taker) then r.(front := r.front + [y]) else r.(own := r.own + [y]),
                               p, rest))
  {
    if Exhausted(r.taker) {
      assert (r.front + [y]) + r.own == r.front + ([y] + r.own);
    } else {
      assert multiset([y] + r.own) == multiset(r.own + [y]);
    }
  }

  /** `push_back` of an own order. */
  lemma StepRotate(w: Outcome, ms: seq<MatchResult>, gone: seq<Order>,
                   t: Order, p: Price, q: seq<Order>, rest: seq<Level>)
    requires !Exhausted(t) && Crosses(t, p)
    requires q != [] && q[0].user == t.user
    requires Continues(w, ms, gone, Sweep(t, WithLevel(p, q, rest)))
    ensures Continues(w, ms, gone, Sweep(t, WithLevel(p, q[1..] + [q[0]], rest)))
  {
    hide Sweep, SweepQueue;
    Unfold(t, p, q, rest);
    Unfold(t, p, q[1..] + [q[0]], rest);
    UntradedFront(t, p, q);
    OwnAtTheBack(t, p, q[1..], q[0]);
    AssembleRotate(SweepQueue(t, p, q[1..]), p, rest, q[0]);
  }

  /** A buyer trades a positive amount; a seller, who has a quantity, trades any. */
  predicate Matchable(t: Order, amt: int) {
    if t.side == Buy then 0 < amt else t.remainingQuote.None?
  }

  /** After a maker is only partly bought, what is left of the budget buys nothing at its price. */
  lemma DustStalls(t: Order, p: Price, m: Order)
    requires 0 < Fill(t, p, m) < m.remaining
    requires !Exhausted(Take(t, p, Fill(t, p, m)))
    ensures Fill(Take(t, p, Fill(t, p, m)), p, Reduce(m, Fill(t, p, m))) == 0
  {
    if t.remainingQuote.Some? {
      var rq := t.remainingQuote.value;
      var dust := rq - rq / p * p;
      assert dust == rq % p;
      assert dust / p == 0;
    }
  }

  /** The queue a trade leaves: a maker that has something left goes back to the front. */
  function AfterTrade(q: seq<Order>, amt: int): seq<Order>
    requires q != []
  {
    var m' := Reduce(q[0], amt);
    if 0 < m'.remaining then [m'] + q[1..] else q[1..]
  }

  lemma TradeAtTheFront(t: Order, p: Price, q: seq<Order>)
    requires !Exhausted(t)
    requires q != [] && q[0].user != t.user && Matchable(t, Fill(t, p, q[0]))
    ensures var amt := Fill(t, p, q[0]);
            var r := SweepQueue(t, p, q);
            var r' := SweepQueue(Take(t, p, amt), p, AfterTrade(q, amt));
            r == r'.(matches := [MakeMatch(t, q[0], p, amt)] + r'.matches)
  {
    var amt := Fill(t, p, q[0]);
    var t' := Take(t, p, amt);
    var m' := Reduce(q[0], amt);
    var h := Pop(t, p, q[0]);
    assert h.matches == [MakeMatch(t, q[0], p, amt)] && h.taker == t' && h.own == [];
    if 0 < m'.remaining {
      assert AfterTrade(q, amt)[1..] == q[1..];
      if Exhausted(t') {
        assert h.front + q[1..] == AfterTrade(q, amt);
      } else if t.remainingQuote.Some? {
        DustStalls(t, p, q[0]);
      }
    }
  }

  lemma AssembleMatch(r: QueueOutcome, p: Price, rest: seq<Level>, m: MatchResult)
    ensures Assemble(r.(matches := [m] + r.matches), p, rest) ==
            var o := Assemble(r, p, rest); o.(matches := [m] + o.matches)
  {
    var o := Sweep(r.taker, rest);
    assert ([m] + r.matches) + o.matches == [m] + (r.matches + o.matches);
  }

  lemma ExhaustedTaker(t: Order, p: Price, q: seq<Order>, rest: seq<Level>)
    requires Exhausted(t)
    ensures Sweep(t, WithLevel(p, q, rest)) == Assemble(SweepQueue(t, p, q), p, rest)
  {
    assert q + [] == q;
  }

  /** A trade, followed by `push_front` of a maker that has something left. */
  lemma StepMatch(w: Outcome, ms: seq<MatchResult>, gone: seq<Order>,
                  t: Order, p: Price, q: seq<Order>, rest: seq<Level>)
    requires !Exhausted(t) && Crosses(t, p)
    requires q != [] && q[0].user != t.user && Matchable(t, Fill(t, p, q[0]))
    requires Continues(w, ms, gone, Sweep(t, WithLevel(p, q, rest)))
    ensures var amt := Fill(t, p, q[0]);
            Continues(w, ms + [MakeMatch(t, q[0], p, amt)], gone,
                      Sweep(Take(t, p, amt), WithLevel(p, AfterTrade(q, amt), rest)))
  {
    hide Sweep, SweepQueue;
    var amt := Fill(t, p, q[0]);
    var t' := Take(t, p, amt);
    var q' := AfterTrade(q, amt);
    var r' := SweepQueue(t', p, q');
    var m := MakeMatch(t, q[0], p, amt);
    TradeAtTheFront(t, p, q);
    AssembleMatch(r', p, rest, m);
    assert Sweep(t, WithLevel(p, q, rest)) == Assemble(SweepQueue(t, p, q), p, rest) by { Unfold(t, p, q, rest); }
    assert Sweep(t', WithLevel(p, q', rest)) == Assemble(r', p, rest) by {
      if Exhausted(t') {
        ExhaustedTaker(t', p, q', rest);
      } else {
        Unfold(t', p, q', rest);
      }
    }
    assert forall part: Outcome :: ms + ([m] + part.matches) == (ms + [m]) + part.matches;
  }

  /** A maker that the budget cannot buy one unit of is popped and gone. */
  lemma StepStall(w: Outcome, ms: seq<MatchResult>, gone: seq<Order>,
                  t: Order, p: Price, q: seq<Order>, rest: seq<Level>)
    requires !Exhausted(t) && Crosses(t, p)
    requires q != [] && q[0].user != t.user && Stalls(t, Fill(t, p, q[0]))
    requires Continues(w, ms, gone, Sweep(t, WithLevel(p, q, rest)))
    ensures Continues(w, ms, gone + [q[0]], Sweep(t, WithLevel(p, q[1..], rest)))
  {
    hide Sweep, SweepQueue;
    UntradedFront(t, p, q);
    Unfold(t, p, q, rest);
    Unfold(t, p, q[1..], rest);
  }

  /** The pop that exceeds the cut-off, when only own orders are left. */
  lemma StepCutOff(w: Outcome, ms: seq<MatchResult>, gone: seq<Order>,
                   t: Order, p: Price, q: seq<Order>, rest: seq<Level>)
    requires !Exhausted(t) && Crosses(t, p)
    requires q != [] && forall i :: 0 <= i < |q| ==> q[i].user == t.user
    requires Continues(w, ms, gone, Sweep(t, WithLevel(p, q, rest)))
    ensures Continues(w, ms, gone + [q[0]], Sweep(t, WithLevel(p, q[1..], rest)))
  {
    OnlyOwnQueue(t, p, q);
    OnlyOwnQueue(t, p, q[1..]);
    assert q == [q[0]] + q[1..];
    Unfold(t, p, q, rest);
    Unfold(t, p, q[1..], rest);
  }
}
