/** What resting orders owe, and what matches move. */
module Obligations {
  import opened Types
  import opened OrderBooks
  import opened MatchingSpec

  /** The asset an order pays with: the one its submission locks. */
  function PayMint(o: Order): string {
    if o.side == Buy then o.pair.quote else o.pair.base
  }

  function UnitCost(o: Order): int {
    if o.side == Buy then o.PriceOrZero() else 1
  }

  /** What `o` can still be made to pay out of the locked balance of `u` in `mint`. */
  function OrderOwes(o: Order, u: nat, mint: string): int {
    if o.user == u && PayMint(o) == mint then UnitCost(o) * o.remaining else 0
  }

  function QueueOwes(q: seq<Order>, u: nat, mint: string): int {
    if q == [] then 0 else OrderOwes(q[0], u, mint) + QueueOwes(q[1..], u, mint)
  }

  function LevelsOwe(levels: seq<Level>, u: nat, mint: string): int {
    if levels == [] then 0 else QueueOwes(levels[0].queue, u, mint) + LevelsOwe(levels[1..], u, mint)
  }

  function BookOwes(book: Book, u: nat, mint: string): int {
    LevelsOwe(book.bids, u, mint) + LevelsOwe(book.asks, u, mint)
  }

  /** What the buyer's (quote) or the seller's (base) leg of a match takes from `u` in `mint`. */
  function Leg(side: Side, m: MatchResult, u: nat, mint: string): int {
    if side == Buy
    then if m.buyer == u && m.pair.quote == mint then m.price * m.amount else 0
    else if m.seller == u && m.pair.base == mint then m.amount else 0
  }

  function Legs(side: Side, ms: seq<MatchResult>, u: nat, mint: string): int {
    if ms == [] then 0 else Leg(side, ms[0], u, mint) + Legs(side, ms[1..], u, mint)
  }

  /** Both legs: everything a list of matches takes out of the locked balance of `u` in `mint`. */
  function Demand(ms: seq<MatchResult>, u: nat, mint: string): int {
    Legs(Buy, ms, u, mint) + Legs(Sell, ms, u, mint)
  }

  function QuoteTotal(ms: seq<MatchResult>): int {
    if ms == [] then 0 else ms[0].price * ms[0].amount + QuoteTotal(ms[1..])
  }

  function BaseTotal(ms: seq<MatchResult>): int {
    if ms == [] then 0 else ms[0].amount + BaseTotal(ms[1..])
  }

  /** What the taker on side `side` pays for the matches. */
  function Paid(side: Side, ms: seq<MatchResult>): int {
    if side == Buy then QuoteTotal(ms) else BaseTotal(ms)
  }

  function QueueLots(q: seq<Order>): int {
    if q == [] then 0 else q[0].remaining + QueueLots(q[1..])
  }

  function Lots(levels: seq<Level>): int {
    if levels == [] then 0 else QueueLots(levels[0].queue) + Lots(levels[1..])
  }

  // Sums distribute over concatenation.

  lemma {:induction false} QueueSums(q: seq<Order>, q': seq<Order>, u: nat, mint: string)
    ensures QueueOwes(q + q', u, mint) == QueueOwes(q, u, mint) + QueueOwes(q', u, mint)
    ensures QueueLots(q + q') == QueueLots(q) + QueueLots(q')
  {
    if q == [] {
      assert q + q' == q';
    } else {
      assert (q + q')[1..] == q[1..] + q';
      QueueSums(q[1..], q', u, mint);
    }
  }

  lemma {:induction false} MatchSums(ms: seq<MatchResult>, ms': seq<MatchResult>, u: nat, mint: string)
    ensures Legs(Buy, ms + ms', u, mint) == Legs(Buy, ms, u, mint) + Legs(Buy, ms', u, mint)
    ensures Legs(Sell, ms + ms', u, mint) == Legs(Sell, ms, u, mint) + Legs(Sell, ms', u, mint)
    ensures QuoteTotal(ms + ms') == QuoteTotal(ms) + QuoteTotal(ms')
    ensures BaseTotal(ms + ms') == BaseTotal(ms) + BaseTotal(ms')
  {
    if ms == [] {
      assert ms + ms' == ms';
    } else {
      assert (ms + ms')[1..] == ms[1..] + ms';
      MatchSums(ms[1..], ms', u, mint);
    }
  }

  // ---------------------------------------------------------------------------------------
  // Well-formed resting orders
  // ---------------------------------------------------------------------------------------

  predicate RestsAt(o: Order, side: Side, pair: Pair, p: Price) {
    && o.side == side && o.style == Limit && o.pair == pair && o.price == Some(p)
    && o.quoteAmount == None && o.remainingQuote == None
    && 0 < o.remaining && o.filled + o.remaining == o.amount
  }

  ghost predicate GoodQueue(q: seq<Order>, side: Side, pair: Pair, p: Price) {
    forall o :: o in q ==> RestsAt(o, side, pair, p)
  }

  /** Levels in price order, none empty, each holding orders of its own price and side with
      something left to trade. */
  ghost predicate GoodLevels(levels: seq<Level>, side: Side, pair: Pair)
    ensures GoodLevels(levels, side, pair) ==> Sorted(side, levels)
  {
    levels == [] ||
    (&& levels[0].queue != []
     && GoodQueue(levels[0].queue, side, pair, levels[0].price)
     && (forall r :: r in Prices(levels[1..]) ==> Ahead(side, levels[0].price, r))
     && GoodLevels(levels[1..], side, pair))
  }

  /** The two sides do not overlap. */
  ghost predicate Uncrossed(book: Book) {
    forall b, a :: b in Prices(book.bids) && a in Prices(book.asks) ==> b < a
  }

  ghost predicate GoodBook(book: Book, pair: Pair) {
    GoodLevels(book.bids, Buy, pair) && GoodLevels(book.asks, Sell, pair) && Uncrossed(book)
  }

  /** A taker that has not overspent, on the other side of the market from `side`. */
  predicate TakerOk(t: Order, side: Side, pair: Pair) {
    && t.side == side.Opposite() && t.pair == pair
    && (t.style == Limit ==> t.price.Some? && t.remainingQuote.None?)
    && (t.side == Sell ==> t.remainingQuote.None?)
    && t.filled + t.remaining == t.amount
    && match t.remainingQuote
       case Some(rq) => 0 <= rq && t.remaining == 0
       case None => 0 <= t.remaining
  }

  /** Everything about a taker that matching does not change. */
  predicate SameTaker(t: Order, t': Order) {
    && t'.id == t.id && t'.user == t.user && t'.side == t.side && t'.style == t.style
    && t'.pair == t.pair && t'.price == t.price && t'.quoteAmount == t.quoteAmount
    && t'.remainingQuote.Some? == t.remainingQuote.Some?
  }
}
