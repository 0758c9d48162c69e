/** The matching loops, as they are written: levels are taken best first, makers are popped from
    the front, own orders are pushed to the back, and a pop counter cuts off endless rotation.

    `discarded` records the makers that a `break` leaves outside every queue. */
module Matcher {
  import opened Types
  import opened OrderBooks
  import opened MatchingSpec

  /** Orders plus levels: what every round of the outer loop makes smaller. */
  ghost function Size(levels: seq<Level>): nat {
    if levels == [] then 0 else 1 + |levels[0].queue| + Size(levels[1..])
  }

  lemma SizeWithLevel(p: Price, q: seq<Order>, rest: seq<Level>)
    ensures Size(WithLevel(p, q, rest)) == if q == [] then Size(rest) else 1 + |q| + Size(rest)
  {
    if q != [] {
      assert WithLevel(p, q, rest)[1..] == rest;
    }
  }

  /** What the pop counter knows about the queue after `k` of its `n` initial orders were popped:
      everything behind the orders not yet popped is the taker's own, unless the front maker has
      just been bought in part and the budget is down to dust. */
  ghost predicate Popped(t: Order, p: Price, q: seq<Order>, n: nat, k: nat) {
    || (forall i :: 0 <= i < |q| && n - k <= i ==> q[i].user == t.user)
    || (k <= n && q != [] && q[0].user != t.user && Stalls(t, Fill(t, p, q[0])))
  }

  lemma Chain(whole: Outcome, ms: seq<MatchResult>, gone: seq<Order>, part: Outcome,
              ms': seq<MatchResult>, gone': seq<Order>, part': Outcome)
    requires Continues(whole, ms, gone, part) && Continues(part, ms', gone', part')
    ensures Continues(whole, ms + ms', gone + gone', part')
  {
    assert ms + (ms' + part'.matches) == (ms + ms') + part'.matches;
  }

  /** A level without orders is removed without any effect on the outcome. */
  lemma DropEmptyLevel(t: Order, p: Price, rest: seq<Level>)
    requires !Exhausted(t) && Crosses(t, p)
    ensures Sweep(t, [Level(p, [])] + rest) == Sweep(t, rest)
  {
    assert ([Level(p, [])] + rest)[1..] == rest;
  }

  /** One round at the best price: pop until the taker is done, the queue is empty, or a `break`. */
  method MatchBuyLevel(order: Order, currentAsk: Price, queue: seq<Order>, ghost rest: seq<Level>)
    returns (buyOrder: Order, sellOrders: seq<Order>, matches: seq<MatchResult>, ghost discarded: seq<Order>)
    requires !Exhausted(order) && Crosses(order, currentAsk) && order.side == Buy
    requires order.style == Limit ==> order.price.Some?
    ensures Continues(Sweep(order, WithLevel(currentAsk, queue, rest)), matches, discarded,
                      Sweep(buyOrder, WithLevel(currentAsk, sellOrders, rest)))
    ensures Exhausted(buyOrder) || sellOrders == [] || |sellOrders| < |queue|
    ensures buyOrder.user == order.user && buyOrder.side == order.side
    ensures buyOrder.style == order.style && buyOrder.price == order.price
  {
    hide Sweep;
    buyOrder, sellOrders, matches, discarded := order, queue, [], [];
    var initialQueueLen := |queue|;
    var processedCount := 0;
    ghost var whole := Sweep(order, WithLevel(currentAsk, queue, rest));
    assert Continues(whole, [], [], whole);
    hide Continues;
    while sellOrders != []
      invariant buyOrder.user == order.user && buyOrder.side == Buy
      invariant buyOrder.style == order.style && buyOrder.price == order.price
      invariant Crosses(buyOrder, currentAsk)
      invariant |sellOrders| <= initialQueueLen
      invariant processedCount <= 2 * initialQueueLen
      invariant !Exhausted(buyOrder)
      invariant Popped(buyOrder, currentAsk, sellOrders, initialQueueLen, processedCount)
      invariant Continues(whole, matches, discarded, Sweep(buyOrder, WithLevel(currentAsk, sellOrders, rest)))
      decreases 2 * initialQueueLen + 1 - processedCount
    {
      ghost var popped := sellOrders;
      var sellOrder := sellOrders[0];
      sellOrders := sellOrders[1..];
      processedCount := processedCount + 1;
      if processedCount > initialQueueLen * 2 {
        StepCutOff(whole, matches, discarded, buyOrder, currentAsk, popped, rest);
        discarded := discarded + [sellOrder];
        break;
      }
      if buyOrder.user == sellOrder.user {
        sellOrders := sellOrders + [sellOrder];
        StepRotate(whole, matches, discarded, buyOrder, currentAsk, popped, rest);
        continue;
      }
      var matchAmount := match buyOrder.remainingQuote
        case Some(remainingQuote) => Min(remainingQuote / currentAsk, sellOrder.remaining)
        case None => Min(buyOrder.remaining, sellOrder.remaining);
      if matchAmount <= 0 {
        StepStall(whole, matches, discarded, buyOrder, currentAsk, popped, rest);
        discarded := discarded + [sellOrder];
        break;
      }
      var matchPrice := currentAsk;
      var matchResult := MatchResult(buyOrder.id, sellOrder.id, buyOrder.user, sellOrder.user,
                                     matchPrice, matchAmount, buyOrder.pair);
      ghost var before := buyOrder;
      ghost var maker := sellOrder;
      if buyOrder.remainingQuote.Some? {
        var quoteUsed := matchAmount * matchPrice;
        buyOrder := buyOrder.(remainingQuote := Some(buyOrder.remainingQuote.value - quoteUsed));
        buyOrder := buyOrder.(amount := buyOrder.amount + matchAmount, filled := buyOrder.filled + matchAmount);
        buyOrder := buyOrder.(remaining := buyOrder.amount - buyOrder.filled);
      } else {
        buyOrder := buyOrder.(remaining := buyOrder.remaining - matchAmount, filled := buyOrder.filled + matchAmount);
      }
      sellOrder := sellOrder.(remaining := sellOrder.remaining - matchAmount, filled := sellOrder.filled + matchAmount);
      if sellOrder.remaining > 0 {
        sellOrders := [sellOrder] + sellOrders;
      }
      assert buyOrder == Take(before, currentAsk, matchAmount);
      assert sellOrders == AfterTrade(popped, matchAmount);
      StepMatch(whole, matches, discarded, before, currentAsk, popped, rest);
      matches := matches + [matchResult];
      if Exhausted(buyOrder) {
        break;
      }
      if sellOrder.remaining > 0 {
        DustStalls(before, currentAsk, maker);
      }
    }
  }

  method MatchBuyOrder(order: Order, book: OrderBook)
    returns (buyOrder: Order, matches: seq<MatchResult>, ghost discarded: seq<Order>)
    requires order.side == Buy && (order.style == Limit ==> order.price.Some?)
    requires !Exhausted(order)
    modifies book
    ensures book.bids == old(book.bids)
    ensures var o := Sweep(order, old(book.asks));
            && matches == o.matches && buyOrder == o.taker && book.asks == o.levels
            && multiset(discarded) == multiset(o.lost)
  {
    hide Sweep;
    buyOrder, matches, discarded := order, [], [];
    var bestAsk := book.GetBestAsk();
    if bestAsk.None? {
      SweepStops(order, book.asks);
      return;
    }
    if buyOrder.style == Limit && buyOrder.price.value < bestAsk.value {
      SweepStops(order, book.asks);
      return;
    }
    ghost var whole := Sweep(order, book.asks);
    while true
      invariant book.bids == old(book.bids)
      invariant buyOrder.user == order.user && buyOrder.side == Buy
      invariant buyOrder.style == order.style && buyOrder.price == order.price
      invariant Continues(whole, matches, discarded, Sweep(buyOrder, book.asks))
      decreases if Exhausted(buyOrder) then 0 else 1 + Size(book.asks)
    {
      if Exhausted(buyOrder) {
        SweepStops(buyOrder, book.asks);
        break;
      }
      var best := book.GetBestAsk();
      if best.None? {
        SweepStops(buyOrder, book.asks);
        break;
      }
      var currentAsk := best.value;
      if buyOrder.style == Limit && buyOrder.price.value < currentAsk {
        SweepStops(buyOrder, book.asks);
        break;
      }
      var sellOrders := book.asks[0].queue;
      var rest := book.asks[1..];
      assert book.asks == [Level(currentAsk, sellOrders)] + rest;
      if sellOrders == [] {
        DropEmptyLevel(buyOrder, currentAsk, rest);
      }
      ghost var before := buyOrder;
      var queue, found;
      ghost var gone;
      buyOrder, queue, found, gone := MatchBuyLevel(buyOrder, currentAsk, sellOrders, rest);
      Chain(whole, matches, discarded, Sweep(before, book.asks), found, gone,
            Sweep(buyOrder, WithLevel(currentAsk, queue, rest)));
      matches := matches + found;
      discarded := discarded + gone;
      SizeWithLevel(currentAsk, queue, rest);
      if queue == [] {
        book.asks := rest;
      } else {
        book.asks := [Level(currentAsk, queue)] + rest;
      }
    }
  }

  /** One round at the best price: pop until the taker is done, the queue is empty, or a `break`. */
  method MatchSellLevel(order: Order, currentBid: Price, queue: seq<Order>, ghost rest: seq<Level>)
    returns (sellOrder: Order, buyOrders: seq<Order>, matches: seq<MatchResult>, ghost discarded: seq<Order>)
    requires !Exhausted(order) && Crosses(order, currentBid) && order.side == Sell
    requires order.style == Limit ==> order.price.Some?
    requires order.remainingQuote.None? && 0 < order.remaining
    ensures Continues(Sweep(order, WithLevel(currentBid, queue, rest)), matches, discarded,
                      Sweep(sellOrder, WithLevel(currentBid, buyOrders, rest)))
    ensures Exhausted(sellOrder) || buyOrders == [] || |buyOrders| < |queue|
    ensures sellOrder.user == order.user && sellOrder.side == order.side
    ensures sellOrder.style == order.style && sellOrder.price == order.price
    ensures sellOrder.remainingQuote.None? && 0 <= sellOrder.remaining
  {
    hide Sweep;
    sellOrder, buyOrders, matches, discarded := order, queue, [], [];
    var initialQueueLen := |queue|;
    var processedCount := 0;
    ghost var whole := Sweep(order, WithLevel(currentBid, queue, rest));
    assert Continues(whole, [], [], whole);
    hide Continues;
    while buyOrders != []
      invariant sellOrder.user == order.user && sellOrder.side == Sell
      invariant sellOrder.style == order.style && sellOrder.price == order.price
      invariant sellOrder.remainingQuote.None? && 0 < sellOrder.remaining
      invariant Crosses(sellOrder, currentBid)
      invariant |buyOrders| <= initialQueueLen
      invariant processedCount <= 2 * initialQueueLen
      invariant Popped(sellOrder, currentBid, buyOrders, initialQueueLen, processedCount)
      invariant Continues(whole, matches, discarded, Sweep(sellOrder, WithLevel(currentBid, buyOrders, rest)))
      decreases 2 * initialQueueLen + 1 - processedCount
    {
      ghost var popped := buyOrders;
      var buyOrder := buyOrders[0];
      buyOrders := buyOrders[1..];
      processedCount := processedCount + 1;
      if processedCount > initialQueueLen * 2 {
        StepCutOff(whole, matches, discarded, sellOrder, currentBid, popped, rest);
        discarded := discarded + [buyOrder];
        break;
      }
      if buyOrder.user == sellOrder.user {
        buyOrders := buyOrders + [buyOrder];
        StepRotate(whole, matches, discarded, sellOrder, currentBid, popped, rest);
        continue;
      }
      var matchAmount := Min(sellOrder.remaining, buyOrder.remaining);
      var matchPrice := currentBid;
      var matchResult := MatchResult(buyOrder.id, sellOrder.id, buyOrder.user, sellOrder.user,
                                     matchPrice, matchAmount, sellOrder.pair);
      ghost var before := sellOrder;
      sellOrder := sellOrder.(remaining := sellOrder.remaining - matchAmount, filled := sellOrder.filled + matchAmount);
      buyOrder := buyOrder.(remaining := buyOrder.remaining - matchAmount, filled := buyOrder.filled + matchAmount);
      if buyOrder.remaining > 0 {
        buyOrders := [buyOrder] + buyOrders;
      }
      assert sellOrder == Take(before, currentBid, matchAmount);
      assert buyOrders == AfterTrade(popped, matchAmount);
      StepMatch(whole, matches, discarded, before, currentBid, popped, rest);
      matches := matches + [matchResult];
      if sellOrder.remaining == 0 {
        break;
      }
    }
  }

  method MatchSellOrder(order: Order, book: OrderBook)
    returns (sellOrder: Order, matches: seq<MatchResult>, ghost discarded: seq<Order>)
    requires order.side == Sell && (order.style == Limit ==> order.price.Some?)
    requires order.remainingQuote.None? && 0 < order.remaining
    modifies book
    ensures book.asks == old(book.asks)
    ensures var o := Sweep(order, old(book.bids));
            && matches == o.matches && sellOrder == o.taker && book.bids == o.levels
            && multiset(discarded) == multiset(o.lost)
  {
    hide Sweep;
    sellOrder, matches, discarded := order, [], [];
    var bestBid := book.GetBestBid();
    if bestBid.None? {
      SweepStops(order, book.bids);
      return;
    }
    if sellOrder.style == Limit && sellOrder.price.value > bestBid.value {
      SweepStops(order, book.bids);
      return;
    }
    ghost var whole := Sweep(order, book.bids);
    while true
      invariant book.asks == old(book.asks)
      invariant sellOrder.user == order.user && sellOrder.side == Sell
      invariant sellOrder.style == order.style && sellOrder.price == order.price
      invariant sellOrder.remainingQuote.None? && 0 <= sellOrder.remaining
      invariant Continues(whole, matches, discarded, Sweep(sellOrder, book.bids))
      decreases if Exhausted(sellOrder) then 0 else 1 + Size(book.bids)
    {
      if sellOrder.remaining == 0 {
        SweepStops(sellOrder, book.bids);
        break;
      }
      var best := book.GetBestBid();
      if best.None? {
        SweepStops(sellOrder, book.bids);
        break;
      }
      var currentBid := best.value;
      if sellOrder.style == Limit && sellOrder.price.value > currentBid {
        SweepStops(sellOrder, book.bids);
        break;
      }
      var buyOrders := book.bids[0].queue;
      var rest := book.bids[1..];
      assert book.bids == [Level(currentBid, buyOrders)] + rest;
      if buyOrders == [] {
        DropEmptyLevel(sellOrder, currentBid, rest);
      }
      ghost var before := sellOrder;
      var queue, found;
      ghost var gone;
      sellOrder, queue, found, gone := MatchSellLevel(sellOrder, currentBid, buyOrders, rest);
      Chain(whole, matches, discarded, Sweep(before, book.bids), found, gone,
            Sweep(sellOrder, WithLevel(currentBid, queue, rest)));
      matches := matches + found;
      discarded := discarded + gone;
      SizeWithLevel(currentBid, queue, rest);
      if queue == [] {
        book.bids := rest;
      } else {
        book.bids := [Level(currentBid, queue)] + rest;
      }
    }
  }

  /** `match_order`: nothing to do for a filled taker, otherwise the opposite side is swept. */
  method MatchOrder(order: Order, book: OrderBook)
    returns (taker: Order, matches: seq<MatchResult>, ghost discarded: seq<Order>)
    requires order.style == Limit ==> order.price.Some?
    requires order.side == Sell ==> order.remainingQuote.None?
    modifies book
    ensures var o := MatchSpec(order, old(book.View()));
            && matches == o.matches && taker == o.taker
            && book.View() == old(book.View()).With(order.side.Opposite(), o.levels)
            && multiset(discarded) == multiset(o.lost)
  {
    taker, matches, discarded := order, [], [];
    var hasRemaining := match order.remainingQuote
      case Some(remainingQuote) => remainingQuote > 0
      case None => order.remaining > 0;
    if !hasRemaining {
      return;
    }
    if order.side == Buy {
      taker, matches, discarded := MatchBuyOrder(order, book);
    } else {
      taker, matches, discarded := MatchSellOrder(order, book);
    }
  }
}
