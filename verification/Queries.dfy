/** Searching and reading one side of a book, with the loops of the handlers. */
module Queries {
  import opened Types
  import opened OrderBooks
  import opened Obligations
  import opened SweepProperties
  import opened EngineSpec

  // ---------------------------------------------------------------------------------------
  // Finding an order by id, in ascending price order
  // ---------------------------------------------------------------------------------------

  method FindBid(bids: seq<Level>, id: nat) returns (level: Option<nat>)
    ensures level == LevelOf(Buy, bids, id)
  {
    var i := |bids|;
    assert bids[..i] == bids;
    while i > 0
      invariant 0 <= i <= |bids|
      invariant LastLevelOf(bids, id) == LastLevelOf(bids[..i], id)
    {
      i := i - 1;
      assert bids[..i + 1][..i] == bids[..i];
      if PositionOf(bids[i].queue, id).Some? {
        return Some(i);
      }
    }
    level := None;
  }

  method FindAsk(asks: seq<Level>, id: nat) returns (level: Option<nat>)
    ensures level == LevelOf(Sell, asks, id)
  {
    var i := 0;
    while i < |asks|
      invariant 0 <= i <= |asks|
      invariant FirstLevelOf(asks, id) ==
                match FirstLevelOf(asks[i..], id)
                case Some(j) => Some(i + j)
                case None => None
    {
      assert asks[i..][1..] == asks[i + 1..];
      if PositionOf(asks[i].queue, id).Some? {
        return Some(i);
      }
      i := i + 1;
    }
    level := None;
  }

  /** Where a cancel finds the order: bids first, lowest price first, oldest first. */
  method Locate(book: Book, id: nat) returns (found: bool, side: Side, level: nat, pos: nat)
    ensures found <==> SideOf(book, id).Some?
    ensures found ==>
              && SideOf(book, id) == Some(side) && LevelOf(side, book.On(side), id) == Some(level)
              && level < |book.On(side)| && PositionOf(book.On(side)[level].queue, id) == Some(pos)
  {
    hide LevelOf, PositionOf;
    var bid := FindBid(book.bids, id);
    if bid.Some? {
      return true, Buy, bid.value, PositionOf(book.bids[bid.value].queue, id).value;
    }
    var ask := FindAsk(book.asks, id);
    if ask.Some? {
      return true, Sell, ask.value, PositionOf(book.asks[ask.value].queue, id).value;
    }
    found, side, level, pos := false, Buy, 0, 0;
  }

  // ---------------------------------------------------------------------------------------
  // Reading a side to a depth
  // ---------------------------------------------------------------------------------------

  /** The first max(1, depth) orders, or all of them. */
  function Top(orders: seq<Order>, depth: Option<nat>): seq<Order> {
    match depth
    case None => orders
    case Some(d) =>
      var n := if d == 0 then 1 else d;
      if n < |orders| then orders[..n] else orders
  }

  /** How many of `n` orders a query to a depth shows: at least one if there is any. */
  function Shown(n: nat, depth: Option<nat>): nat {
    match depth
    case None => n
    case Some(d) => Min(n, if d == 0 then 1 else d)
  }

  /** A query shows the beginning of the list. */
  lemma TopIsAPrefix(orders: seq<Order>, depth: Option<nat>)
    ensures Top(orders, depth) <= orders && |Top(orders, depth)| == Shown(|orders|, depth)
  {}

  predicate Deep(orders: seq<Order>, depth: Option<nat>) {
    depth.Some? && |orders| >= depth.value
  }

  lemma {:induction false} FlatSplits(levels: seq<Level>, i: nat)
    requires i <= |levels|
    ensures Flat(levels) == Flat(levels[..i]) + Flat(levels[i..])
  {
    if i == 0 {
      assert levels[..0] == [] && levels[0..] == levels;
    } else {
      FlatSplits(levels[1..], i - 1);
      assert levels[..i][1..] == levels[1..][..i - 1] && levels[1..][i - 1..] == levels[i..];
    }
  }

  lemma FlatGrows(levels: seq<Level>, i: nat)
    requires i < |levels|
    ensures Flat(levels[..i + 1]) == Flat(levels[..i]) + levels[i].queue
  {
    FlatSplits(levels[..i + 1], i);
    assert levels[..i + 1][..i] == levels[..i] && levels[..i + 1][i..] == [levels[i]];
    assert Flat([levels[i]]) == levels[i].queue + Flat([]);
  }

  /** The inner loop: append a queue until the list is deep enough. */
  method CollectQueue(before: seq<Order>, queue: seq<Order>, depth: Option<nat>) returns (orders: seq<Order>)
    requires queue != []
    ensures before < orders <= before + queue
    ensures orders == before + queue || Deep(orders, depth)
    ensures depth.Some? && |before| < depth.value ==> |orders| <= depth.value
    ensures depth.Some? && |before| >= depth.value ==> |orders| == |before| + 1
  {
    orders := before;
    var j := 0;
    while j < |queue|
      invariant 0 <= j <= |queue|
      invariant orders == before + queue[..j]
      invariant j == 0 || !Deep(orders, depth)
    {
      orders := orders + [queue[j]];
      j := j + 1;
      assert orders == before + queue[..j];
      if depth.Some? {
        if |orders| >= depth.value {
          break;
        }
      }
    }
    assert queue[..|queue|] == queue;
  }

  /** The early-exit loops over a side, best price first: a prefix of the price-time order. */
  method Collect(levels: seq<Level>, depth: Option<nat>) returns (orders: seq<Order>)
    requires forall l :: l in levels ==> l.queue != []
    ensures orders == Top(Flat(levels), depth)
    ensures orders <= Flat(levels) && |orders| == Shown(|Flat(levels)|, depth)
  {
    TopIsAPrefix(Flat(levels), depth);
    orders := [];
    var i := 0;
    while i < |levels|
      invariant 0 <= i <= |levels|
      invariant orders == Flat(levels[..i])
      invariant if i == 0 then orders == [] else !Deep(orders, depth)
    {
      ghost var before := orders;
      assert levels[i] in levels;
      FlatGrows(levels, i);
      FlatSplits(levels, i + 1);
      orders := CollectQueue(orders, levels[i].queue, depth);
      if depth.Some? {
        if |orders| >= depth.value {
          assert orders <= before + levels[i].queue <= Flat(levels);
          PrefixIsTop(Flat(levels), orders, depth.value);
          return;
        }
      }
      i := i + 1;
    }
    assert levels[..i] == levels;
  }

  lemma PrefixIsTop(all: seq<Order>, orders: seq<Order>, d: nat)
    requires orders <= all && |orders| == if d == 0 then 1 else d
    ensures orders == Top(all, Some(d))
  {
    assert all[..|all|] == all;
  }

  /** The engine's best price, read off the first order of a query, is the side's best price. */
  lemma FirstOfTop(levels: seq<Level>, side: Side, pair: Pair)
    requires GoodLevels(levels, side, pair)
    ensures var top := Top(Flat(levels), Some(1));
            BestPrice(levels) == if top == [] then None else top[0].price
  {
    if levels != [] {
      var first := levels[0].queue[0];
      assert first in levels[0].queue;
      assert Flat(levels)[0] == first;
    }
  }
}
