/** What the owner of an order can rely on. */
module Settlement {
  import opened Types
  import opened OrderBooks
  import opened MatchingSpec
  import opened Obligations
  import opened SweepProperties
  import opened Ledgers
  import opened EngineSpec
  import opened BookKeeping
  import opened Solvency
  import opened DbCommands

  /** The taker is never a maker of its own matches. */
  lemma {:induction false} NoOwnMakers(t: Order, ms: seq<MatchResult>, mint: string)
    requires forall m :: m in ms ==> SoundMatch(t, m)
    ensures Legs(t.side.Opposite(), ms, t.user, mint) == 0
  {
    if ms != [] {
      assert SoundMatch(t, ms[0]) by { assert ms[0] in ms; }
      NoOwnMakers(t, ms[1..], mint);
    }
  }

  /** A taker whose leftover lock is released pays for its matches and nothing else. */
  lemma TakerSettles(s: State, o: Order)
    requires Inv(s) && ValidOrder(o) && Process(s, o).Accepted?
    requires o.style == Market || Process(s, o).outcome.taker.remaining == 0
    ensures var a := Process(s, o);
            var mint := PayMint(o);
            var paid := Paid(o.side, a.outcome.matches);
            && a.refund == LockAmount(o) - paid && 0 <= paid <= LockAmount(o)
            && At(a.final, o.user, mint).locked == At(s.ledger, o.user, mint).locked
            && At(a.final, o.user, mint).available ==
               At(s.ledger, o.user, mint).available - paid + Gains(a.outcome.matches, o.user, mint)
  {
    hide MatchSpec, ExecuteAll, Owed, Lock, Unlock;
    var a := Process(s, o);
    MatchingStage(s, o);
    PaidWithinLock(o, a.outcome);
    TradesAreCovered(s, o);
    BalancesAfterSubmit(s, o, o.user, PayMint(o));
    TakerPays(o, a.outcome.matches, o.user, PayMint(o));
    NoOwnMakers(o, a.outcome.matches, PayMint(o));
  }

  /** Market orders are immediate-or-cancel.  The lock on the paying asset returns to what it was;
      a buy spends at most its budget; its own side of the book and every other book stay as they
      were; and matching stops only when the taker is done or the other side is empty. */
  lemma MarketOrderIsImmediateOrCancel(s: State, o: Order)
    requires Inv(s) && ValidOrder(o) && o.style == Market && Process(s, o).Accepted?
    ensures var a := Process(s, o);
            var (s', r) := Submit(s, o);
            && At(s'.ledger, o.user, PayMint(o)).locked == At(s.ledger, o.user, PayMint(o)).locked
            && r == Some(a.outcome.matches)
            && (o.side == Buy ==> 0 <= QuoteTotal(a.outcome.matches) <= o.quoteAmount.value)
            && (o.side == Sell ==> 0 <= BaseTotal(a.outcome.matches) <= o.amount)
            && s'.books == s.books[o.pair := BookOf(s, o.pair).With(o.side.Opposite(), a.outcome.levels)]
            && (Exhausted(a.outcome.taker) || a.book.On(o.side.Opposite()) == [])
  {
    hide ExecuteAll, Lock, Unlock, MatchSpec, Owed;
    TakerSettles(s, o);
    TradesAreCovered(s, o);
    MatchingStage(s, o);
  }

  /** A limit order filled on submission settles exactly: it gets its whole amount, a buyer pays
      what was matched and never more than limit * amount, the difference is refunded, and the lock
      returns to what it was.  The status sent to the database says so. */
  lemma FilledLimitOrderSettles(s: State, o: Order)
    requires Inv(s) && ValidOrder(o) && o.style == Limit
    requires Process(s, o).Accepted? && Process(s, o).outcome.taker.remaining == 0
    ensures var a := Process(s, o);
            var ms := a.outcome.matches;
            && BaseTotal(ms) == o.amount
            && (o.side == Buy ==> QuoteTotal(ms) <= o.price.value * o.amount
                                  && a.refund == o.price.value * o.amount - QuoteTotal(ms))
            && (o.side == Sell ==> a.refund == 0)
            && At(a.final, o.user, PayMint(o)).locked == At(s.ledger, o.user, PayMint(o)).locked
            && Emitted(s, o)[|Emitted(s, o)| - 1] == UpdateOrderStatus(o.id, "filled", o.amount, QuoteTotal(ms))
  {
    hide MatchSpec, ExecuteAll, Owed, Lock, Unlock, Trades;
    MatchingStage(s, o);
    TakerSettles(s, o);
    TradesAreCovered(s, o);
  }

  /** A limit order that is not filled on submission rests with what is left of it, behind everybody
      already at its price, and nobody acceptable is left on the other side.  After a partial fill
      the status sent to the database agrees with the resting order. */
  lemma UnfilledLimitOrderRests(s: State, o: Order)
    requires Inv(s) && ValidOrder(o) && o.style == Limit
    requires Process(s, o).Accepted? && Process(s, o).outcome.taker.remaining > 0
    ensures var a := Process(s, o);
            var ms := a.outcome.matches;
            var p := o.price.value;
            var rest := o.(filled := BaseTotal(ms), remaining := o.amount - BaseTotal(ms));
            var other := a.book.On(o.side.Opposite());
            && QueueAt(a.book.On(o.side), p) == QueueAt(BookOf(s, o.pair).On(o.side), p) + [rest]
            && (forall r: Price :: r != p ==> QueueAt(a.book.On(o.side), r) == QueueAt(BookOf(s, o.pair).On(o.side), r))
            && (other == [] || !Crosses(o, other[0].price))
            && (ms != [] ==> Emitted(s, o)[|Emitted(s, o)| - 1] ==
                             UpdateOrderStatus(o.id, "partial", rest.filled, QuoteTotal(ms)))
  {
    RemainderOf(s, o);
    PartialReport(s, o);
    OwedCoversABook(s, o.pair, 0, "");
    hide Process, Emitted, Insert, QueueAt, Inv, ValidOrder, Crosses;
    var t := Process(s, o).outcome.taker;
    InsertAppends(o.side, BookOf(s, o.pair).On(o.side), t, o.price.value);
  }

  /** What is left of a limit order, and where it goes. */
  lemma RemainderOf(s: State, o: Order)
    requires Inv(s) && ValidOrder(o) && o.style == Limit
    requires Process(s, o).Accepted? && Process(s, o).outcome.taker.remaining > 0
    ensures var a := Process(s, o);
            var t := a.outcome.taker;
            var swept := BookOf(s, o.pair).With(o.side.Opposite(), a.outcome.levels);
            && t == o.(filled := BaseTotal(a.outcome.matches), remaining := o.amount - BaseTotal(a.outcome.matches))
            && a.book == AddTo(swept, t, o.price.value)
            && (a.outcome.levels == [] || !Crosses(o, a.outcome.levels[0].price))
  {
    hide MatchSpec, ExecuteAll, Lock, Unlock, AddTo, Release, Refund;
    MatchingStage(s, o);
  }

  lemma PartialReport(s: State, o: Order)
    requires Inv(s) && ValidOrder(o) && o.style == Limit
    requires Process(s, o).Accepted? && Process(s, o).outcome.taker.remaining > 0
    ensures var ms := Process(s, o).outcome.matches;
            ms != [] ==>
              && Emitted(s, o) != []
              && Emitted(s, o)[|Emitted(s, o)| - 1] == UpdateOrderStatus(o.id, "partial", BaseTotal(ms), QuoteTotal(ms))
  {
    RemainderOf(s, o);
    hide Process, Trades;
  }

  // ---------------------------------------------------------------------------------------
  // Submit, then cancel
  // ---------------------------------------------------------------------------------------

  /** No resting order of the book has this id. */
  ghost predicate FreshIn(levels: seq<Level>, id: nat) {
    forall l, o :: l in levels && o in l.queue ==> o.id != id
  }

  /** After `Insert` the order stands alone under its id at the end of its level's queue, and taking
      it out again restores the side. */
  lemma {:induction false} InsertThenRemove(side: Side, levels: seq<Level>, o: Order, p: Price)
    returns (i: nat, pos: nat)
    requires Sorted(side, levels) && FreshIn(levels, o.id)
    requires forall l :: l in levels ==> l.queue != []
    ensures var levels' := Insert(side, levels, o, p);
            && i < |levels'| && pos < |levels'[i].queue|
            && OnlyAt(levels', o.id, i, pos) && levels'[i].queue[pos] == o
            && RemoveAt(levels', i, pos) == levels
  {
    hide OnlyAt, RemoveAt;
    if levels == [] || Ahead(side, p, levels[0].price) {
      i, pos := 0, 0;
      RemoveBehind(p, [], o, levels);
      OnlyBehind(p, [], o, levels);
      assert [] + [o] == [o];
    } else if levels[0].price == p {
      i, pos := 0, |levels[0].queue|;
      assert levels == [levels[0]] + levels[1..];
      RemoveBehind(p, levels[0].queue, o, levels[1..]);
      OnlyBehind(p, levels[0].queue, o, levels[1..]);
    } else {
      i, pos := InsertThenRemove(side, levels[1..], o, p);
      i := i + 1;
      assert levels == [levels[0]] + levels[1..];
      RemoveUnfolds(Insert(side, levels, o, p), i, pos);
      OnlyLater(levels[0], Insert(side, levels[1..], o, p), o.id, i - 1, pos);
    }
  }

  lemma RemoveBehind(p: Price, q: seq<Order>, o: Order, rest: seq<Level>)
    ensures RemoveAt([Level(p, q + [o])] + rest, 0, |q|) == WithLevel(p, q, rest)
  {
    RemoveUnfolds([Level(p, q + [o])] + rest, 0, |q|);
    assert (q + [o])[..|q|] + (q + [o])[|q| + 1..] == q;
    assert ([Level(p, q + [o])] + rest)[1..] == rest;
  }

  lemma OnlyBehind(p: Price, q: seq<Order>, o: Order, rest: seq<Level>)
    requires FreshIn(rest, o.id) && (q != [] ==> FreshIn([Level(p, q)], o.id))
    ensures OnlyAt([Level(p, q + [o])] + rest, o.id, 0, |q|)
  {
    var levels := [Level(p, q + [o])] + rest;
    forall j, k | 0 <= j < |levels| && 0 <= k < |levels[j].queue|
      ensures levels[j].queue[k].id == o.id <==> j == 0 && k == |q|
    {
      if j > 0 {
        assert levels[j] == rest[j - 1] && rest[j - 1] in rest;
        assert levels[j].queue[k] in rest[j - 1].queue;
      } else if k < |q| {
        assert Level(p, q) in [Level(p, q)];
        assert q[k] in q;
      }
    }
  }

  lemma OnlyLater(head: Level, tail: seq<Level>, id: nat, i: nat, pos: nat)
    requires i < |tail| && pos < |tail[i].queue| && OnlyAt(tail, id, i, pos)
    requires forall o :: o in head.queue ==> o.id != id
    ensures OnlyAt([head] + tail, id, i + 1, pos)
  {
    var levels := [head] + tail;
    forall j, k | 0 <= j < |levels| && 0 <= k < |levels[j].queue|
      ensures levels[j].queue[k].id == id <==> j == i + 1 && k == pos
    {
      if j > 0 {
        assert levels[j] == tail[j - 1];
      } else {
        assert head.queue[k] in head.queue;
      }
    }
  }

  /** The only order with this id is the one at `pos` of level `i`. */
  ghost predicate OnlyAt(levels: seq<Level>, id: nat, i: nat, pos: nat)
    requires i < |levels| && pos < |levels[i].queue|
  {
    forall j, k :: 0 <= j < |levels| && 0 <= k < |levels[j].queue| ==>
      (levels[j].queue[k].id == id <==> j == i && k == pos)
  }

  lemma FindsTheOnly(side: Side, levels: seq<Level>, id: nat, i: nat, pos: nat)
    requires i < |levels| && pos < |levels[i].queue| && OnlyAt(levels, id, i, pos)
    ensures LevelOf(side, levels, id) == Some(i) && PositionOf(levels[i].queue, id) == Some(pos)
  {
    hide LevelOf, PositionOf;
    var r := PositionOf(levels[i].queue, id);
    assert levels[i].queue[pos].id == id;
    assert r.Some? && r.value == pos;
    var l := LevelOf(side, levels, id);
    assert l.Some?;
    var k := PositionOf(levels[l.value].queue, id).value;
    assert levels[l.value].queue[k].id == id;
  }

  lemma FindsNone(side: Side, levels: seq<Level>, id: nat)
    requires FreshIn(levels, id)
    ensures LevelOf(side, levels, id) == None
  {
    hide LevelOf, PositionOf;
    forall j, k | 0 <= j < |levels| && 0 <= k < |levels[j].queue| ensures levels[j].queue[k].id != id {
      assert levels[j] in levels && levels[j].queue[k] in levels[j].queue;
    }
  }

  lemma {:induction false} LevelsAreNotEmpty(levels: seq<Level>, side: Side, pair: Pair)
    requires GoodLevels(levels, side, pair)
    ensures forall l :: l in levels ==> l.queue != []
  {
    if levels != [] {
      LevelsAreNotEmpty(levels[1..], side, pair);
    }
  }

  /** A limit order that meets no acceptable price only rests. */
  lemma RestsUnmatched(s: State, o: Order)
    requires Inv(s) && ValidOrder(o) && o.style == Limit && Process(s, o).Accepted?
    requires var levels := BookOf(s, o.pair).On(o.side.Opposite()); levels == [] || !Crosses(o, levels[0].price)
    ensures var a := Process(s, o);
            && a.outcome == Outcome([], o, BookOf(s, o.pair).On(o.side.Opposite()), [])
            && a.book == AddTo(BookOf(s, o.pair), o, o.price.value)
            && a.refund == 0 && a.final == a.locked
            && Submit(s, o) == (State(s.books[o.pair := a.book], a.locked), Some([]))
  {
    OrderIsReady(o);
    SweepStops(o, BookOf(s, o.pair).On(o.side.Opposite()));
  }

  /** Submit then cancel is a round trip.  For a limit order that does not cross, a cancel by its
      owner restores every queue and every balance; a second cancel finds nothing; a cancel by
      anyone else changes nothing. */
  lemma SubmitThenCancel(s: State, o: Order, other: nat)
    requires Inv(s) && ValidOrder(o) && o.style == Limit && Process(s, o).Accepted?
    requires var book := BookOf(s, o.pair);
             && FreshIn(book.bids, o.id) && FreshIn(book.asks, o.id)
             && var levels := book.On(o.side.Opposite()); levels == [] || !Crosses(o, levels[0].price)
    ensures var s1 := Submit(s, o).0;
            var s2 := s.(books := s.books[o.pair := BookOf(s, o.pair)]);
            && Cancel(s1, o.id, o.user, o.pair) == (s2, Cancelled(o))
            && Cancel(s2, o.id, o.user, o.pair) == (s2, NotFound)
            && (other != o.user ==> Cancel(s1, o.id, other, o.pair) == (s1, Unauthorized))
  {
    hide Inv, Process, Submit, Cancel, LevelOf, RemoveAt, Insert, Unlock, FreshIn, ValidOrder, Crosses, Sorted;
    var book := BookOf(s, o.pair);
    SoundBook(s, o);
    RestsUnmatched(s, o);
    LockThenUnlock(s, o);
    CancelUndoesInsert(Submit(s, o).0, s.ledger, book, o, other);
    var s1 := Submit(s, o).0;
    assert s1.books[o.pair := book] == s.books[o.pair := book];
    CancelMisses(s.(books := s.books[o.pair := book]), o.id, o.user, o.pair);
  }

  lemma SoundBook(s: State, o: Order)
    requires Inv(s) && ValidOrder(o)
    requires FreshIn(BookOf(s, o.pair).bids, o.id) && FreshIn(BookOf(s, o.pair).asks, o.id)
    ensures var book := BookOf(s, o.pair);
            && LevelOf(Buy, book.bids, o.id) == None && LevelOf(Sell, book.asks, o.id) == None
            && Sorted(o.side, book.On(o.side)) && FreshIn(book.On(o.side), o.id)
            && (forall l :: l in book.On(o.side) ==> l.queue != [])
            && (o.style == Limit ==> o.price.Some?)
  {
    var book := BookOf(s, o.pair);
    OwedCoversABook(s, o.pair, 0, "");
    LevelsAreNotEmpty(book.On(o.side), o.side, o.pair);
    FindsNone(Buy, book.bids, o.id);
    FindsNone(Sell, book.asks, o.id);
  }

  lemma CancelUndoesInsert(s: State, l: Ledger, book: Book, o: Order, other: nat)
    requires o.price.Some? && o.pair in s.books && s.books[o.pair] == AddTo(book, o, o.price.value)
    requires Sorted(o.side, book.On(o.side)) && FreshIn(book.On(o.side), o.id)
    requires forall l :: l in book.On(o.side) ==> l.queue != []
    requires LevelOf(Buy, book.bids, o.id) == None
    requires Unlock(s.ledger, o.user, PayMint(o), UnitCost(o) * o.remaining) == (l, true)
    ensures Cancel(s, o.id, o.user, o.pair) == (State(s.books[o.pair := book], l), Cancelled(o))
    ensures other != o.user ==> Cancel(s, o.id, other, o.pair) == (s, Unauthorized)
  {
    hide Cancel, LevelOf, PositionOf, RemoveAt, Insert, OnlyAt, Unlock, Sorted, FreshIn;
    var i, pos := InsertThenRemove(o.side, book.On(o.side), o, o.price.value);
    var book1 := s.books[o.pair];
    assert book1.With(o.side, book.On(o.side)) == book;
    CancelFinds(s, o, o.user, i, pos);
    CancelFinds(s, o, other, i, pos);
  }

  lemma CancelFinds(s: State, o: Order, user: nat, i: nat, pos: nat)
    requires o.pair in s.books
    requires var levels := s.books[o.pair].On(o.side);
             i < |levels| && pos < |levels[i].queue| && OnlyAt(levels, o.id, i, pos) && levels[i].queue[pos] == o
    requires o.side == Sell ==> LevelOf(Buy, s.books[o.pair].bids, o.id) == None
    ensures var book := s.books[o.pair];
            var (l, ok) := Unlock(s.ledger, user, PayMint(o), UnitCost(o) * o.remaining);
            Cancel(s, o.id, user, o.pair) ==
            if o.user != user then (s, Unauthorized)
            else (State(s.books[o.pair := book.With(o.side, RemoveAt(book.On(o.side), i, pos))], l),
                  if ok then Cancelled(o) else UnlockFailed)
  {
    hide LevelOf, PositionOf, RemoveAt;
    FindsTheOnly(o.side, s.books[o.pair].On(o.side), o.id, i, pos);
  }

  lemma CancelMisses(s: State, id: nat, user: nat, pair: Pair)
    requires pair in s.books
    requires LevelOf(Buy, s.books[pair].bids, id) == None && LevelOf(Sell, s.books[pair].asks, id) == None
    ensures Cancel(s, id, user, pair) == (s, NotFound)
  {}

  lemma LockThenUnlock(s: State, o: Order)
    requires Inv(s) && ValidOrder(o) && o.style == Limit && Process(s, o).Accepted?
    ensures Unlock(Process(s, o).locked, o.user, PayMint(o), UnitCost(o) * o.remaining) == (s.ledger, true)
  {
    hide MatchSpec, ExecuteAll;
    var u, mint := o.user, PayMint(o);
    OrderIsReady(o);
    assert 0 <= At(s.ledger, u, mint).locked;
    var l := Process(s, o).locked;
    assert (u, mint) in s.ledger by {
      assert 0 < LockAmount(o) by {
        if o.side == Buy { assert 0 < o.price.value * o.amount; }
      }
    }
    assert l[(u, mint) := s.ledger[(u, mint)]] == s.ledger;
  }
}
