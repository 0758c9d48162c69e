/** What each command does, spelled out: every queue of every book and every balance. */
module Effects {
  import opened Types
  import opened OrderBooks
  import opened MatchingSpec
  import opened Obligations
  import opened SweepProperties
  import opened SelfTrade
  import opened Places
  import opened Ledgers
  import opened EngineSpec
  import opened BookKeeping
  import opened Solvency
  import opened Settlement
  import opened DbCommands

  // ---------------------------------------------------------------------------------------
  // Deposits
  // ---------------------------------------------------------------------------------------

  /** One available balance changes by `delta`, or falls to zero; nothing else does. */
  ghost predicate DepositActs(s: State, user: nat, mint: string, delta: int, s': State) {
    var b := At(s.ledger, user, mint);
    && s'.books == s.books
    && Becomes(s.ledger, s'.ledger, user, mint,
               Balance(if 0 <= b.available + delta then b.available + delta else 0, b.locked))
  }

  // ---------------------------------------------------------------------------------------
  // Cancels
  // ---------------------------------------------------------------------------------------

  /** The order a cancel of `id` means: the oldest with this id at the lowest price that has one, among the
      bids if any bid has it. */
  ghost predicate MeantBy(book: Book, id: nat, side: Side, k: nat, pos: nat) {
    var levels := book.On(side);
    && k < |levels| && pos < |levels[k].queue| && levels[k].queue[pos].id == id
    && (forall j :: 0 <= j < pos ==> levels[k].queue[j].id != id)
    && (forall l, o :: l in levels && l.price < levels[k].price && o in l.queue ==> o.id != id)
    && (side == Sell ==> FreshIn(book.bids, id))
  }

  /** The order at `pos` of level `k` is taken out and what it owed is unlocked; every other order keeps its
      queue and its place, and every other balance stays. */
  ghost predicate TakenOut(s: State, pair: Pair, side: Side, k: nat, pos: nat, s': State)
    requires pair in s.books
    requires var levels := s.books[pair].On(side); k < |levels| && pos < |levels[k].queue|
  {
    var level := s.books[pair].On(side)[k];
    var o := level.queue[pos];
    var mint := if side == Buy then pair.quote else pair.base;
    var owed := if side == Buy then level.price * o.remaining else o.remaining;
    var b := At(s.ledger, o.user, mint);
    && s'.books.Keys == s.books.Keys
    && (forall other :: other in s.books && other != pair ==> s'.books[other] == s.books[other])
    && s'.books[pair].On(side.Opposite()) == s.books[pair].On(side.Opposite())
    && QueueAt(s'.books[pair].On(side), level.price) == level.queue[..pos] + level.queue[pos + 1..]
    && (forall r: Price :: r != level.price ==>
          QueueAt(s'.books[pair].On(side), r) == QueueAt(s.books[pair].On(side), r))
    && Becomes(s.ledger, s'.ledger, o.user, mint, Balance(b.available + owed, b.locked - owed))
  }

  ghost predicate CancelActs(s: State, id: nat, user: nat, pair: Pair, s': State) {
    var book := BookOf(s, pair);
    && (FreshIn(book.bids, id) && FreshIn(book.asks, id) ==> s' == s)
    && forall side, k: nat, pos: nat :: MeantBy(book, id, side, k, pos) ==>
         MeantActs(s, id, user, pair, side, k, pos, s')
  }

  /** Only the owner takes an order out. */
  ghost predicate MeantActs(s: State, id: nat, user: nat, pair: Pair, side: Side, k: nat, pos: nat, s': State)
    requires MeantBy(BookOf(s, pair), id, side, k, pos)
  {
    && pair in s.books
    && if s.books[pair].On(side)[k].queue[pos].user == user then TakenOut(s, pair, side, k, pos, s') else s' == s
  }

  lemma {:induction false} PricesInOrder(levels: seq<Level>, side: Side, pair: Pair, i: nat, j: nat)
    requires GoodLevels(levels, side, pair) && i < j < |levels|
    ensures Ahead(side, levels[i].price, levels[j].price)
  {
    if i > 0 {
      PricesInOrder(levels[1..], side, pair, i - 1, j - 1);
    } else {
      PriceIn(levels[1..], j - 1);
    }
  }

  /** Taking one order out changes one queue. */
  lemma {:induction false} RemoveChangesOneQueue(levels: seq<Level>, side: Side, pair: Pair, i: nat, pos: nat)
    requires GoodLevels(levels, side, pair) && i < |levels| && pos < |levels[i].queue|
    ensures var levels' := RemoveAt(levels, i, pos);
            var q := levels[i].queue;
            && QueueAt(levels', levels[i].price) == q[..pos] + q[pos + 1..]
            && forall r: Price :: r != levels[i].price ==> QueueAt(levels', r) == QueueAt(levels, r)
  {
    var p, q, rest := levels[0].price, levels[0].queue, levels[1..];
    RemoveUnfolds(levels, i, pos);
    hide RemoveAt, WithLevel;
    if i == 0 {
      var left := q[..pos] + q[pos + 1..];
      NoQueueElsewhere(rest, p);
      forall r: Price
        ensures QueueAt(WithLevel(p, left, rest), r) == if left != [] && r == p then left else QueueAt(rest, r)
      {
        QueueAtWithLevel(p, left, rest, r);
      }
    } else {
      RemoveChangesOneQueue(rest, side, pair, i - 1, pos);
      PriceIn(rest, i - 1);
      var rest' := RemoveAt(rest, i - 1, pos);
      assert ([levels[0]] + rest')[1..] == rest';
    }
  }

  /** The search of a cancel ends at the order that is meant. */
  lemma SearchFinds(book: Book, pair: Pair, id: nat, side: Side, k: nat, pos: nat)
    requires GoodBook(book, pair) && MeantBy(book, id, side, k, pos)
    ensures SideOf(book, id) == Some(side) && LevelOf(side, book.On(side), id) == Some(k)
    ensures PositionOf(book.On(side)[k].queue, id) == Some(pos)
  {
    hide PositionOf, LevelOf, GoodLevels, FirstLevelOf, LastLevelOf;
    var levels := book.On(side);
    var q := levels[k].queue;
    assert PositionOf(q, id) == Some(pos) by {
      var r := PositionOf(q, id);
      assert q[pos].id == id;
    }
    LevelFound(levels, pair, id, side, k);
    if side == Sell {
      FindsNone(Buy, book.bids, id);
    }
  }

  lemma LevelFound(levels: seq<Level>, pair: Pair, id: nat, side: Side, k: nat)
    requires GoodLevels(levels, side, pair) && k < |levels| && PositionOf(levels[k].queue, id).Some?
    requires forall l, o :: l in levels && l.price < levels[k].price && o in l.queue ==> o.id != id
    ensures LevelOf(side, levels, id) == Some(k)
  {
    hide PositionOf, GoodLevels;
    var first, last := FirstLevelOf(levels, id), LastLevelOf(levels, id);
    hide FirstLevelOf, LastLevelOf;
    var i := if side == Sell then first.value else last.value;
    NotLower(levels, id, i, levels[k].price);
    if i < k {
      PricesInOrder(levels, side, pair, i, k);
    } else if k < i {
      PricesInOrder(levels, side, pair, k, i);
    }
  }

  lemma NotLower(levels: seq<Level>, id: nat, i: nat, p: Price)
    requires i < |levels| && PositionOf(levels[i].queue, id).Some?
    requires forall l, o :: l in levels && l.price < p && o in l.queue ==> o.id != id
    ensures p <= levels[i].price
  {
    hide PositionOf;
    var j := PositionOf(levels[i].queue, id).value;
    assert levels[i] in levels && levels[i].queue[j] in levels[i].queue;
  }

  lemma CancelDoes(s: State, id: nat, user: nat, pair: Pair)
    requires Inv(s)
    ensures CancelActs(s, id, user, pair, Cancel(s, id, user, pair).0)
  {
    hide Owed, MeantActs, MeantBy, LevelOf, PositionOf, FreshIn;
    var book := BookOf(s, pair);
    OwedCoversABook(s, pair, 0, "");
    if FreshIn(book.bids, id) && FreshIn(book.asks, id) {
      FindsNone(Buy, book.bids, id);
      FindsNone(Sell, book.asks, id);
    }
    forall side, k: nat, pos: nat | MeantBy(book, id, side, k, pos)
      ensures MeantActs(s, id, user, pair, side, k, pos, Cancel(s, id, user, pair).0)
    {
      MeantOneDoes(s, id, user, pair, side, k, pos);
    }
  }

  lemma MeantOneDoes(s: State, id: nat, user: nat, pair: Pair, side: Side, k: nat, pos: nat)
    requires Inv(s) && MeantBy(BookOf(s, pair), id, side, k, pos)
    ensures MeantActs(s, id, user, pair, side, k, pos, Cancel(s, id, user, pair).0)
  {
    var book := BookOf(s, pair);
    OwedCoversABook(s, pair, 0, "");
    SearchFinds(book, pair, id, side, k, pos);
    CancelOf(s, id, user, pair, side, k, pos);
    CancelStage(s, id, user, pair, 0, "");
    if book.On(side)[k].queue[pos].user == user {
      RemovedIsTakenOut(s, pair, side, k, pos);
    }
  }

  lemma CancelOf(s: State, id: nat, user: nat, pair: Pair, side: Side, k: nat, pos: nat)
    requires pair in s.books && SideOf(s.books[pair], id) == Some(side)
    requires LevelOf(side, s.books[pair].On(side), id) == Some(k)
    requires PositionOf(s.books[pair].On(side)[k].queue, id) == Some(pos)
    ensures var book := s.books[pair];
            var o := book.On(side)[k].queue[pos];
            var (l, ok) := Unlock(s.ledger, o.user, PayMint(o), UnitCost(o) * o.remaining);
            Cancel(s, id, user, pair) ==
            if o.user != user then (s, Unauthorized)
            else (State(s.books[pair := book.With(side, RemoveAt(book.On(side), k, pos))], l),
                  if ok then Cancelled(o) else UnlockFailed)
  {
    hide SideOf, LevelOf, PositionOf, RemoveAt, Unlock;
  }

  lemma RemovedIsTakenOut(s: State, pair: Pair, side: Side, k: nat, pos: nat)
    requires pair in s.books && GoodBook(s.books[pair], pair)
    requires var levels := s.books[pair].On(side); k < |levels| && pos < |levels[k].queue|
    requires var o := s.books[pair].On(side)[k].queue[pos];
             Unlock(s.ledger, o.user, PayMint(o), UnitCost(o) * o.remaining).1
    ensures var book := s.books[pair];
            var o := book.On(side)[k].queue[pos];
            var l := Unlock(s.ledger, o.user, PayMint(o), UnitCost(o) * o.remaining).0;
            TakenOut(s, pair, side, k, pos, State(s.books[pair := book.With(side, RemoveAt(book.On(side), k, pos))], l))
  {
    var levels := s.books[pair].On(side);
    var o := levels[k].queue[pos];
    RemoveChangesOneQueue(levels, side, pair, k, pos);
    RestsAtItsLevel(levels, k, o, side, pair);
    UnlockMeans(s.ledger, o.user, PayMint(o), UnitCost(o) * o.remaining);
    hide RemoveAt, GoodLevels, QueueAt, Unlock, Becomes;
  }

  /** What a cancel answers. */
  lemma CancelReplies(s: State, id: nat, user: nat, pair: Pair)
    requires Inv(s)
    ensures var book, r := BookOf(s, pair), Cancel(s, id, user, pair).1;
            && (pair !in s.books ==> r == NoBook)
            && (pair in s.books && FreshIn(book.bids, id) && FreshIn(book.asks, id) ==> r == NotFound)
            && forall side, k: nat, pos: nat :: MeantBy(book, id, side, k, pos) ==>
                 var o := book.On(side)[k].queue[pos];
                 r == if o.user == user then Cancelled(o) else Unauthorized
  {
    hide Owed, MeantBy, LevelOf, PositionOf, FreshIn;
    var book := BookOf(s, pair);
    OwedCoversABook(s, pair, 0, "");
    if FreshIn(book.bids, id) && FreshIn(book.asks, id) {
      FindsNone(Buy, book.bids, id);
      FindsNone(Sell, book.asks, id);
    }
    forall side, k: nat, pos: nat | MeantBy(book, id, side, k, pos)
      ensures var o := MeantOrder(book, id, side, k, pos);
              Cancel(s, id, user, pair).1 == if o.user == user then Cancelled(o) else Unauthorized
    {
      MeantReply(s, id, user, pair, side, k, pos);
    }
  }

  function MeantOrder(book: Book, id: nat, side: Side, k: nat, pos: nat): Order
    requires MeantBy(book, id, side, k, pos)
  {
    book.On(side)[k].queue[pos]
  }

  lemma MeantReply(s: State, id: nat, user: nat, pair: Pair, side: Side, k: nat, pos: nat)
    requires Inv(s) && MeantBy(BookOf(s, pair), id, side, k, pos)
    ensures var o := MeantOrder(BookOf(s, pair), id, side, k, pos);
            Cancel(s, id, user, pair).1 == if o.user == user then Cancelled(o) else Unauthorized
  {
    OwedCoversABook(s, pair, 0, "");
    SearchFinds(BookOf(s, pair), pair, id, side, k, pos);
    CancelOf(s, id, user, pair, side, k, pos);
    CancelStage(s, id, user, pair, 0, "");
    hide Cancel, MeantBy, LevelOf, PositionOf, Unlock;
  }

  /** If an order rests alone under its id, its owner's cancel takes it out, so that nothing rests under the
      id any more. */
  lemma NothingIsLeft(s: State, pair: Pair, side: Side, k: nat, pos: nat, id: nat, user: nat)
    requires Inv(s) && pair in s.books
    requires var levels := s.books[pair].On(side); k < |levels| && pos < |levels[k].queue|
    requires OnlyAt(s.books[pair].On(side), id, k, pos) && FreshIn(s.books[pair].On(side.Opposite()), id)
    requires s.books[pair].On(side)[k].queue[pos].user == user
    ensures var s' := Step(s, CancelOrder(id, user, pair));
            && MeantBy(s.books[pair], id, side, k, pos) && TakenOut(s, pair, side, k, pos, s')
            && FreshIn(s'.books[pair].bids, id) && FreshIn(s'.books[pair].asks, id)
  {
    var book := s.books[pair];
    var levels := book.On(side);
    OnlyIsMeant(book, id, side, k, pos);
    MeantOneDoes(s, id, user, pair, side, k, pos);
    SearchFinds(book, pair, id, side, k, pos);
    CancelOf(s, id, user, pair, side, k, pos);
    hide Cancel, RemoveAt, TakenOut, MeantBy, OnlyAt, FreshIn, LevelOf, PositionOf, SideOf, Unlock;
    OnlyOneLess(levels, id, k, pos);
  }

  lemma OnlyIsMeant(book: Book, id: nat, side: Side, k: nat, pos: nat)
    requires k < |book.On(side)| && pos < |book.On(side)[k].queue|
    requires OnlyAt(book.On(side), id, k, pos) && FreshIn(book.On(side.Opposite()), id)
    ensures MeantBy(book, id, side, k, pos)
  {
    var levels := book.On(side);
    forall l, o | l in levels && l.price < levels[k].price && o in l.queue ensures o.id != id {
      var i :| 0 <= i < |levels| && levels[i] == l;
      var j :| 0 <= j < |l.queue| && l.queue[j] == o;
      assert levels[i].queue[j] == o;
    }
  }

  lemma OnlyOneLess(levels: seq<Level>, id: nat, k: nat, pos: nat)
    requires k < |levels| && pos < |levels[k].queue| && OnlyAt(levels, id, k, pos)
    ensures FreshIn(RemoveAt(levels, k, pos), id)
  {
    var q := levels[k].queue;
    var left := q[..pos] + q[pos + 1..];
    var levels' := RemoveAt(levels, k, pos);
    forall l, o | l in levels' && o in l.queue ensures o.id != id {
      if l in WithLevel(levels[k].price, left, levels[k + 1..]) && l !in levels[k + 1..] {
        assert l == Level(levels[k].price, left);
        var j :| 0 <= j < |left| && left[j] == o;
        assert o == q[if j < pos then j else j + 1];
      } else {
        var i :| 0 <= i < |levels| && i != k && levels[i] == l;
        var j :| 0 <= j < |l.queue| && l.queue[j] == o;
        assert levels[i].queue[j] == o;
      }
    }
  }

  // ---------------------------------------------------------------------------------------
  // Submissions
  // ---------------------------------------------------------------------------------------

  /** What an order asks to be locked: a buyer's limit times amount or budget, a seller's amount. */
  function Asked(o: Order): int {
    match (o.side, o.style)
    case (Buy, Limit) => o.price.GetOr(1) * o.amount
    case (Buy, Market) => o.quoteAmount.GetOr(0)
    case (Sell, _) => o.amount
  }

  function PaidIn(o: Order): string {
    if o.side == Buy then o.pair.quote else o.pair.base
  }

  /** Refused if too little is available: then nothing changes. */
  ghost predicate SubmitRefused(s: State, o: Order, s': State) {
    At(s.ledger, o.user, PaidIn(o)).available < Asked(o) && s'.books == s.books && SameBalances(s.ledger, s'.ledger)
  }

  /** One book changes: the other side is swept, and on its own side only a limit order that is not filled
      rests, with what is left of it, behind everybody at its price. */
  ghost predicate BookActs(s: State, o: Order, out: Outcome, s': State) {
    var book, own := BookOf(s, o.pair), BookOf(s', o.pair).On(o.side);
    var rests := o.style == Limit && 0 < out.taker.remaining;
    && s'.books.Keys == s.books.Keys + {o.pair}
    && (forall other :: other in s.books && other != o.pair ==> s'.books[other] == s.books[other])
    && BookOf(s', o.pair).On(o.side.Opposite()) == out.levels
    && (!rests ==> own == book.On(o.side))
    && (rests ==>
          && o.price.Some?
          && QueueAt(own, o.price.value) == QueueAt(book.On(o.side), o.price.value) +
               [o.(remaining := out.taker.remaining, filled := o.amount - out.taker.remaining)]
          && forall r: Price :: r != o.price.value ==> QueueAt(own, r) == QueueAt(book.On(o.side), r))
  }

  /** Every balance: the makers and the taker pay and receive their legs; a limit order that rests keeps all
      it has not paid locked, every other order gets it back. */
  ghost predicate BalancesAct(s: State, o: Order, out: Outcome, s': State) {
    var paid := if o.side == Buy then QuoteTotal(out.matches) else BaseTotal(out.matches);
    var held := if o.style == Limit && 0 < out.taker.remaining then Asked(o) else paid;
    forall u, mint ::
      var own := if u == o.user && mint == PaidIn(o) then held else 0;
      At(s'.ledger, u, mint) ==
      Balance(At(s.ledger, u, mint).available + Gains(out.matches, u, mint) - own,
              At(s.ledger, u, mint).locked - Demand(out.matches, u, mint) + own)
  }

  ghost predicate SubmitActs(s: State, o: Order, s': State) {
    || SubmitRefused(s, o, s')
    || (&& Asked(o) <= At(s.ledger, o.user, PaidIn(o)).available
        && var out := Sweep(o, BookOf(s, o.pair).On(o.side.Opposite()));
           BookActs(s, o, out, s') && BalancesAct(s, o, out, s'))
  }

  lemma SubmitDoes(s: State, o: Order)
    requires Inv(s) && ValidOrder(o)
    ensures SubmitActs(s, o, Submit(s, o).0)
  {
    hide MatchSpec, ExecuteAll, Owed, Inv, Unlock, Sweep, BookActs, BalancesAct, Rest, Refund, Release;
    LockMeans(s.ledger, o.user, PayMint(o), LockAmount(o));
    if Process(s, o).Accepted? {
      AcceptedBook(s, o);
      AcceptedBalances(s, o);
      MatchingOf(s, o);
    }
  }

  lemma MatchingOf(s: State, o: Order)
    requires Inv(s) && ValidOrder(o)
    ensures MatchSpec(o, BookOf(s, o.pair)) == Sweep(o, BookOf(s, o.pair).On(o.side.Opposite()))
  {
    MatchingStage(s, o);
  }

  lemma AcceptedBook(s: State, o: Order)
    requires Inv(s) && ValidOrder(o) && Process(s, o).Accepted?
    ensures BookActs(s, o, MatchSpec(o, BookOf(s, o.pair)), Submit(s, o).0)
  {
    SubmittedBooks(s, o);
    OwnSide(s, o);
    hide Process, Submit, MatchSpec, QueueAt, Inv, ValidOrder;
  }

  lemma SubmittedBooks(s: State, o: Order)
    requires Process(s, o).Accepted?
    ensures Submit(s, o).0.books == s.books[o.pair := Process(s, o).book]
    ensures Process(s, o).outcome == MatchSpec(o, BookOf(s, o.pair))
    ensures Process(s, o).book == Rest(o, MatchSpec(o, BookOf(s, o.pair)), BookOf(s, o.pair))
    ensures Process(s, o).book.On(o.side.Opposite()) == MatchSpec(o, BookOf(s, o.pair)).levels
  {
    SweepKeepsTaker(o, BookOf(s, o.pair).On(o.side.Opposite()));
    assert SameTaker(o, MatchSpec(o, BookOf(s, o.pair)).taker);
    hide MatchSpec, ExecuteAll, Lock, Unlock, Insert, Refund, Release, Sweep;
  }

  lemma OwnSide(s: State, o: Order)
    requires Inv(s) && ValidOrder(o) && Process(s, o).Accepted?
    ensures var a := Process(s, o);
            var own, was := a.book.On(o.side), BookOf(s, o.pair).On(o.side);
            if o.style == Limit && 0 < a.outcome.taker.remaining then
              && o.price.Some?
              && QueueAt(own, o.price.value) == QueueAt(was, o.price.value) +
                   [o.(remaining := a.outcome.taker.remaining, filled := o.amount - a.outcome.taker.remaining)]
              && forall r: Price :: r != o.price.value ==> QueueAt(own, r) == QueueAt(was, r)
            else own == was
  {
    hide Process, MatchSpec, QueueAt, Insert, Inv;
    if o.style == Limit && 0 < Process(s, o).outcome.taker.remaining {
      RemainderOf(s, o);
      hide AddTo, Crosses;
      UnfilledLimitOrderRests(s, o);
    } else {
      NothingRests(s, o);
    }
  }

  lemma NothingRests(s: State, o: Order)
    requires Inv(s) && ValidOrder(o) && Process(s, o).Accepted?
    requires o.style == Market || Process(s, o).outcome.taker.remaining <= 0
    ensures Process(s, o).book.On(o.side) == BookOf(s, o.pair).On(o.side)
  {
    SubmittedBooks(s, o);
    MatchingStage(s, o);
    hide Process, MatchSpec, Insert, Inv, Sweep, Spent, SoundMatch, AddTo;
  }

  lemma AcceptedBalances(s: State, o: Order)
    requires Inv(s) && ValidOrder(o) && Process(s, o).Accepted?
    ensures BalancesAct(s, o, MatchSpec(o, BookOf(s, o.pair)), Submit(s, o).0)
  {
    hide MatchSpec, ExecuteAll, Owed, Inv, Lock, Unlock, Release, Refund;
    HeldBack(s, o);
    var s' := Submit(s, o).0;
    forall u, mint
      ensures var a := Process(s, o);
              var own := if u == o.user && mint == PayMint(o) then LockAmount(o) - a.refund else 0;
              At(s'.ledger, u, mint) ==
              Balance(At(s.ledger, u, mint).available + Gains(a.outcome.matches, u, mint) - own,
                      At(s.ledger, u, mint).locked - Demand(a.outcome.matches, u, mint) + own)
    {
      BalancesAfterSubmit(s, o, u, mint);
    }
  }

  lemma HeldBack(s: State, o: Order)
    requires Inv(s) && ValidOrder(o) && Process(s, o).Accepted?
    ensures PaidIn(o) == PayMint(o) && Asked(o) == LockAmount(o)
    ensures var out := MatchSpec(o, BookOf(s, o.pair));
            var paid := if o.side == Buy then QuoteTotal(out.matches) else BaseTotal(out.matches);
            LockAmount(o) - Process(s, o).refund ==
            if o.style == Limit && 0 < out.taker.remaining then Asked(o) else paid
  {
    hide MatchSpec, ExecuteAll, Owed, Lock, Unlock, Release;
    TradesAreCovered(s, o);
    MatchingStage(s, o);
  }

  /** What a submission answers. */
  lemma SubmitReplies(s: State, o: Order)
    requires Inv(s) && ValidOrder(o)
    ensures Submit(s, o).1 == if Asked(o) <= At(s.ledger, o.user, PaidIn(o)).available
                              then Some(Sweep(o, BookOf(s, o.pair).On(o.side.Opposite())).matches) else None
  {
    hide MatchSpec, ExecuteAll, Owed, Inv, Unlock, Sweep, Rest, Refund, Release;
    LockMeans(s.ledger, o.user, PayMint(o), LockAmount(o));
    if Process(s, o).Accepted? {
      TradesAreCovered(s, o);
      MatchingOf(s, o);
    }
  }

  // ---------------------------------------------------------------------------------------
  // Messages to the database
  // ---------------------------------------------------------------------------------------

  function TradeMessages(ms: seq<MatchResult>): (r: seq<DbCommand>)
    ensures |r| == |ms| && forall i :: 0 <= i < |ms| ==> r[i] == InsertTrade(ms[i])
  {
    if ms == [] then [] else [InsertTrade(ms[0])] + TradeMessages(ms[1..])
  }

  /** Everything a submission sends: nothing if it is refused; the lock; and for a limit order one trade per
      match and at most one status, "filled" if nothing is left and "partial" if something but not all is. */
  function Messages(s: State, o: Order): seq<DbCommand> {
    if At(s.ledger, o.user, PaidIn(o)).available < Asked(o) then []
    else
      var out := Sweep(o, BookOf(s, o.pair).On(o.side.Opposite()));
      var lock := DbCommand.UpdateBalance(o.user, PaidIn(o), Some(-Asked(o)), Some(Asked(o)));
      var left := out.taker.remaining;
      if o.style == Market || left == o.amount then [lock]
      else
        [lock] + TradeMessages(out.matches) +
        [UpdateOrderStatus(o.id, if left == 0 then "filled" else "partial", o.amount - left, QuoteTotal(out.matches))]
  }

  lemma MessagesAreSent(s: State, o: Order)
    requires Inv(s) && ValidOrder(o)
    ensures Emitted(s, o) == Messages(s, o)
  {
    hide MatchSpec, ExecuteAll, Owed, Inv, Unlock, Sweep, Rest, Refund, Release, QuoteTotal;
    LockMeans(s.ledger, o.user, PayMint(o), LockAmount(o));
    if Process(s, o).Accepted? {
      HeldBack(s, o);
      MatchingOf(s, o);
      var out := MatchSpec(o, BookOf(s, o.pair));
      TradesAreCovered(s, o);
      if o.style == Limit {
        SomethingLeft(s, o);
      }
      assert TradeMessages(out.matches) == Trades(out.matches);
      hide BaseTotal, TradeMessages, Trades;
    }
  }

  /** A limit order without a match is the one of which everything is left. */
  lemma SomethingLeft(s: State, o: Order)
    requires Inv(s) && ValidOrder(o) && o.style == Limit
    ensures var out := MatchSpec(o, BookOf(s, o.pair));
            && (out.matches == [] <==> out.taker.remaining == o.amount)
            && 0 <= out.taker.remaining && out.taker.remaining == o.amount - BaseTotal(out.matches)
            && out.taker.id == o.id
  {
    var out := MatchSpec(o, BookOf(s, o.pair));
    MatchingStage(s, o);
    TotalsArePositive(o, out.matches);
  }

  // ---------------------------------------------------------------------------------------
  // Commands and runs
  // ---------------------------------------------------------------------------------------

  ghost predicate Acts(s: State, c: Command, s': State) {
    match c
    case SubmitOrder(o) => SubmitActs(s, o, s')
    case CancelOrder(id, user, pair) => CancelActs(s, id, user, pair, s')
    case UpdateBalance(user, mint, delta) => DepositActs(s, user, mint, delta, s')
  }

  /** Every command takes its effect. */
  lemma StepActs(s: State, c: Command)
    requires Inv(s) && (c.SubmitOrder? ==> ValidOrder(c.order))
    ensures Acts(s, c, Step(s, c))
  {
    hide Inv, SubmitActs, CancelActs, Submit, Cancel;
    match c
    case SubmitOrder(o) => SubmitDoes(s, o);
    case CancelOrder(id, user, pair) => CancelDoes(s, id, user, pair);
    case UpdateBalance(user, mint, delta) => DepositMeans(s.ledger, user, mint, delta);
  }

  /** `states` are the states before, between and after the commands, each of which took its effect. */
  ghost predicate ActedOut(s: State, cs: seq<Command>, s': State) {
    exists states: seq<State> ::
      && |states| == |cs| + 1 && states[0] == s && states[|cs|] == s'
      && forall i :: 0 <= i < |cs| ==> Acts(states[i], cs[i], states[i + 1])
  }

  /** A run is a sequence of effects. */
  lemma {:induction false} RunActs(s: State, cs: seq<Command>)
    requires Inv(s) && ValidCommands(cs)
    ensures ActedOut(s, cs, Run(s, cs))
    decreases |cs|
  {
    hide Inv, Acts, Step;
    if cs == [] {
      assert |[s]| == 1 && [s][0] == s;
    } else {
      var s1 := Step(s, cs[0]);
      assert cs[0] in cs;
      StepActs(s, cs[0]);
      StepLedger(s, cs[0], 0, "");
      RunActs(s1, cs[1..]);
      var states :| |states| == |cs[1..]| + 1 && states[0] == s1 && states[|cs[1..]|] == Run(s1, cs[1..])
                    && forall i :: 0 <= i < |cs[1..]| ==> Acts(states[i], cs[1..][i], states[i + 1]);
      var all := [s] + states;
      assert all[0] == s && all[|cs|] == states[|cs| - 1] == Run(s, cs);
      forall i | 0 <= i < |cs| ensures Acts(all[i], cs[i], all[i + 1]) {
        if i > 0 {
          assert all[i] == states[i - 1] && all[i + 1] == states[i] && cs[i] == cs[1..][i - 1];
        }
      }
    }
  }
}
