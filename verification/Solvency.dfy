/** The lock ledger over whole runs. */
module Solvency {
  import opened Types
  import opened OrderBooks
  import opened MatchingSpec
  import opened Obligations
  import opened SweepProperties
  import opened Ledgers
  import opened EngineSpec
  import opened BookKeeping
  import opened MapSums

  /** What all resting orders of `u`, over all books, can still take out of `mint`. */
  ghost function Owed(books: map<Pair, Book>, u: nat, mint: string): int {
    Sum(map pair | pair in books :: BookOwes(books[pair], u, mint))
  }

  /** Locked beyond what resting orders owe. */
  ghost function Slack(s: State, u: nat, mint: string): int {
    At(s.ledger, u, mint).locked - Owed(s.books, u, mint)
  }

  ghost predicate GoodBooks(books: map<Pair, Book>) {
    forall pair :: pair in books ==> GoodBook(books[pair], pair)
  }

  ghost predicate NonNegative(l: Ledger) {
    forall u, mint :: 0 <= At(l, u, mint).available && 0 <= At(l, u, mint).locked
  }

  ghost predicate Solvent(s: State) {
    forall u, mint :: 0 <= Slack(s, u, mint)
  }

  ghost predicate Inv(s: State) {
    GoodBooks(s.books) && NonNegative(s.ledger) && Solvent(s)
  }

  /** The engine as `start_impl` leaves it: no books, nothing locked. */
  ghost predicate Started(s: State) {
    s.books == map[] && forall k :: k in s.ledger ==> 0 <= s.ledger[k].available && s.ledger[k].locked == 0
  }

  // ---------------------------------------------------------------------------------------
  // What is owed over all books
  // ---------------------------------------------------------------------------------------

  lemma OwedUpdate(books: map<Pair, Book>, pair: Pair, book: Book, u: nat, mint: string)
    ensures Owed(books[pair := book], u, mint) ==
            Owed(books, u, mint) - (if pair in books then BookOwes(books[pair], u, mint) else 0)
            + BookOwes(book, u, mint)
  {
    var m := map p | p in books :: BookOwes(books[p], u, mint);
    SumUpdate(m, pair, BookOwes(book, u, mint));
    var books' := books[pair := book];
    assert m[pair := BookOwes(book, u, mint)] == map p | p in books' :: BookOwes(books'[p], u, mint);
  }

  lemma OwedCoversABook(s: State, pair: Pair, u: nat, mint: string)
    requires GoodBooks(s.books)
    ensures 0 <= BookOwes(BookOf(s, pair), u, mint) <= Owed(s.books, u, mint)
    ensures GoodBook(BookOf(s, pair), pair)
  {
    var m := map p | p in s.books :: BookOwes(s.books[p], u, mint);
    forall p | p in m ensures 0 <= m[p] {
      OwesIsNonNegative(s.books[p].bids, Buy, p, u, mint);
      OwesIsNonNegative(s.books[p].asks, Sell, p, u, mint);
    }
    SumBounds(m);
    assert pair in s.books ==> m[pair] == BookOwes(BookOf(s, pair), u, mint);
  }

  // ---------------------------------------------------------------------------------------
  // A submission
  // ---------------------------------------------------------------------------------------

  lemma OrderIsReady(o: Order)
    requires ValidOrder(o)
    ensures TakerOk(o, o.side.Opposite(), o.pair) && HasRemaining(o) && 0 <= LockAmount(o)
  {
    if o.price.Some? {
      assert 0 <= o.price.value * o.amount;
    }
  }

  /** A taker pays no more than it locked; what it locked is what it paid, what its remainder
      still owes, and for a limit buy the price improvement. */
  lemma PaidWithinLock(o: Order, out: Outcome)
    requires ValidOrder(o) && Spent(o, out.matches, out.taker) && SameTaker(o, out.taker)
    requires TakerOk(out.taker, o.side.Opposite(), o.pair)
    requires forall m :: m in out.matches ==> SoundMatch(o, m)
    ensures 0 <= Paid(o.side, out.matches) <= LockAmount(o)
    ensures o.style == Limit ==> 0 <= Improvement(o, out)
    ensures o.style == Limit ==>
              LockAmount(o) == Paid(o.side, out.matches) + UnitCost(o) * out.taker.remaining + Improvement(o, out)
  {
    TotalsArePositive(o, out.matches);
    if o.style == Limit && o.side == Buy {
      WithinLimit(o, out.matches);
      var p, sold, rest := o.price.value, BaseTotal(out.matches), out.taker.remaining;
      assert p * o.amount == p * sold + p * rest;
      assert 0 <= p * rest;
    }
  }

  /** The taker's limit times what it got, minus what it paid. */
  function Improvement(o: Order, out: Outcome): int {
    if o.side == Buy then o.PriceOrZero() * (o.amount - out.taker.remaining) - QuoteTotal(out.matches) else 0
  }

  /** Everything known about the matching stage of an accepted submission. */
  lemma MatchingStage(s: State, o: Order)
    requires GoodBooks(s.books) && ValidOrder(o)
    ensures var out := MatchSpec(o, BookOf(s, o.pair));
            && out == Sweep(o, BookOf(s, o.pair).On(o.side.Opposite()))
            && Spent(o, out.matches, out.taker) && SameTaker(o, out.taker)
            && TakerOk(out.taker, o.side.Opposite(), o.pair)
            && (forall m :: m in out.matches ==> SoundMatch(o, m))
            && (Exhausted(out.taker) || out.levels == [] || !Crosses(o, out.levels[0].price))
  {
    var side := o.side.Opposite();
    OrderIsReady(o);
    OwedCoversABook(s, o.pair, 0, "");
    var levels := BookOf(s, o.pair).On(side);
    SweepKeeps(o, levels, side, o.pair);
    SweepSpends(o, levels);
    MatchesAreSound(o, levels, side, o.pair);
  }

  /** What matching does to the book's obligations, seen from one balance. */
  lemma MatchingOwes(s: State, o: Order, u: nat, mint: string)
    requires GoodBooks(s.books) && ValidOrder(o)
    ensures var book := BookOf(s, o.pair);
            var out := MatchSpec(o, book);
            var own := u == o.user && mint == PayMint(o);
            && BookOwes(book, u, mint) ==
               BookOwes(book.With(o.side.Opposite(), out.levels), u, mint) + QueueOwes(out.lost, u, mint)
               + Demand(out.matches, u, mint) - (if own then Paid(o.side, out.matches) else 0)
            && 0 <= BookOwes(book.With(o.side.Opposite(), out.levels), u, mint)
            && 0 <= QueueOwes(out.lost, u, mint)
  {
    var side := o.side.Opposite();
    var book := BookOf(s, o.pair);
    var levels := book.On(side);
    OrderIsReady(o);
    MatchingStage(s, o);
    OwedCoversABook(s, o.pair, 0, "");
    var out := Sweep(o, levels);
    SweepOwesSplit(o, levels, side, o.pair, u, mint);
    TakerPays(o, out.matches, u, mint);
    SweepKeeps(o, levels, side, o.pair);
    OwesIsNonNegative(out.levels, side, o.pair, u, mint);
    OwesIsNonNegative(book.On(o.side), o.side, o.pair, u, mint);
    LostOrders(o, levels, side, o.pair);
    LostOwes(out.lost, side, o.pair, u, mint);
  }

  lemma {:induction false} LostOwes(q: seq<Order>, side: Side, pair: Pair, u: nat, mint: string)
    requires forall o :: o in q ==> o.price.Some? && RestsAt(o, side, pair, o.price.value)
    ensures 0 <= QueueOwes(q, u, mint)
  {
    if q != [] {
      assert q[0] in q;
      assert 0 <= q[0].price.value * q[0].remaining;
      LostOwes(q[1..], side, pair, u, mint);
    }
  }

  /** No execute_trade leg fails: after the lock every locked balance covers all matches. */
  lemma TradesAreCovered(s: State, o: Order)
    requires Inv(s) && ValidOrder(o) && Process(s, o).Accepted?
    ensures var a := Process(s, o);
            && Covers(a.locked, a.outcome.matches) && a.done == a.outcome.matches
            && forall m :: m in a.outcome.matches ==> Fair(m)
  {
    hide MatchSpec, ExecuteAll, Unlock;
    var a := Process(s, o);
    var ms := a.outcome.matches;
    MatchingStage(s, o);
    PaidWithinLock(o, a.outcome);
    forall u, mint ensures Demand(ms, u, mint) <= At(a.locked, u, mint).locked {
      MatchingOwes(s, o, u, mint);
      OwedCoversABook(s, o.pair, u, mint);
      assert 0 <= Slack(s, u, mint);
    }
    ExecuteAllMoves(a.locked, ms, 0, "");
  }

  /** What a step leaves locked for good: the obligations of orders the matcher discarded, and the
      price improvement of a limit buy that rests after a partial fill. */
  function Stranded(s: State, c: Command, u: nat, mint: string): int {
    match c
    case SubmitOrder(o) => (
      match Process(s, o)
      case Refused(_) => 0
      case Accepted(_, out, _, _, _, _, _) =>
        QueueOwes(out.lost, u, mint)
        + (if u == o.user && mint == PayMint(o) && o.style == Limit && 0 < out.taker.remaining
           then Improvement(o, out) else 0))
    case CancelOrder(_, _, _) => 0
    case UpdateBalance(_, _, _) => 0
  }

  /** The book after a submission, on both counts: well formed, and what it owes. */
  lemma BookAfterSubmit(s: State, o: Order, u: nat, mint: string)
    requires GoodBooks(s.books) && ValidOrder(o) && Process(s, o).Accepted?
    ensures var a := Process(s, o);
            var swept := BookOf(s, o.pair).With(o.side.Opposite(), a.outcome.levels);
            && GoodBook(a.book, o.pair)
            && BookOwes(a.book, u, mint) == BookOwes(swept, u, mint)
                 + (if o.style == Limit then OrderOwes(a.outcome.taker, u, mint) else 0)
  {
    hide Lock, ExecuteAll, Unlock;
    var a := Process(s, o);
    var side := o.side.Opposite();
    var book := BookOf(s, o.pair);
    var out := MatchSpec(o, book);
    OrderIsReady(o);
    OwedCoversABook(s, o.pair, u, mint);
    MatchingStage(s, o);
    SweepKeeps(o, book.On(side), side, o.pair);
    var swept := book.With(side, out.levels);
    if o.style == Limit && HasRemaining(out.taker) {
      var p := o.price.value;
      RestKeeps(o, out.taker, swept, p);
      InsertOwes(o.side, swept.On(o.side), out.taker, p, u, mint);
    }
  }

  /** A hungry limit order rests without crossing the other side. */
  lemma RestKeeps(o: Order, t: Order, swept: Book, p: Price)
    requires GoodBook(swept, o.pair) && RestsAt(t, o.side, o.pair, p)
    requires var levels := swept.On(o.side.Opposite()); levels == [] || !Crosses(t, levels[0].price)
    ensures GoodBook(AddTo(swept, t, p), o.pair)
  {
    InsertKeeps(o.side, o.pair, swept.On(o.side), t, p);
    InsertAppends(o.side, swept.On(o.side), t, p);
    var levels := swept.On(o.side.Opposite());
    assert forall r :: r in Prices(levels) ==> r == levels[0].price || Ahead(o.side.Opposite(), levels[0].price, r);
  }

  /** The balances after an accepted submission: every trade and the refund took place. */
  lemma BalancesAfterSubmit(s: State, o: Order, u: nat, mint: string)
    requires Inv(s) && ValidOrder(o) && Process(s, o).Accepted?
    ensures var a := Process(s, o);
            var own := u == o.user && mint == PayMint(o);
            var b, b' := At(s.ledger, u, mint), At(a.final, u, mint);
            && LockAmount(o) <= At(s.ledger, o.user, PayMint(o)).available
            && b'.locked == b.locked - Demand(a.outcome.matches, u, mint)
                            + (if own then LockAmount(o) - a.refund else 0)
            && b'.available == b.available + Gains(a.outcome.matches, u, mint)
                               - (if own then LockAmount(o) - a.refund else 0)
            && 0 <= Gains(a.outcome.matches, u, mint)
  {
    hide MatchSpec, ExecuteAll;
    var a := Process(s, o);
    TradesAreCovered(s, o);
    RefundIsCovered(s, o);
    ExecuteAllMoves(a.locked, a.outcome.matches, u, mint);
    GainsAreNonNegative(a.outcome.matches, u, mint);
  }

  /** The exact lock ledger of a submission. */
  lemma SubmitLedger(s: State, o: Order, u: nat, mint: string)
    requires Inv(s) && ValidOrder(o)
    ensures Slack(Submit(s, o).0, u, mint) == Slack(s, u, mint) + Stranded(s, SubmitOrder(o), u, mint)
    ensures 0 <= Stranded(s, SubmitOrder(o), u, mint)
  {
    hide MatchSpec, ExecuteAll, Owed, Lock, Unlock;
    var a := Process(s, o);
    if a.Refused? {
      RefusedChangesNothing(s, o, u, mint);
    } else {
      MatchingStage(s, o);
      PaidWithinLock(o, a.outcome);
      TradesAreCovered(s, o);
      BalancesAfterSubmit(s, o, u, mint);
      MatchingOwes(s, o, u, mint);
      BookAfterSubmit(s, o, u, mint);
      OwedUpdate(s.books, o.pair, a.book, u, mint);
      NoBookOwesNothing(u, mint);
    }
  }

  /** A refused submission leaves every balance as it was. */
  lemma RefusedChangesNothing(s: State, o: Order, u: nat, mint: string)
    requires Process(s, o).Refused?
    ensures Submit(s, o) == (s.(ledger := Process(s, o).touched), None)
    ensures At(Process(s, o).touched, u, mint) == At(s.ledger, u, mint)
  {}

  lemma SubmitKeepsInv(s: State, o: Order)
    requires Inv(s) && ValidOrder(o)
    ensures Inv(Submit(s, o).0)
  {
    hide Process, Owed, Stranded, GoodBook;
    var a := Process(s, o);
    var s' := Submit(s, o).0;
    OrderIsReady(o);
    assert GoodBooks(s'.books) by {
      if a.Accepted? {
        BookAfterSubmit(s, o, 0, "");
      }
    }
    forall u, mint
      ensures 0 <= Slack(s', u, mint) && 0 <= At(s'.ledger, u, mint).available && 0 <= At(s'.ledger, u, mint).locked
    {
      SubmitLedger(s, o, u, mint);
      OwedCoversABook(s', o.pair, u, mint);
      assert 0 <= Slack(s, u, mint) && 0 <= At(s.ledger, u, mint).available;
      if a.Refused? {
        RefusedChangesNothing(s, o, u, mint);
      } else {
        BalancesAfterSubmit(s, o, u, mint);
        RefundIsCovered(s, o);
      }
    }
  }

  lemma NoBookOwesNothing(u: nat, mint: string)
    ensures BookOwes(EMPTY_BOOK, u, mint) == 0
  {}

  lemma {:induction false} GainsAreNonNegative(ms: seq<MatchResult>, u: nat, mint: string)
    requires forall m :: m in ms ==> Fair(m)
    ensures 0 <= Gains(ms, u, mint)
  {
    if ms != [] {
      assert Fair(ms[0]) by { assert ms[0] in ms; }
      assert 0 <= ms[0].price * ms[0].amount;
      GainsAreNonNegative(ms[1..], u, mint);
    }
  }

  /** After the trades the taker's locked balance still holds everything to be released. */
  lemma RefundIsCovered(s: State, o: Order)
    requires Inv(s) && ValidOrder(o) && Process(s, o).Accepted?
    ensures var a := Process(s, o);
            0 <= a.refund <= At(a.traded, o.user, PayMint(o)).locked
  {
    hide MatchSpec, ExecuteAll, Unlock;
    var a := Process(s, o);
    var u, mint := o.user, PayMint(o);
    TradesAreCovered(s, o);
    MatchingStage(s, o);
    PaidWithinLock(o, a.outcome);
    ExecuteAllMoves(a.locked, a.outcome.matches, u, mint);
    MatchingOwes(s, o, u, mint);
    OwedCoversABook(s, o.pair, u, mint);
    assert 0 <= Slack(s, u, mint);
  }

  // ---------------------------------------------------------------------------------------
  // Cancels, deposits, runs
  // ---------------------------------------------------------------------------------------

  /** The order a successful cancel takes out, and the book it leaves. */
  lemma CancelStage(s: State, id: nat, user: nat, pair: Pair, u: nat, mint: string)
    requires Inv(s)
    ensures var (s', r) := Cancel(s, id, user, pair);
            && r != UnlockFailed
            && Inv(s')
            && Slack(s', u, mint) == Slack(s, u, mint)
            && (!r.Cancelled? ==> s' == s)
            && (r.Cancelled? ==>
                  && pair in s.books && r.order.user == user && r.order.id == id
                  && OrderOwes(r.order, user, PayMint(r.order)) > 0
                  && At(s'.ledger, u, mint).available ==
                     At(s.ledger, u, mint).available + OrderOwes(r.order, u, mint))
  {
    var (s', r) := Cancel(s, id, user, pair);
    if pair in s.books && SideOf(s.books[pair], id).Some? {
      var book := s.books[pair];
      var side := SideOf(book, id).value;
      var levels := book.On(side);
      var i := LevelOf(side, levels, id).value;
      var pos := PositionOf(levels[i].queue, id).value;
      var order := levels[i].queue[pos];
      if order.user == user {
        TakeOut(s, pair, side, i, pos);
        hide Owed, Inv, GoodBooks, Unlock, RemoveAt;
        CancelUnlocks(s, order, s'.books);
      }
    }
  }

  /** The books without one order are still sound, and owe exactly what that order owed less. */
  lemma TakeOut(s: State, pair: Pair, side: Side, i: nat, pos: nat)
    requires GoodBooks(s.books) && pair in s.books
    requires var levels := s.books[pair].On(side); i < |levels| && pos < |levels[i].queue|
    ensures var levels := s.books[pair].On(side);
            var order := levels[i].queue[pos];
            var books := s.books[pair := s.books[pair].With(side, RemoveAt(levels, i, pos))];
            && GoodBooks(books) && 0 < UnitCost(order) * order.remaining
            && forall v, m ::
                 Owed(books, v, m) == Owed(s.books, v, m) - OrderOwes(order, v, m) && 0 <= Owed(books, v, m)
  {
    hide Owed, RemoveAt;
    var book := s.books[pair];
    var levels := book.On(side);
    var order := levels[i].queue[pos];
    var book' := book.With(side, RemoveAt(levels, i, pos));
    var books := s.books[pair := book'];
    RemoveKeeps(side, pair, levels, i, pos);
    assert 0 < levels[i].price * order.remaining;
    assert GoodBooks(books);
    forall v, m
      ensures Owed(books, v, m) == Owed(s.books, v, m) - OrderOwes(order, v, m)
      ensures 0 <= Owed(books, v, m)
    {
      RemoveOwes(levels, i, pos, v, m);
      OwedUpdate(s.books, pair, book', v, m);
      OwedCoversABook(State(books, s.ledger), pair, v, m);
    }
  }

  lemma CancelUnlocks(s: State, order: Order, books: map<Pair, Book>)
    requires Inv(s) && GoodBooks(books) && 0 <= UnitCost(order) * order.remaining
    requires forall v, m :: Owed(books, v, m) == Owed(s.books, v, m) - OrderOwes(order, v, m) && 0 <= Owed(books, v, m)
    ensures var (l, ok) := Unlock(s.ledger, order.user, PayMint(order), UnitCost(order) * order.remaining);
            && ok && Inv(State(books, l))
            && forall v, m :: Slack(State(books, l), v, m) == Slack(s, v, m)
                              && At(l, v, m).available == At(s.ledger, v, m).available + OrderOwes(order, v, m)
  {
    hide Owed, GoodBooks;
    var amount := UnitCost(order) * order.remaining;
    var mint := PayMint(order);
    assert 0 <= Slack(s, order.user, mint) && 0 <= Owed(books, order.user, mint);
    var l := Unlock(s.ledger, order.user, mint, amount).0;
    forall v, m
      ensures Slack(State(books, l), v, m) == Slack(s, v, m)
      ensures 0 <= At(l, v, m).available && 0 <= At(l, v, m).locked
      ensures At(l, v, m).available == At(s.ledger, v, m).available + OrderOwes(order, v, m)
    {
      assert 0 <= Slack(s, v, m) && 0 <= At(s.ledger, v, m).available && 0 <= Owed(books, v, m);
    }
  }

  /** Every step keeps the invariant, and moves the slack of every balance by exactly what the
      step strands, which is never negative. */
  lemma StepLedger(s: State, c: Command, u: nat, mint: string)
    requires Inv(s) && (c.SubmitOrder? ==> ValidOrder(c.order))
    ensures Inv(Step(s, c))
    ensures Slack(Step(s, c), u, mint) == Slack(s, u, mint) + Stranded(s, c, u, mint)
    ensures 0 <= Stranded(s, c, u, mint)
  {
    hide Owed, Inv;
    match c
    case SubmitOrder(o) =>
      SubmitKeepsInv(s, o);
      SubmitLedger(s, o, u, mint);
    case CancelOrder(id, user, pair) =>
      CancelStage(s, id, user, pair, u, mint);
    case UpdateBalance(user, m, delta) =>
      DepositKeepsInv(s, user, m, delta, u, mint);
  }

  lemma DepositKeepsInv(s: State, user: nat, m: string, delta: int, u: nat, mint: string)
    requires Inv(s)
    ensures var s' := s.(ledger := AddAvailable(s.ledger, user, m, delta));
            Inv(s') && Slack(s', u, mint) == Slack(s, u, mint)
  {
    hide Owed;
    var s' := s.(ledger := AddAvailable(s.ledger, user, m, delta));
    forall v, n ensures 0 <= Slack(s', v, n) && 0 <= At(s'.ledger, v, n).available && 0 <= At(s'.ledger, v, n).locked {
      assert 0 <= Slack(s, v, n) && 0 <= At(s.ledger, v, n).available && 0 <= At(s.ledger, v, n).locked;
    }
  }

  /** What a whole run strands. */
  function StrandedBy(s: State, cs: seq<Command>, u: nat, mint: string): int
    decreases |cs|
  {
    if cs == [] then 0 else Stranded(s, cs[0], u, mint) + StrandedBy(Step(s, cs[0]), cs[1..], u, mint)
  }

  lemma {:induction false} RunLedger(s: State, cs: seq<Command>, u: nat, mint: string)
    requires Inv(s) && ValidCommands(cs)
    ensures Inv(Run(s, cs))
    ensures Slack(Run(s, cs), u, mint) == Slack(s, u, mint) + StrandedBy(s, cs, u, mint)
    ensures 0 <= StrandedBy(s, cs, u, mint)
    decreases |cs|
  {
    hide Inv, Slack, Step, Stranded;
    if cs != [] {
      assert cs[0] in cs;
      StepLedger(s, cs[0], u, mint);
      RunLedger(Step(s, cs[0]), cs[1..], u, mint);
    }
  }

  /** Solvency.  From a fresh start, after any commands, each user's locked balance in each mint is
      exactly what all their resting orders owe plus what was stranded on the way; so it covers
      them, the books are well formed and uncrossed, and no balance is negative. */
  lemma Solvency(s: State, cs: seq<Command>, u: nat, mint: string)
    requires Started(s) && ValidCommands(cs)
    ensures var s' := Run(s, cs);
            && At(s'.ledger, u, mint).locked == Owed(s'.books, u, mint) + StrandedBy(s, cs, u, mint)
            && 0 <= StrandedBy(s, cs, u, mint)
            && Inv(s')
  {
    StartedIsGood(s, u, mint);
    RunLedger(s, cs, u, mint);
  }

  lemma StartedIsGood(s: State, u: nat, mint: string)
    requires Started(s)
    ensures Inv(s) && Slack(s, u, mint) == 0
  {
    forall v, m
      ensures Owed(s.books, v, m) == 0 && 0 <= At(s.ledger, v, m).available && At(s.ledger, v, m).locked == 0
    {
      NoBooksOweNothing(s.books, v, m);
    }
  }

  lemma NoBooksOweNothing(books: map<Pair, Book>, u: nat, mint: string)
    ensures books == map[] ==> Owed(books, u, mint) == 0
  {
    var owed := map pair | pair in books :: BookOwes(books[pair], u, mint);
    if books == map[] {
      assert owed == map[];
    }
  }

  /** In a reachable state the next step cannot fail halfway: all trades of a submission succeed and
      its leftover lock is released, and a cancel that finds its order unlocks it. */
  lemma NothingFailsHalfway(s: State, cs: seq<Command>, c: Command)
    requires Started(s) && ValidCommands(cs) && (c.SubmitOrder? ==> ValidOrder(c.order))
    ensures var s' := Run(s, cs);
            match c
            case SubmitOrder(o) =>
              var a := Process(s', o);
              a.Accepted? ==>
                && a.done == a.outcome.matches && Submit(s', o).1 == Some(a.outcome.matches)
                && (a.refund > 0 ==> Unlock(a.traded, o.user, PayMint(o), a.refund).1)
            case CancelOrder(id, user, pair) => Cancel(s', id, user, pair).1 != UnlockFailed
            case UpdateBalance(_, _, _) => true
  {
    hide Run, Started, Inv, Slack, MatchSpec, ExecuteAll;
    Solvency(s, cs, 0, "");
    var s' := Run(s, cs);
    match c
    case SubmitOrder(o) =>
      if Process(s', o).Accepted? {
        TradesAreCovered(s', o);
        RefundIsCovered(s', o);
      }
    case CancelOrder(id, user, pair) => CancelStage(s', id, user, pair, 0, "");
    case UpdateBalance(_, _, _) =>
  }
}
