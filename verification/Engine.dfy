/** The running engine: balance cache, executor, order books, and the handlers that mutate them.

    Each method is proved to do what the function of the same name in `Ledgers` or `EngineSpec` says. */
module Engine {
  import opened Types
  import opened OrderBooks
  import opened MatchingSpec
  import opened Obligations
  import opened Matcher
  import opened Ledgers
  import D = DbCommands
  import opened EngineSpec
  import opened Solvency
  import BalanceChanges
  import opened SweepProperties
  import opened Settlement
  import opened Effects
  import Queries

  lemma PutTwice(l: Ledger, u: nat, mint: string, b: Balance)
    ensures Touch(l, u, mint)[(u, mint) := b] == l[(u, mint) := b]
  {}

  class BalanceCache {
    var balances: Ledger

    constructor ()
      ensures balances == map[]
    {
      balances := map[];
    }

    /** The entry, created as zero if absent. */
    method GetBalanceMut(user: nat, mint: string) returns (b: Balance)
      modifies this
      ensures b == At(old(balances), user, mint)
      ensures balances == Touch(old(balances), user, mint)
    {
      if (user, mint) !in balances {
        balances := balances[(user, mint) := Balance(0, 0)];
      }
      b := balances[(user, mint)];
      assert balances == balances[(user, mint) := b];
    }

    method SetBalance(user: nat, mint: string, available: int, locked: int)
      modifies this
      ensures balances == old(balances)[(user, mint) := Balance(available, locked)]
    {
      balances := balances[(user, mint) := Balance(available, locked)];
    }

    method LockBalance(user: nat, mint: string, amount: int) returns (ok: bool)
      modifies this
      ensures (balances, ok) == Lock(old(balances), user, mint, amount)
      ensures ok <==> amount <= At(old(balances), user, mint).available
      ensures var b := At(old(balances), user, mint);
              Becomes(old(balances), balances, user, mint,
                      if ok then Balance(b.available - amount, b.locked + amount) else b)
    {
      var balance := GetBalanceMut(user, mint);
      if balance.available < amount {
        return false;
      }
      balance := balance.(available := balance.available - amount);
      balance := balance.(locked := balance.locked + amount);
      PutTwice(old(balances), user, mint, balance);
      balances := balances[(user, mint) := balance];
      ok := true;
    }

    method UnlockBalance(user: nat, mint: string, amount: int) returns (ok: bool)
      modifies this
      ensures (balances, ok) == Unlock(old(balances), user, mint, amount)
      ensures ok <==> amount <= At(old(balances), user, mint).locked
      ensures var b := At(old(balances), user, mint);
              Becomes(old(balances), balances, user, mint,
                      if ok then Balance(b.available + amount, b.locked - amount) else b)
    {
      var balance := GetBalanceMut(user, mint);
      if balance.locked < amount {
        return false;
      }
      balance := balance.(locked := balance.locked - amount);
      balance := balance.(available := balance.available + amount);
      PutTwice(old(balances), user, mint, balance);
      balances := balances[(user, mint) := balance];
      ok := true;
    }

    method TransferBalance(from: nat, to: nat, mint: string, amount: int, fromLocked: bool) returns (ok: bool)
      modifies this
      ensures (balances, ok) == Transfer(old(balances), from, to, mint, amount, fromLocked)
      ensures var b := At(old(balances), from, mint);
              && (ok <==> amount <= if fromLocked then b.locked else b.available)
              && if ok then Moved(old(balances), balances, from, to, mint, amount, fromLocked)
                 else SameBalances(old(balances), balances)
    {
      TransferMeans(balances, from, to, mint, amount, fromLocked);
      var fromBalance := GetBalanceMut(from, mint);
      if fromLocked {
        if fromBalance.locked < amount {
          return false;
        }
        fromBalance := fromBalance.(locked := fromBalance.locked - amount);
      } else {
        if fromBalance.available < amount {
          return false;
        }
        fromBalance := fromBalance.(available := fromBalance.available - amount);
      }
      PutTwice(old(balances), from, mint, fromBalance);
      balances := balances[(from, mint) := fromBalance];
      ghost var charged := balances;
      var toBalance := GetBalanceMut(to, mint);
      PutTwice(charged, to, mint, toBalance.(available := toBalance.available + amount));
      balances := balances[(to, mint) := toBalance.(available := toBalance.available + amount)];
      ok := true;
    }

    method AddToAvailable(user: nat, mint: string, delta: int)
      modifies this
      ensures balances == AddAvailable(old(balances), user, mint, delta)
      ensures var b := At(old(balances), user, mint);
              Becomes(old(balances), balances, user, mint,
                      Balance(if 0 <= b.available + delta then b.available + delta else 0, b.locked))
    {
      var balance := GetBalanceMut(user, mint);
      balance := balance.(available := balance.available + delta);
      if balance.available < 0 {
        balance := balance.(available := 0);
      }
      PutTwice(old(balances), user, mint, balance);
      balances := balances[(user, mint) := balance];
    }
  }

  /** `hasDb`: is there a database writer to talk to?  `dbQueue` is what was sent to it. */
  class Executor {
    const balanceCache: BalanceCache
    const hasDb: bool
    var dbQueue: seq<D.DbCommand>

    constructor (hasDb: bool)
      ensures fresh(balanceCache) && balanceCache.balances == map[]
      ensures this.hasDb == hasDb && dbQueue == []
    {
      balanceCache := new BalanceCache();
      this.hasDb := hasDb;
      dbQueue := [];
    }

    method Send(cmds: seq<D.DbCommand>)
      modifies this
      ensures dbQueue == old(dbQueue) + if hasDb then cmds else []
    {
      if hasDb {
        dbQueue := dbQueue + cmds;
      }
    }

    /** Buyer's quote leg, then seller's base leg; an error in the second keeps the first. */
    method ExecuteTrade(m: MatchResult, skipDbUpdates: bool) returns (ok: bool)
      modifies this, balanceCache
      ensures (balanceCache.balances, ok) == Ledgers.ExecuteTrade(old(balanceCache.balances), m)
      ensures dbQueue == old(dbQueue) + if ok && !skipDbUpdates && hasDb then [D.InsertTrade(m)] else []
    {
      var totalValue := m.price * m.amount;
      ok := balanceCache.TransferBalance(m.buyer, m.seller, m.pair.quote, totalValue, true);
      if !ok {
        return;
      }
      ok := balanceCache.TransferBalance(m.seller, m.buyer, m.pair.base, m.amount, true);
      if !ok {
        return;
      }
      if !skipDbUpdates {
        Send([D.InsertTrade(m)]);
      }
    }

    /** The execution loop of a submission: every match in order, failed ones skipped. */
    method ExecuteMatches(matches: seq<MatchResult>, skipDbUpdates: bool)
      returns (done: seq<MatchResult>, quoteUsed: int, amountUsed: int)
      modifies this, balanceCache
      ensures (balanceCache.balances, done) == ExecuteAll(old(balanceCache.balances), matches)
      ensures quoteUsed == QuoteTotal(done) && amountUsed == BaseTotal(done)
      ensures dbQueue == old(dbQueue) + if !skipDbUpdates && hasDb then Trades(done) else []
    {
      hide ExecuteAll, Trades, QuoteTotal, BaseTotal;
      done, quoteUsed, amountUsed := [], 0, 0;
      ghost var all := ExecuteAll(balanceCache.balances, matches);
      NothingDone(balanceCache.balances);
      var i := 0;
      assert matches[0..] == matches && [] + all.1 == all.1;
      while i < |matches|
        invariant 0 <= i <= |matches|
        invariant all.0 == ExecuteAll(balanceCache.balances, matches[i..]).0
        invariant all.1 == done + ExecuteAll(balanceCache.balances, matches[i..]).1
        invariant quoteUsed == QuoteTotal(done) && amountUsed == BaseTotal(done)
        invariant dbQueue == old(dbQueue) + if !skipDbUpdates && hasDb then Trades(done) else []
      {
        var m := matches[i];
        assert matches[i..][0] == m && matches[i..][1..] == matches[i + 1..];
        NextTrade(balanceCache.balances, matches[i..]);
        var ok := ExecuteTrade(m, skipDbUpdates);
        if ok {
          TradeDone(done, m);
          done := done + [m];
          quoteUsed := quoteUsed + m.price * m.amount;
          amountUsed := amountUsed + m.amount;
        }
        i := i + 1;
      }
      assert matches[i..] == [] && done + [] == done;
      NothingDone(balanceCache.balances);
    }
  }

  lemma NothingDone(l: Ledger)
    ensures ExecuteAll(l, []) == (l, []) && QuoteTotal([]) == 0 && BaseTotal([]) == 0 && Trades([]) == []
  {}

  lemma NextTrade(l: Ledger, ms: seq<MatchResult>)
    requires ms != []
    ensures var (l1, ok) := Ledgers.ExecuteTrade(l, ms[0]);
            var (l2, later) := ExecuteAll(l1, ms[1..]);
            && ExecuteAll(l, ms).0 == l2
            && forall done :: done + ExecuteAll(l, ms).1 == (if ok then done + [ms[0]] else done) + later
  {
    var (l1, ok) := Ledgers.ExecuteTrade(l, ms[0]);
    var later := ExecuteAll(l1, ms[1..]).1;
    assert forall done: seq<MatchResult> :: done + ([ms[0]] + later) == (done + [ms[0]]) + later;
    assert [] + later == later;
  }

  lemma TradeDone(done: seq<MatchResult>, m: MatchResult)
    ensures QuoteTotal(done + [m]) == QuoteTotal(done) + m.price * m.amount
    ensures BaseTotal(done + [m]) == BaseTotal(done) + m.amount
    ensures Trades(done + [m]) == Trades(done) + [D.InsertTrade(m)]
  {
    MatchSums(done, [m], 0, "");
  }

  /** The cache after loading (user, mint, available, locked) rows. */
  function Loaded(rows: seq<(nat, string, int, int)>): Ledger {
    if rows == [] then map[]
    else
      var (u, mint, available, locked) := rows[|rows| - 1];
      Loaded(rows[..|rows| - 1])[(u, mint) := Balance(available + locked, 0)]
  }

  lemma {:induction false} LoadedKeys(rows: seq<(nat, string, int, int)>, k: (nat, string))
    ensures k in Loaded(rows) <==> exists i :: 0 <= i < |rows| && k == (rows[i].0, rows[i].1)
  {
    if rows != [] {
      var n := |rows| - 1;
      LoadedKeys(rows[..n], k);
      assert forall i :: 0 <= i < n ==> rows[..n][i] == rows[i];
    }
  }

  lemma {:induction false} LoadedAt(rows: seq<(nat, string, int, int)>, i: nat)
    requires i < |rows|
    requires forall j, k :: 0 <= j < k < |rows| ==> (rows[j].0, rows[j].1) != (rows[k].0, rows[k].1)
    ensures (rows[i].0, rows[i].1) in Loaded(rows)
    ensures Loaded(rows)[(rows[i].0, rows[i].1)] == Balance(rows[i].2 + rows[i].3, 0)
  {
    var n := |rows| - 1;
    if i < n {
      LoadedAt(rows[..n], i);
      assert rows[..n][i] == rows[i];
    }
  }

  /** Loading gives a fresh start, in which every user holds what the database said, all of it
      available. */
  lemma {:induction false} LoadedIsStarted(rows: seq<(nat, string, int, int)>)
    requires forall r :: r in rows ==> 0 <= r.2 && 0 <= r.3
    requires forall i, j :: 0 <= i < j < |rows| ==> (rows[i].0, rows[i].1) != (rows[j].0, rows[j].1)
    ensures Started(State(map[], Loaded(rows)))
    ensures forall k :: k in Loaded(rows) <==> exists i :: 0 <= i < |rows| && k == (rows[i].0, rows[i].1)
    ensures forall i :: 0 <= i < |rows| ==> At(Loaded(rows), rows[i].0, rows[i].1) == Balance(rows[i].2 + rows[i].3, 0)
  {
    hide Loaded;
    forall k ensures k in Loaded(rows) <==> exists i :: 0 <= i < |rows| && k == (rows[i].0, rows[i].1) {
      LoadedKeys(rows, k);
    }
    forall i | 0 <= i < |rows|
      ensures (rows[i].0, rows[i].1) in Loaded(rows)
      ensures Loaded(rows)[(rows[i].0, rows[i].1)] == Balance(rows[i].2 + rows[i].3, 0)
    {
      LoadedAt(rows, i);
    }
    forall k | k in Loaded(rows) ensures 0 <= Loaded(rows)[k].available && Loaded(rows)[k].locked == 0 {
      var i :| 0 <= i < |rows| && k == (rows[i].0, rows[i].1);
      assert rows[i] in rows;
    }
  }

  class Engine {
    var orderbooks: map<Pair, OrderBook>
    const executor: Executor

    /** Every pair has its own book. */
    ghost predicate Valid()
      reads this
    {
      forall p, q :: p in orderbooks && q in orderbooks && p != q ==> orderbooks[p] != orderbooks[q]
    }

    ghost function Books(): map<Pair, Book>
      reads this, orderbooks.Values
    {
      map p | p in orderbooks :: orderbooks[p].View()
    }

    ghost function View(): State
      reads this, orderbooks.Values, executor.balanceCache
    {
      State(Books(), executor.balanceCache.balances)
    }

    constructor (hasDb: bool)
      ensures Valid() && orderbooks == map[] && fresh(executor) && fresh(executor.balanceCache)
      ensures View() == State(map[], map[]) && executor.hasDb == hasDb && executor.dbQueue == []
    {
      orderbooks := map[];
      executor := new Executor(hasDb);
    }

    /** Start-up: every row's available and locked amounts together become available. */
    method LoadBalances(rows: seq<(nat, string, int, int)>)
      requires Valid() && orderbooks == map[] && executor.balanceCache.balances == map[]
      modifies executor.balanceCache
      ensures Valid() && View() == State(map[], Loaded(rows))
    {
      var i := 0;
      while i < |rows|
        invariant 0 <= i <= |rows|
        invariant orderbooks == map[]
        invariant executor.balanceCache.balances == Loaded(rows[..i])
      {
        assert rows[..i + 1][..i] == rows[..i];
        executor.balanceCache.SetBalance(rows[i].0, rows[i].1, rows[i].2 + rows[i].3, 0);
        i := i + 1;
      }
      assert rows[..i] == rows;
    }

    /** The book of the pair, created empty if there is none. */
    method BookFor(pair: Pair) returns (book: OrderBook)
      requires Valid()
      modifies this`orderbooks
      ensures Valid() && pair in orderbooks && book == orderbooks[pair]
      ensures fresh(book) || (pair in old(orderbooks) && orderbooks == old(orderbooks))
      ensures orderbooks == old(orderbooks)[pair := book]
      ensures book.View() == old(BookOf(View(), pair))
      ensures Books() == old(Books())[pair := book.View()]
    {
      if pair in orderbooks {
        book := orderbooks[pair];
        assert orderbooks[pair := book] == orderbooks;
      } else {
        book := new OrderBook();
        orderbooks := orderbooks[pair := book];
      }
    }

    /** Match against the opposite side, then rest what is left of a limit order. */
    method MatchAndRest(order: Order) returns (taker: Order, matches: seq<MatchResult>)
      requires Valid() && ValidOrder(order)
      modifies this`orderbooks, orderbooks.Values
      ensures Valid() && fresh(orderbooks.Values - old(orderbooks.Values))
      ensures var book := old(BookOf(View(), order.pair));
              var out := MatchSpec(order, book);
              && matches == out.matches && taker == out.taker
              && Books() == old(Books())[order.pair := Rest(order, out, book)]
    {
      hide MatchSpec, Rest, ValidOrder;
      ghost var before, s := Books(), View();
      var book := BookFor(order.pair);
      ghost var ready := Books();
      assert ready == before[order.pair := BookOf(s, order.pair)];
      taker, matches := MatchInOwnBook(order, book);
      hide BookOf;
      ghost var rested := Rest(order, MatchSpec(order, ready[order.pair]), ready[order.pair]);
      assert ready[order.pair := rested] == before[order.pair := rested];
    }

    method MatchInOwnBook(order: Order, book: OrderBook) returns (taker: Order, matches: seq<MatchResult>)
      requires Valid() && ValidOrder(order) && order.pair in orderbooks && book == orderbooks[order.pair]
      modifies book
      ensures var out := MatchSpec(order, old(book.View()));
              && matches == out.matches && taker == out.taker
              && Books() == old(Books())[order.pair := Rest(order, out, old(book.View()))]
    {
      hide MatchSpec, Rest, ValidOrder;
      ghost var before := Books();
      taker, matches := MatchInBook(order, book);
      assert Books() == before[order.pair := book.View()];
    }

    /** A market order's trades, the release of what they did not use, and the summary of both. */
    method SettleMarket(order: Order, ghost out: Outcome, matches: seq<MatchResult>)
      returns (done: seq<MatchResult>, ghost changes: BalanceChanges.Changes)
      requires order.style == Market && out.matches == matches
      modifies executor, executor.balanceCache
      ensures var (l, successes) := ExecuteAll(old(executor.balanceCache.balances), matches);
              done == successes && executor.balanceCache.balances == Release(l, order, Refund(order, out, done))
      ensures executor.dbQueue == old(executor.dbQueue)
      ensures executor.hasDb ==>
                BalanceChanges.Summary(changes, done, order.user, PayMint(order), Refund(order, out, done))
    {
      hide ExecuteAll, Unlock, BalanceChanges.Summary;
      changes := map[];
      var quoteUsed, amountUsed;
      done, quoteUsed, amountUsed := executor.ExecuteMatches(matches, true);
      var unlockAmount := if order.side == Buy then order.quoteAmount.GetOr(0) - quoteUsed
                          else order.amount - amountUsed;
      var unlockMint := if order.side == Buy then order.pair.quote else order.pair.base;
      if unlockAmount > 0 {
        var unlocked := executor.balanceCache.UnlockBalance(order.user, unlockMint, unlockAmount);
      }
      if executor.hasDb {
        var balanceChanges := BalanceChanges.Aggregate(done, order.user, unlockMint, unlockAmount);
        changes := balanceChanges;
      }
    }

    /** A limit order's trades, its status, and the release of the leftover lock if it is filled. */
    method SettleLimit(order: Order, taker: Order, ghost out: Outcome, matches: seq<MatchResult>)
      requires order.style == Limit && out.matches == matches && out.taker == taker && SameTaker(order, taker)
      modifies executor, executor.balanceCache
      ensures var (l, successes) := ExecuteAll(old(executor.balanceCache.balances), matches);
              && executor.balanceCache.balances == Release(l, order, Refund(order, out, successes))
              && executor.dbQueue == old(executor.dbQueue) +
                   if executor.hasDb then Trades(successes) + StatusUpdates(out) else []
      ensures executor.dbQueue == old(executor.dbQueue) +
                if !executor.hasDb then []
                else
                  TradeMessages(ExecuteAll(old(executor.balanceCache.balances), matches).1) +
                  if taker.remaining == 0
                  then [D.UpdateOrderStatus(order.id, "filled", BaseTotal(matches), QuoteTotal(matches))]
                  else if taker.remaining > 0 && matches != []
                  then [D.UpdateOrderStatus(order.id, "partial", BaseTotal(matches), QuoteTotal(matches))]
                  else []
    {
      hide ExecuteAll, Unlock;
      ghost var successes := ExecuteAll(executor.balanceCache.balances, matches).1;
      assert TradeMessages(successes) == Trades(successes);
      var done, quoteUsed, amountUsed := executor.ExecuteMatches(matches, false);
      var filledAmount, filledQuoteAmount := SumMatches(matches);
      if matches != [] && taker.remaining > 0 {
        executor.Send([D.UpdateOrderStatus(taker.id, "partial", filledAmount, filledQuoteAmount)]);
      }
      if taker.remaining == 0 {
        var unlockAmount := if taker.side == Buy then taker.PriceOrZero() * order.amount - filledQuoteAmount
                            else order.amount - filledAmount;
        var unlockMint := if taker.side == Buy then taker.pair.quote else taker.pair.base;
        if unlockAmount > 0 {
          var unlocked := executor.balanceCache.UnlockBalance(taker.user, unlockMint, unlockAmount);
        }
        executor.Send([D.UpdateOrderStatus(taker.id, "filled", filledAmount, filledQuoteAmount)]);
      }
    }

    /** Trades and releases of `process_submit_order`, by style of order. */
    method Settle(order: Order, taker: Order, ghost out: Outcome, matches: seq<MatchResult>)
      returns (reported: seq<MatchResult>, ghost changes: BalanceChanges.Changes)
      requires out.matches == matches && out.taker == taker && SameTaker(order, taker)
      modifies executor, executor.balanceCache
      ensures var (l, done) := ExecuteAll(old(executor.balanceCache.balances), matches);
              && executor.balanceCache.balances == Release(l, order, Refund(order, out, done))
              && reported == (if order.style == Market then done else matches)
              && executor.dbQueue == old(executor.dbQueue) +
                   if executor.hasDb && order.style == Limit then Trades(done) + StatusUpdates(out) else []
      ensures order.style == Market && executor.hasDb ==>
                BalanceChanges.Summary(changes, reported, order.user, PayMint(order), Refund(order, out, reported))
    {
      hide ExecuteAll, Release, Refund, Trades, StatusUpdates, BalanceChanges.Summary;
      changes := map[];
      if order.style == Market {
        reported, changes := SettleMarket(order, out, matches);
      } else {
        SettleLimit(order, taker, out, matches);
        reported := matches;
      }
    }

    /** Trades and releases of `process_submit_order_bench`. */
    method SettleBench(order: Order, taker: Order, ghost out: Outcome, matches: seq<MatchResult>)
      returns (reported: seq<MatchResult>)
      requires out.matches == matches && out.taker == taker && SameTaker(order, taker) && !executor.hasDb
      modifies executor, executor.balanceCache
      ensures var (l, done) := ExecuteAll(old(executor.balanceCache.balances), matches);
              && executor.balanceCache.balances == Release(l, order, Refund(order, out, done))
              && reported == (if order.style == Market then done else matches)
      ensures executor.dbQueue == old(executor.dbQueue)
    {
      hide ExecuteAll, Unlock;
      var lockMint := if taker.side == Buy then taker.pair.quote else taker.pair.base;
      var done, quoteUsed, amountUsed := executor.ExecuteMatches(matches, order.style == Market);
      if order.style == Market {
        var unlock := if taker.side == Buy then order.quoteAmount.GetOr(0) - quoteUsed else order.amount - amountUsed;
        if unlock > 0 {
          var unlocked := executor.balanceCache.UnlockBalance(taker.user, lockMint, unlock);
        }
        return done;
      }
      if taker.remaining == 0 {
        var totalAmount, totalQuote := SumMatches(matches);
        var unlock := if taker.side == Buy then taker.PriceOrZero() * order.amount - totalQuote
                      else order.amount - totalAmount;
        if unlock > 0 {
          var unlocked := executor.balanceCache.UnlockBalance(taker.user, lockMint, unlock);
        }
      }
      reported := matches;
    }

    /** The lock at the start of a submission. */
    method LockForOrder(order: Order) returns (ok: bool, lockMint: string, lockAmount: int)
      modifies executor.balanceCache
      ensures lockMint == PayMint(order) && lockAmount == LockAmount(order)
      ensures (executor.balanceCache.balances, ok) ==
              Lock(old(executor.balanceCache.balances), order.user, lockMint, lockAmount)
    {
      lockMint := if order.side == Buy then order.pair.quote else order.pair.base;
      lockAmount :=
        if order.side == Buy then
          if order.style == Market then order.quoteAmount.GetOr(0) else order.PriceOrZero() * order.amount
        else order.amount;
      ok := executor.balanceCache.LockBalance(order.user, lockMint, lockAmount);
    }

    /** The lock, and the balance update it sends. */
    method LockAndReport(order: Order) returns (ok: bool)
      modifies executor, executor.balanceCache
      ensures (executor.balanceCache.balances, ok) ==
              Lock(old(executor.balanceCache.balances), order.user, PayMint(order), LockAmount(order))
      ensures executor.dbQueue == old(executor.dbQueue) +
                if ok && executor.hasDb
                then [D.UpdateBalance(order.user, PayMint(order), Some(-LockAmount(order)), Some(LockAmount(order)))]
                else []
    {
      hide Lock;
      var lockMint, lockAmount;
      ok, lockMint, lockAmount := LockForOrder(order);
      if ok {
        executor.Send([D.UpdateBalance(order.user, lockMint, Some(-lockAmount), Some(lockAmount))]);
      }
    }

    /** Everything after the lock: match, rest, trade, release. */
    method MatchAndSettle(order: Order) returns (reported: seq<MatchResult>, ghost changes: BalanceChanges.Changes)
      requires Valid() && ValidOrder(order)
      modifies this`orderbooks, orderbooks.Values, executor, executor.balanceCache
      ensures Valid() && fresh(orderbooks.Values - old(orderbooks.Values))
      ensures var book := old(BookOf(View(), order.pair));
              var out := MatchSpec(order, book);
              var (l, done) := ExecuteAll(old(executor.balanceCache.balances), out.matches);
              && Books() == old(Books())[order.pair := Rest(order, out, book)]
              && executor.balanceCache.balances == Release(l, order, Refund(order, out, done))
              && reported == (if order.style == Market then done else out.matches)
              && executor.dbQueue == old(executor.dbQueue) +
                   (if executor.hasDb && order.style == Limit then Trades(done) + StatusUpdates(out) else [])
              && (order.style == Market && executor.hasDb ==>
                    BalanceChanges.Summary(changes, done, order.user, PayMint(order), Refund(order, out, done)))
    {
      hide MatchSpec, Rest, ExecuteAll, ValidOrder, LockAmount, Refund, Release, StatusUpdates, Trades;
      hide BalanceChanges.Summary;
      ghost var out := MatchSpec(order, BookOf(View(), order.pair));
      TakerIsKept(order, BookOf(View(), order.pair));
      var taker, matches := MatchAndRest(order);
      ghost var books := Books();
      reported, changes := Settle(order, taker, out, matches);
      assert Books() == books;
    }

    /** `process_submit_order`: lock, match, rest, trade, release.  The new state, the reported
        matches and everything sent to the database are those of the specification. */
    method ProcessSubmitOrder(order: Order)
      returns (result: Option<seq<MatchResult>>, ghost changes: BalanceChanges.Changes)
      requires Valid() && ValidOrder(order)
      modifies this`orderbooks, orderbooks.Values, executor, executor.balanceCache
      ensures Valid() && fresh(orderbooks.Values - old(orderbooks.Values))
      ensures (View(), result) == Submit(old(View()), order)
      ensures executor.dbQueue == old(executor.dbQueue) + if executor.hasDb then Emitted(old(View()), order) else []
      ensures executor.hasDb && order.style == Market && Inv(old(View())) ==>
                SummarizedRightly(old(View()), order, changes)
    {
      hide MatchSpec, Rest, ExecuteAll, ValidOrder, Lock, LockAmount, Refund, Release;
      hide StatusUpdates, Trades, Submit, Emitted;
      ghost var s := View();
      Stages(s, order);
      var locked := LockAndReport(order);
      assert Books() == s.books;
      if !locked {
        return None, map[];
      }
      var reported;
      reported, changes := MatchAndSettle(order);
      result := Some(reported);
      SummaryOfStages(s, order, changes, executor.hasDb);
    }

    /** `handle_submit_order`: the effects, the messages and the reply of a submission, spelled out. */
    method HandleSubmitOrder(order: Order) returns (reply: Option<seq<MatchResult>>)
      requires Valid() && ValidOrder(order)
      modifies this`orderbooks, orderbooks.Values, executor, executor.balanceCache
      ensures Valid() && fresh(orderbooks.Values - old(orderbooks.Values))
      ensures (View(), reply) == Submit(old(View()), order)
      ensures var s := old(View());
              Inv(s) ==>
                && SubmitActs(s, order, View())
                && executor.dbQueue == old(executor.dbQueue) + (if executor.hasDb then Messages(s, order) else [])
                && reply == if Asked(order) <= At(s.ledger, order.user, PaidIn(order)).available
                            then Some(Sweep(order, BookOf(s, order.pair).On(order.side.Opposite())).matches) else None
    {
      hide Inv, Submit, SubmitActs, Messages, Emitted, Sweep, ValidOrder;
      if Inv(View()) {
        SubmitDoes(View(), order);
        SubmitReplies(View(), order);
        MessagesAreSent(View(), order);
      }
      ghost var changes;
      reply, changes := ProcessSubmitOrder(order);
    }

    /** Everything after the lock, in the twin. */
    method MatchAndSettleBench(order: Order) returns (reported: seq<MatchResult>)
      requires Valid() && ValidOrder(order) && !executor.hasDb
      modifies this`orderbooks, orderbooks.Values, executor, executor.balanceCache
      ensures Valid() && fresh(orderbooks.Values - old(orderbooks.Values))
      ensures var book := old(BookOf(View(), order.pair));
              var out := MatchSpec(order, book);
              var (l, done) := ExecuteAll(old(executor.balanceCache.balances), out.matches);
              && Books() == old(Books())[order.pair := Rest(order, out, book)]
              && executor.balanceCache.balances == Release(l, order, Refund(order, out, done))
              && reported == (if order.style == Market then done else out.matches)
      ensures executor.dbQueue == old(executor.dbQueue)
    {
      hide MatchSpec, Rest, ExecuteAll, ValidOrder, LockAmount, Refund, Release;
      ghost var out := MatchSpec(order, BookOf(View(), order.pair));
      TakerIsKept(order, BookOf(View(), order.pair));
      var taker, matches := MatchAndRest(order);
      ghost var books := Books();
      reported := SettleBench(order, taker, out, matches);
      assert Books() == books;
    }

    /** `process_submit_order_bench`: the twin without locks and database commands. */
    method ProcessSubmitOrderBench(order: Order) returns (result: Option<seq<MatchResult>>)
      requires Valid() && ValidOrder(order) && !executor.hasDb
      modifies this`orderbooks, orderbooks.Values, executor, executor.balanceCache
      ensures Valid() && fresh(orderbooks.Values - old(orderbooks.Values))
      ensures (View(), result) == Submit(old(View()), order)
      ensures executor.dbQueue == old(executor.dbQueue)
    {
      hide MatchSpec, Rest, ExecuteAll, ValidOrder, Lock, LockAmount, Refund, Release, Submit, Emitted;
      ghost var s := View();
      Stages(s, order);
      var locked, lockMint, lockAmount := LockForOrder(order);
      if !locked {
        return None;
      }
      assert Books() == s.books;
      var reported := MatchAndSettleBench(order);
      result := Some(reported);
    }

    method HandleUpdateBalance(user: nat, mint: string, availableDelta: int)
      requires Valid()
      modifies executor.balanceCache
      ensures Valid() && View() == Step(old(View()), UpdateBalance(user, mint, availableDelta))
      ensures Books() == old(Books())
      ensures var was := old(executor.balanceCache.balances);
              var b := At(was, user, mint);
              Becomes(was, executor.balanceCache.balances, user, mint,
                      Balance(if 0 <= b.available + availableDelta then b.available + availableDelta else 0, b.locked))
    {
      executor.balanceCache.AddToAvailable(user, mint, availableDelta);
      assert Books() == old(Books());
    }

    /** Search the bids, then the asks; take the order out; release what it still had locked. */
    method HandleCancelOrder(id: nat, user: nat, pair: Pair) returns (result: CancelResult)
      requires Valid()
      modifies orderbooks.Values, executor.balanceCache
      ensures Valid() && (View(), result) == Cancel(old(View()), id, user, pair)
    {
      hide LevelOf, PositionOf, RemoveAt, Unlock, SideOf;
      ghost var s := View();
      if pair !in orderbooks {
        return NoBook;
      }
      var book := orderbooks[pair];
      var found, side, level, pos := Queries.Locate(book.View(), id);
      if !found {
        return NotFound;
      }
      var levels := if side == Buy then book.bids else book.asks;
      var order := levels[level].queue[pos];
      if order.user != user {
        return Unauthorized;
      }
      RemoveFromBook(book, side, level, pos);
      ghost var books := Books();
      assert books == s.books[pair := book.View()];
      var ok := ReleaseCancelled(order, user);
      assert Books() == books;
      result := if ok then Cancelled(order) else UnlockFailed;
    }

    method ReleaseCancelled(order: Order, user: nat) returns (ok: bool)
      modifies executor.balanceCache
      ensures (executor.balanceCache.balances, ok) ==
              Unlock(old(executor.balanceCache.balances), user, PayMint(order), UnitCost(order) * order.remaining)
    {
      var unlockMint := if order.side == Buy then order.pair.quote else order.pair.base;
      var unlockAmount := if order.side == Buy then order.PriceOrZero() * order.remaining else order.remaining;
      ok := executor.balanceCache.UnlockBalance(user, unlockMint, unlockAmount);
    }

    /** One command, by its handler. */
    method Handle(c: Command)
      requires Valid() && (c.SubmitOrder? ==> ValidOrder(c.order))
      modifies this`orderbooks, orderbooks.Values, executor, executor.balanceCache
      ensures Valid() && fresh(orderbooks.Values - old(orderbooks.Values))
      ensures View() == Step(old(View()), c)
      ensures Inv(old(View())) ==> Acts(old(View()), c, View())
    {
      hide Inv, Acts;
      if Inv(View()) {
        StepActs(View(), c);
      }
      match c
      case SubmitOrder(order) =>
        var reply := HandleSubmitOrder(order);
      case CancelOrder(id, user, pair) =>
        var reply := HandleCancelOrder(id, user, pair);
      case UpdateBalance(user, mint, delta) =>
        HandleUpdateBalance(user, mint, delta);
    }

    method HandleGetOrderbook(pair: Pair, depth: Option<nat>) returns (bids: seq<Order>, asks: seq<Order>)
      requires Valid() && GoodBooks(Books())
      ensures var book := BookOf(View(), pair);
              bids == Queries.Top(Flat(book.bids), depth) && asks == Queries.Top(Flat(book.asks), depth)
      ensures pair !in orderbooks ==> bids == [] == asks
      ensures pair in orderbooks ==>
                && bids <= Flat(orderbooks[pair].bids)
                && |bids| == Queries.Shown(|Flat(orderbooks[pair].bids)|, depth)
                && asks <= Flat(orderbooks[pair].asks)
                && |asks| == Queries.Shown(|Flat(orderbooks[pair].asks)|, depth)
    {
      if pair !in orderbooks {
        return [], [];
      }
      var book := orderbooks[pair];
      assert Books()[pair] == book.View() && GoodBook(book.View(), pair);
      LevelsAreNotEmpty(book.bids, Buy, pair);
      LevelsAreNotEmpty(book.asks, Sell, pair);
      bids := Queries.Collect(book.bids, depth);
      asks := Queries.Collect(book.asks, depth);
    }

    method GetBestBid(pair: Pair) returns (best: Option<Price>)
      requires Valid() && GoodBooks(Books())
      ensures best == BestPrice(BookOf(View(), pair).bids)
    {
      var bids, asks := HandleGetOrderbook(pair, Some(1));
      OwedCoversABook(View(), pair, 0, "");
      Queries.FirstOfTop(BookOf(View(), pair).bids, Buy, pair);
      if bids == [] {
        return None;
      }
      best := bids[0].price;
    }

    method GetBestAsk(pair: Pair) returns (best: Option<Price>)
      requires Valid() && GoodBooks(Books())
      ensures best == BestPrice(BookOf(View(), pair).asks)
    {
      var bids, asks := HandleGetOrderbook(pair, Some(1));
      OwedCoversABook(View(), pair, 0, "");
      Queries.FirstOfTop(BookOf(View(), pair).asks, Sell, pair);
      if asks == [] {
        return None;
      }
      best := asks[0].price;
    }
  }

  /** Take one order out of its queue, and the level out of the side once it is empty. */
  method RemoveFromBook(book: OrderBook, side: Side, level: nat, pos: nat)
    requires var levels := book.View().On(side); level < |levels| && pos < |levels[level].queue|
    modifies book
    ensures book.View() == old(book.View()).With(side, RemoveAt(old(book.View()).On(side), level, pos))
  {
    var levels := if side == Buy then book.bids else book.asks;
    var queue := levels[level].queue;
    queue := queue[..pos] + queue[pos + 1..];
    if queue == [] {
      levels := levels[..level] + levels[level + 1..];
    } else {
      levels := levels[..level] + [Level(levels[level].price, queue)] + levels[level + 1..];
    }
    if side == Buy {
      book.bids := levels;
    } else {
      book.asks := levels;
    }
  }

  /** The `sum()`s over the matches of a submission. */
  method SumMatches(matches: seq<MatchResult>) returns (amount: int, quote: int)
    ensures amount == BaseTotal(matches) && quote == QuoteTotal(matches)
  {
    amount, quote := 0, 0;
    var i := 0;
    while i < |matches|
      invariant 0 <= i <= |matches|
      invariant amount == BaseTotal(matches[..i]) && quote == QuoteTotal(matches[..i])
    {
      var m := matches[i];
      assert matches[..i + 1] == matches[..i] + [m];
      MatchSums(matches[..i], [m], 0, "");
      amount := amount + m.amount;
      quote := quote + m.price * m.amount;
      i := i + 1;
    }
    assert matches[..i] == matches;
  }

  /** `Submit` and `Emitted`, spelled out stage by stage. */
  lemma Stages(s: State, o: Order)
    ensures var (l1, ok) := Lock(s.ledger, o.user, PayMint(o), LockAmount(o));
            var out := MatchSpec(o, BookOf(s, o.pair));
            var (l2, done) := ExecuteAll(l1, out.matches);
            var lock := D.UpdateBalance(o.user, PayMint(o), Some(-LockAmount(o)), Some(LockAmount(o)));
            if !ok then Submit(s, o) == (s.(ledger := l1), None) && Emitted(s, o) == []
            else
              && Submit(s, o) == (State(s.books[o.pair := Rest(o, out, BookOf(s, o.pair))],
                                        Release(l2, o, Refund(o, out, done))),
                                  Some(if o.style == Market then done else out.matches))
              && Emitted(s, o) == [lock] + if o.style == Limit then Trades(done) + StatusUpdates(out) else []
  {
    hide Lock, MatchSpec, ExecuteAll, Rest, Release, Refund, Trades, StatusUpdates;
    var out := MatchSpec(o, BookOf(s, o.pair));
    var done := ExecuteAll(Lock(s.ledger, o.user, PayMint(o), LockAmount(o)).0, out.matches).1;
    assert forall lock: D.DbCommand ::
      [lock] + Trades(done) + StatusUpdates(out) == [lock] + (Trades(done) + StatusUpdates(out));
  }

  /** The summary of an accepted order is the change of the balance cache since its lock. */
  ghost predicate SummarizedRightly(s: State, o: Order, changes: BalanceChanges.Changes) {
    var a := Process(s, o);
    a.Accepted? ==> BalanceChanges.IsDifference(changes, a.locked, a.final)
  }

  lemma SummaryOfStages(s: State, o: Order, changes: BalanceChanges.Changes, hasDb: bool)
    requires ValidOrder(o)
    requires hasDb && o.style == Market && Process(s, o).Accepted? ==>
               var a := Process(s, o);
               BalanceChanges.Summary(changes, a.done, o.user, PayMint(o), a.refund)
    ensures hasDb && o.style == Market && Inv(s) ==> SummarizedRightly(s, o, changes)
  {
    hide Process, BalanceChanges.Summary, BalanceChanges.IsDifference, Inv;
    if hasDb && o.style == Market && Inv(s) && Process(s, o).Accepted? {
      BalanceChanges.SummaryIsReal(s, o, changes);
    }
  }

  lemma TakerIsKept(o: Order, book: Book)
    ensures SameTaker(o, MatchSpec(o, book).taker)
  {
    SweepKeepsTaker(o, book.On(o.side.Opposite()));
  }

  method MatchInBook(order: Order, book: OrderBook) returns (taker: Order, matches: seq<MatchResult>)
    requires ValidOrder(order)
    modifies book
    ensures var out := MatchSpec(order, old(book.View()));
            matches == out.matches && taker == out.taker && book.View() == Rest(order, out, old(book.View()))
  {
    TakerIsKept(order, book.View());
    hide MatchSpec, AddTo, GoodLevels;
    ghost var discarded;
    taker, matches, discarded := MatchOrder(order, book);
    if order.style == Limit {
      var hasRemaining := match taker.remainingQuote
        case Some(remainingQuote) => remainingQuote > 0
        case None => taker.remaining > 0;
      if hasRemaining {
        book.AddOrder(taker);
      }
    }
  }
}
