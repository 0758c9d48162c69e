/** The balance cache as a value: what each balance operation does to it. */
module Ledgers {
  import opened Types
  import opened Obligations

  datatype Balance = Balance(available: int, locked: int)

  /** (user, mint) -> balance; an absent entry counts as zero. */
  type Ledger = map<(nat, string), Balance>

  function At(l: Ledger, u: nat, mint: string): Balance {
    if (u, mint) in l then l[(u, mint)] else Balance(0, 0)
  }

  /** `entry(..).or_insert_with(Balance::new)` */
  function Touch(l: Ledger, u: nat, mint: string): Ledger {
    l[(u, mint) := At(l, u, mint)]
  }

  function Lock(l: Ledger, u: nat, mint: string, amount: int): (Ledger, bool) {
    var b := At(l, u, mint);
    if b.available < amount then (Touch(l, u, mint), false)
    else (l[(u, mint) := Balance(b.available - amount, b.locked + amount)], true)
  }

  function Unlock(l: Ledger, u: nat, mint: string, amount: int): (Ledger, bool) {
    var b := At(l, u, mint);
    if b.locked < amount then (Touch(l, u, mint), false)
    else (l[(u, mint) := Balance(b.available + amount, b.locked - amount)], true)
  }

  function Credit(l: Ledger, u: nat, mint: string, amount: int): Ledger {
    var b := At(l, u, mint);
    l[(u, mint) := b.(available := b.available + amount)]
  }

  function Transfer(l: Ledger, from: nat, to: nat, mint: string, amount: int, fromLocked: bool): (Ledger, bool) {
    var b := At(l, from, mint);
    if fromLocked then
      if b.locked < amount then (Touch(l, from, mint), false)
      else (Credit(l[(from, mint) := b.(locked := b.locked - amount)], to, mint, amount), true)
    else
      if b.available < amount then (Touch(l, from, mint), false)
      else (Credit(l[(from, mint) := b.(available := b.available - amount)], to, mint, amount), true)
  }

  /** Deposit or withdrawal; a withdrawal beyond the available balance stops at zero. */
  function AddAvailable(l: Ledger, u: nat, mint: string, delta: int): Ledger {
    var b := At(l, u, mint);
    l[(u, mint) := b.(available := if b.available + delta < 0 then 0 else b.available + delta)]
  }

  /** Both legs of a trade; a failing second leg leaves the first one in place. */
  function ExecuteTrade(l: Ledger, m: MatchResult): (Ledger, bool) {
    var (l1, ok1) := Transfer(l, m.buyer, m.seller, m.pair.quote, m.price * m.amount, true);
    if !ok1 then (l1, false) else Transfer(l1, m.seller, m.buyer, m.pair.base, m.amount, true)
  }

  /** The trades in order, failed ones skipped; also the successful ones. */
  function ExecuteAll(l: Ledger, ms: seq<MatchResult>): (Ledger, seq<MatchResult>)
    decreases |ms|
  {
    if ms == [] then (l, [])
    else
      var (l1, ok) := ExecuteTrade(l, ms[0]);
      var (l2, done) := ExecuteAll(l1, ms[1..]);
      (l2, (if ok then [ms[0]] else []) + done)
  }

  // ---------------------------------------------------------------------------------------
  // What the operations mean, balance by balance
  // ---------------------------------------------------------------------------------------

  /** `l'` is `l`, except that `u` holds `b` in `mint`. */
  ghost predicate Becomes(l: Ledger, l': Ledger, u: nat, mint: string, b: Balance) {
    forall v, n :: At(l', v, n) == if v == u && n == mint then b else At(l, v, n)
  }

  /** A lock moves the amount from available to locked, or is refused and moves nothing. */
  lemma LockMeans(l: Ledger, u: nat, mint: string, amount: int)
    ensures var (l', ok) := Lock(l, u, mint, amount);
            var b := At(l, u, mint);
            && (ok <==> amount <= b.available)
            && Becomes(l, l', u, mint, if ok then Balance(b.available - amount, b.locked + amount) else b)
  {}

  /** An unlock moves it back, or is refused and moves nothing. */
  lemma UnlockMeans(l: Ledger, u: nat, mint: string, amount: int)
    ensures var (l', ok) := Unlock(l, u, mint, amount);
            var b := At(l, u, mint);
            && (ok <==> amount <= b.locked)
            && Becomes(l, l', u, mint, if ok then Balance(b.available + amount, b.locked - amount) else b)
  {}

  /** A deposit or withdrawal changes one available balance, which stops at zero. */
  lemma DepositMeans(l: Ledger, u: nat, mint: string, delta: int)
    ensures var b := At(l, u, mint);
            Becomes(l, AddAvailable(l, u, mint, delta), u, mint,
                    Balance(if 0 <= b.available + delta then b.available + delta else 0, b.locked))
  {}

  /** `l'` is `l` after `amount` of `mint` went from one part of `from`'s balance to `to`'s available one. */
  ghost predicate Moved(l: Ledger, l': Ledger, from: nat, to: nat, mint: string, amount: int, fromLocked: bool) {
    forall v, n ::
      var debit := if v == from && n == mint then amount else 0;
      var credit := if v == to && n == mint then amount else 0;
      At(l', v, n) ==
      Balance(At(l, v, n).available + credit - (if fromLocked then 0 else debit),
              At(l, v, n).locked - (if fromLocked then debit else 0))
  }

  ghost predicate SameBalances(l: Ledger, l': Ledger) {
    forall v, n :: At(l', v, n) == At(l, v, n)
  }

  lemma TransferMeans(l: Ledger, from: nat, to: nat, mint: string, amount: int, fromLocked: bool)
    ensures var (l', ok) := Transfer(l, from, to, mint, amount, fromLocked);
            var b := At(l, from, mint);
            && (ok <==> amount <= if fromLocked then b.locked else b.available)
            && if ok then Moved(l, l', from, to, mint, amount, fromLocked) else SameBalances(l, l')
  {}

  /** A trade pays the seller, then delivers to the buyer.  If the first leg is refused nothing happens; if
      the second is refused the first one stands. */
  lemma TradeMeans(l: Ledger, m: MatchResult)
    ensures var (l', ok) := ExecuteTrade(l, m);
            exists paid ::
              if m.price * m.amount > At(l, m.buyer, m.pair.quote).locked then !ok && SameBalances(l, l')
              else
                && Moved(l, paid, m.buyer, m.seller, m.pair.quote, m.price * m.amount, true)
                && (ok <==> m.amount <= At(paid, m.seller, m.pair.base).locked)
                && if ok then Moved(paid, l', m.seller, m.buyer, m.pair.base, m.amount, true)
                   else SameBalances(paid, l')
  {
    hide Transfer;
    var (paid, ok) := Transfer(l, m.buyer, m.seller, m.pair.quote, m.price * m.amount, true);
    TransferMeans(l, m.buyer, m.seller, m.pair.quote, m.price * m.amount, true);
    TransferMeans(paid, m.seller, m.buyer, m.pair.base, m.amount, true);
  }

  /** Trades are tried one after the other; a refused one is skipped and the later ones still take place. */
  lemma {:induction false} ExecuteInParts(l: Ledger, ms: seq<MatchResult>, ms': seq<MatchResult>)
    ensures var (l1, done) := ExecuteAll(l, ms);
            ExecuteAll(l, ms + ms') == (ExecuteAll(l1, ms').0, done + ExecuteAll(l1, ms').1)
    decreases |ms|
  {
    if ms == [] {
      assert ms + ms' == ms';
      assert [] + ExecuteAll(l, ms').1 == ExecuteAll(l, ms').1;
    } else {
      assert (ms + ms')[1..] == ms[1..] + ms';
      var (l1, ok) := ExecuteTrade(l, ms[0]);
      ExecuteInParts(l1, ms[1..], ms');
      var (l2, done) := ExecuteAll(l1, ms[1..]);
      var first, later := if ok then [ms[0]] else [], ExecuteAll(l2, ms').1;
      assert first + (done + later) == (first + done) + later;
    }
  }

  lemma ExecuteOne(l: Ledger, m: MatchResult)
    ensures ExecuteAll(l, [m]).0 == ExecuteTrade(l, m).0
    ensures ExecuteAll(l, [m]).1 == if ExecuteTrade(l, m).1 then [m] else []
  {
    assert [m][1..] == [];
  }

  /** One more trade at the end of a list, whatever became of the earlier ones. */
  lemma ExecuteOneMore(l: Ledger, ms: seq<MatchResult>, m: MatchResult)
    ensures var (l1, done) := ExecuteAll(l, ms);
            var (l2, ok) := ExecuteTrade(l1, m);
            ExecuteAll(l, ms + [m]) == (l2, if ok then done + [m] else done)
  {
    ExecuteInParts(l, ms, [m]);
    ExecuteOne(ExecuteAll(l, ms).0, m);
    var done := ExecuteAll(l, ms).1;
    assert done + [] == done;
  }

  // ---------------------------------------------------------------------------------------
  // Executing a list of matches
  // ---------------------------------------------------------------------------------------

  /** What a match adds to the available balance of `u` in `mint`. */
  function Gain(m: MatchResult, u: nat, mint: string): int {
    (if m.seller == u && m.pair.quote == mint then m.price * m.amount else 0)
    + (if m.buyer == u && m.pair.base == mint then m.amount else 0)
  }

  function Gains(ms: seq<MatchResult>, u: nat, mint: string): int {
    if ms == [] then 0 else Gain(ms[0], u, mint) + Gains(ms[1..], u, mint)
  }

  /** Every locked balance covers what `ms` will take from it. */
  ghost predicate Covers(l: Ledger, ms: seq<MatchResult>) {
    forall u, mint :: Demand(ms, u, mint) <= At(l, u, mint).locked
  }

  predicate Fair(m: MatchResult) {
    0 < m.amount && m.buyer != m.seller
  }

  lemma {:induction false} LegsAreNonNegative(side: Side, ms: seq<MatchResult>, u: nat, mint: string)
    requires forall m :: m in ms ==> Fair(m)
    ensures 0 <= Legs(side, ms, u, mint)
  {
    if ms != [] {
      assert Fair(ms[0]) by { assert ms[0] in ms; }
      assert 0 <= ms[0].price * ms[0].amount;
      LegsAreNonNegative(side, ms[1..], u, mint);
    }
  }

  /** A covered trade succeeds, in both legs, and moves exactly its two amounts. */
  lemma TradeMoves(l: Ledger, m: MatchResult, u: nat, mint: string)
    requires Fair(m)
    requires m.price * m.amount <= At(l, m.buyer, m.pair.quote).locked
    requires m.amount <= At(l, m.seller, m.pair.base).locked
    ensures var (l', ok) := ExecuteTrade(l, m);
            && ok
            && At(l', u, mint).locked == At(l, u, mint).locked - Leg(Buy, m, u, mint) - Leg(Sell, m, u, mint)
            && At(l', u, mint).available == At(l, u, mint).available + Gain(m, u, mint)
  {}

  lemma {:induction false} ExecuteAllMoves(l: Ledger, ms: seq<MatchResult>, u: nat, mint: string)
    requires Covers(l, ms) && forall m :: m in ms ==> Fair(m)
    ensures var (l', done) := ExecuteAll(l, ms);
            && done == ms
            && At(l', u, mint).locked == At(l, u, mint).locked - Demand(ms, u, mint)
            && At(l', u, mint).available == At(l, u, mint).available + Gains(ms, u, mint)
    decreases |ms|
  {
    if ms != [] {
      var m := ms[0];
      assert Fair(m) by { assert m in ms; }
      CoversFirst(l, ms);
      TradeMoves(l, m, u, mint);
      ExecuteAllMoves(ExecuteTrade(l, m).0, ms[1..], u, mint);
    }
  }

  /** If a list of matches is covered, its first trade is, and afterwards the others are. */
  lemma CoversFirst(l: Ledger, ms: seq<MatchResult>)
    requires ms != [] && Covers(l, ms) && forall m :: m in ms ==> Fair(m)
    ensures ms[0].price * ms[0].amount <= At(l, ms[0].buyer, ms[0].pair.quote).locked
    ensures ms[0].amount <= At(l, ms[0].seller, ms[0].pair.base).locked
    ensures Covers(ExecuteTrade(l, ms[0]).0, ms[1..])
  {
    var m := ms[0];
    assert Fair(m) by { assert m in ms; }
    assert 0 <= m.price * m.amount;
    FirstLegs(ms, m.buyer, m.pair.quote);
    FirstLegs(ms, m.seller, m.pair.base);
    assert Demand(ms, m.buyer, m.pair.quote) <= At(l, m.buyer, m.pair.quote).locked;
    assert Demand(ms, m.seller, m.pair.base) <= At(l, m.seller, m.pair.base).locked;
    forall u, mint ensures Demand(ms[1..], u, mint) <= At(ExecuteTrade(l, m).0, u, mint).locked {
      FirstLegs(ms, u, mint);
      TradeMoves(l, m, u, mint);
      assert Demand(ms, u, mint) <= At(l, u, mint).locked;
    }
  }

  lemma FirstLegs(ms: seq<MatchResult>, u: nat, mint: string)
    requires ms != [] && forall m :: m in ms ==> Fair(m)
    ensures Demand(ms, u, mint) == Leg(Buy, ms[0], u, mint) + Leg(Sell, ms[0], u, mint) + Demand(ms[1..], u, mint)
    ensures 0 <= Leg(Buy, ms[0], u, mint) && 0 <= Leg(Sell, ms[0], u, mint) && 0 <= Demand(ms[1..], u, mint)
  {
    assert Fair(ms[0]) by { assert ms[0] in ms; }
    assert 0 <= ms[0].price * ms[0].amount;
    LegsAreNonNegative(Buy, ms[1..], u, mint);
    LegsAreNonNegative(Sell, ms[1..], u, mint);
  }
}
