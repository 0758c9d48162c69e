/** The summary of balance changes a market order computes. */
module BalanceChanges {
  import opened Types
  import opened Obligations
  import opened MatchingSpec
  import opened SweepProperties
  import opened Ledgers
  import opened EngineSpec
  import opened Solvency
  import opened MapSums

  /** (user, mint) -> (change of available, change of locked) */
  type Changes = map<(nat, string), (int, int)>

  function ChangeAt(c: Changes, u: nat, mint: string): (int, int) {
    if (u, mint) in c then c[(u, mint)] else (0, 0)
  }

  /** `entry(..).or_insert((0, 0))`, then add to both components. */
  function Bump(c: Changes, u: nat, mint: string, available: int, locked: int): Changes {
    c[(u, mint) := (ChangeAt(c, u, mint).0 + available, ChangeAt(c, u, mint).1 + locked)]
  }

  /** All changes within one mint, added up over users and over available and locked. */
  ghost function NetChange(c: Changes, mint: string): int {
    SumIn(Nets(c), mint)
  }

  ghost function Nets(c: Changes): map<(nat, string), int> {
    map k | k in c :: c[k].0 + c[k].1
  }

  lemma BumpNet(c: Changes, u: nat, m: string, available: int, locked: int, mint: string)
    ensures NetChange(Bump(c, u, m, available, locked), mint) ==
            NetChange(c, mint) + if m == mint then available + locked else 0
  {
    var was := ChangeAt(c, u, m);
    var net := was.0 + available + was.1 + locked;
    SumInUpdate(Nets(c), (u, m), net, mint);
    assert Nets(Bump(c, u, m, available, locked)) == Nets(c)[(u, m) := net];
  }

  /** The four entries of one match. */
  function BumpMatch(c: Changes, m: MatchResult): Changes {
    var total := m.price * m.amount;
    var c1 := Bump(c, m.buyer, m.pair.quote, 0, -total);
    var c2 := Bump(c1, m.seller, m.pair.quote, total, 0);
    var c3 := Bump(c2, m.seller, m.pair.base, 0, -m.amount);
    Bump(c3, m.buyer, m.pair.base, m.amount, 0)
  }

  lemma BumpAt(c: Changes, v: nat, m: string, available: int, locked: int, u: nat, mint: string)
    ensures var hit := v == u && m == mint;
            ChangeAt(Bump(c, v, m, available, locked), u, mint) ==
            (ChangeAt(c, u, mint).0 + (if hit then available else 0),
             ChangeAt(c, u, mint).1 + (if hit then locked else 0))
  {}

  lemma MatchChange(c: Changes, m: MatchResult, u: nat, mint: string)
    ensures ChangeAt(BumpMatch(c, m), u, mint) ==
            (ChangeAt(c, u, mint).0 + Gain(m, u, mint),
             ChangeAt(c, u, mint).1 - Leg(Buy, m, u, mint) - Leg(Sell, m, u, mint))
    ensures NetChange(BumpMatch(c, m), mint) == NetChange(c, mint)
  {
    hide Bump, NetChange, ChangeAt;
    var total := m.price * m.amount;
    var c1 := Bump(c, m.buyer, m.pair.quote, 0, -total);
    var c2 := Bump(c1, m.seller, m.pair.quote, total, 0);
    var c3 := Bump(c2, m.seller, m.pair.base, 0, -m.amount);
    BumpAt(c, m.buyer, m.pair.quote, 0, -total, u, mint);
    BumpAt(c1, m.seller, m.pair.quote, total, 0, u, mint);
    BumpAt(c2, m.seller, m.pair.base, 0, -m.amount, u, mint);
    BumpAt(c3, m.buyer, m.pair.base, m.amount, 0, u, mint);
    BumpNet(c, m.buyer, m.pair.quote, 0, -total, mint);
    BumpNet(c1, m.seller, m.pair.quote, total, 0, mint);
    BumpNet(c2, m.seller, m.pair.base, 0, -m.amount, mint);
    BumpNet(c3, m.buyer, m.pair.base, m.amount, 0, mint);
  }

  lemma {:induction false} GainSums(ms: seq<MatchResult>, ms': seq<MatchResult>, u: nat, mint: string)
    ensures Gains(ms + ms', u, mint) == Gains(ms, u, mint) + Gains(ms', u, mint)
  {
    if ms == [] {
      assert ms + ms' == ms';
    } else {
      assert (ms + ms')[1..] == ms[1..] + ms';
      GainSums(ms[1..], ms', u, mint);
    }
  }

  /** `c` is, key by key, what executing `ms` does, and within each mint it adds up to nothing. */
  ghost predicate Summarizes(c: Changes, ms: seq<MatchResult>) {
    && (forall u, mint :: ChangeAt(c, u, mint) == (Gains(ms, u, mint), -Demand(ms, u, mint)))
    && forall mint :: NetChange(c, mint) == 0
  }

  lemma NothingYet()
    ensures Summarizes(map[], [])
  {
    var none: Changes := map[];
    assert Nets(none) == map[];
    forall mint ensures NetChange(none, mint) == 0 {
      var empty: map<(nat, string), int> := map[];
      assert (map k | k in empty && k.1 == mint :: empty[k]) == map[];
    }
  }

  lemma OneMore(c: Changes, ms: seq<MatchResult>, m: MatchResult)
    requires Summarizes(c, ms)
    ensures Summarizes(BumpMatch(c, m), ms + [m])
  {
    hide BumpMatch, NetChange, ChangeAt;
    forall mint ensures NetChange(BumpMatch(c, m), mint) == 0 {
      MatchChange(c, m, 0, mint);
    }
    forall u, mint
      ensures ChangeAt(BumpMatch(c, m), u, mint) == (Gains(ms + [m], u, mint), -Demand(ms + [m], u, mint))
    {
      MatchChange(c, m, u, mint);
      MatchSums(ms, [m], u, mint);
      GainSums(ms, [m], u, mint);
      assert Gains([m], u, mint) == Gain(m, u, mint);
      assert Legs(Buy, [m], u, mint) == Leg(Buy, m, u, mint) && Legs(Sell, [m], u, mint) == Leg(Sell, m, u, mint);
    }
  }

  /** `c` says, key by key, what executing `ms` and releasing `amount` of `mint` to `user` do. */
  ghost predicate Summary(c: Changes, ms: seq<MatchResult>, user: nat, mint: string, amount: int) {
    forall u, m ::
      var released := if u == user && m == mint && amount > 0 then amount else 0;
      ChangeAt(c, u, m) == (Gains(ms, u, m) + released, -Demand(ms, u, m) - released)
  }

  /** The map of a market order: the matches, and the release of `unlockAmount` to `user`. */
  method Aggregate(matches: seq<MatchResult>, user: nat, unlockMint: string, unlockAmount: int)
    returns (changes: Changes)
    ensures Summary(changes, matches, user, unlockMint, unlockAmount)
    ensures forall mint :: NetChange(changes, mint) == 0
  {
    hide NetChange, Gains, Demand;
    changes := map[];
    NothingYet();
    var i := 0;
    while i < |matches|
      invariant 0 <= i <= |matches|
      invariant Summarizes(changes, matches[..i])
    {
      hide Summarizes, ChangeAt;
      var m := matches[i];
      ghost var before := changes;
      var total := m.price * m.amount;
      changes := Bump(changes, m.buyer, m.pair.quote, 0, -total);
      changes := Bump(changes, m.seller, m.pair.quote, total, 0);
      changes := Bump(changes, m.seller, m.pair.base, 0, -m.amount);
      changes := Bump(changes, m.buyer, m.pair.base, m.amount, 0);
      assert changes == BumpMatch(before, m);
      OneMore(before, matches[..i], m);
      assert matches[..i + 1] == matches[..i] + [m];
      i := i + 1;
    }
    assert matches[..i] == matches;
    if unlockAmount > 0 {
      ghost var before := changes;
      changes := Bump(changes, user, unlockMint, unlockAmount, -unlockAmount);
      forall mint ensures NetChange(changes, mint) == 0 {
        BumpNet(before, user, unlockMint, unlockAmount, -unlockAmount, mint);
      }
    }
  }

  /** For a market order those are the real differences of the balance cache between the lock and the
      release of the leftover lock. */
  lemma ChangesAreReal(s: State, o: Order, u: nat, mint: string)
    requires Inv(s) && ValidOrder(o) && o.style == Market && Process(s, o).Accepted?
    ensures var a := Process(s, o);
            var released := if u == o.user && mint == PayMint(o) && a.refund > 0 then a.refund else 0;
            && At(a.final, u, mint).available - At(a.locked, u, mint).available == Gains(a.done, u, mint) + released
            && At(a.final, u, mint).locked - At(a.locked, u, mint).locked == -Demand(a.done, u, mint) - released
  {
    hide MatchSpec, ExecuteAll, Inv;
    TradesAreCovered(s, o);
    RefundIsCovered(s, o);
    ExecuteAllMoves(Process(s, o).locked, Process(s, o).outcome.matches, u, mint);
  }

  /** `c` is, key by key, the difference between two balance caches. */
  ghost predicate IsDifference(c: Changes, l: Ledger, l': Ledger) {
    forall u, mint ::
      ChangeAt(c, u, mint) ==
      (At(l', u, mint).available - At(l, u, mint).available, At(l', u, mint).locked - At(l, u, mint).locked)
  }

  lemma SummaryIsReal(s: State, o: Order, c: Changes)
    requires Inv(s) && ValidOrder(o) && o.style == Market && Process(s, o).Accepted?
    requires Summary(c, Process(s, o).done, o.user, PayMint(o), Process(s, o).refund)
    ensures IsDifference(c, Process(s, o).locked, Process(s, o).final)
  {
    hide Process, Inv, Gains, Demand, ChangeAt;
    var a := Process(s, o);
    forall u, mint
      ensures ChangeAt(c, u, mint) ==
              (At(a.final, u, mint).available - At(a.locked, u, mint).available,
               At(a.final, u, mint).locked - At(a.locked, u, mint).locked)
    {
      ChangesAreReal(s, o, u, mint);
    }
  }
}
