/** Assets are neither created nor destroyed, whatever fails. */
module Conservation {
  import opened Types
  import opened Obligations
  import opened Ledgers
  import opened EngineSpec
  import opened MapSums

  /** Available plus locked in one mint, over all users. */
  ghost function Total(l: Ledger, mint: string): int {
    SumIn(Holdings(l), mint)
  }

  ghost function Holdings(l: Ledger): map<(nat, string), int> {
    map k | k in l :: l[k].available + l[k].locked
  }

  lemma PutTotal(l: Ledger, u: nat, m: string, b: Balance, mint: string)
    ensures Total(l[(u, m) := b], mint) ==
            Total(l, mint)
            + if m == mint then b.available + b.locked - At(l, u, m).available - At(l, u, m).locked else 0
  {
    SumInUpdate(Holdings(l), (u, m), b.available + b.locked, mint);
    assert Holdings(l[(u, m) := b]) == Holdings(l)[(u, m) := b.available + b.locked];
  }

  lemma LockConserves(l: Ledger, u: nat, m: string, amount: int, mint: string)
    ensures Total(Lock(l, u, m, amount).0, mint) == Total(l, mint)
    ensures Total(Unlock(l, u, m, amount).0, mint) == Total(l, mint)
  {
    hide Total;
    var b := At(l, u, m);
    PutTotal(l, u, m, b, mint);
    PutTotal(l, u, m, Balance(b.available - amount, b.locked + amount), mint);
    PutTotal(l, u, m, Balance(b.available + amount, b.locked - amount), mint);
  }

  lemma TransferConserves(l: Ledger, from: nat, to: nat, m: string, amount: int, fromLocked: bool, mint: string)
    ensures Total(Transfer(l, from, to, m, amount, fromLocked).0, mint) == Total(l, mint)
  {
    hide Total;
    var b := At(l, from, m);
    var b' := if fromLocked then b.(locked := b.locked - amount) else b.(available := b.available - amount);
    var l' := l[(from, m) := b'];
    PutTotal(l, from, m, b, mint);
    PutTotal(l, from, m, b', mint);
    PutTotal(l', to, m, At(l', to, m).(available := At(l', to, m).available + amount), mint);
  }

  lemma {:induction false} TradesConserve(l: Ledger, ms: seq<MatchResult>, mint: string)
    ensures Total(ExecuteAll(l, ms).0, mint) == Total(l, mint)
    decreases |ms|
  {
    if ms != [] {
      var m := ms[0];
      TransferConserves(l, m.buyer, m.seller, m.pair.quote, m.price * m.amount, true, mint);
      var l1 := Transfer(l, m.buyer, m.seller, m.pair.quote, m.price * m.amount, true).0;
      TransferConserves(l1, m.seller, m.buyer, m.pair.base, m.amount, true, mint);
      TradesConserve(ExecuteTrade(l, m).0, ms[1..], mint);
    }
  }

  /** In every state, solvent or not, and for every order, valid or not: submitting conserves each
      mint, even if a trade stops between its legs or a release is refused. */
  lemma SubmitConserves(s: State, o: Order, mint: string)
    ensures Total(Submit(s, o).0.ledger, mint) == Total(s.ledger, mint)
  {
    var a := Process(s, o);
    LockConserves(s.ledger, o.user, PayMint(o), LockAmount(o), mint);
    if a.Accepted? {
      TradesConserve(a.locked, a.outcome.matches, mint);
      LockConserves(a.traded, o.user, PayMint(o), a.refund, mint);
    }
  }

  lemma CancelConserves(s: State, id: nat, user: nat, pair: Pair, mint: string)
    ensures Total(Cancel(s, id, user, pair).0.ledger, mint) == Total(s.ledger, mint)
  {
    if pair in s.books && SideOf(s.books[pair], id).Some? {
      var levels := s.books[pair].On(SideOf(s.books[pair], id).value);
      var i := LevelOf(SideOf(s.books[pair], id).value, levels, id).value;
      var order := levels[i].queue[PositionOf(levels[i].queue, id).value];
      LockConserves(s.ledger, user, PayMint(order), UnitCost(order) * order.remaining, mint);
    }
  }

  /** What a command brings into or takes out of a mint. */
  function Inflow(s: State, c: Command, mint: string): int {
    if c.UpdateBalance? && c.mint == mint then
      var available := At(s.ledger, c.user, mint).available;
      if c.delta > -available then c.delta else -available
    else 0
  }

  function InflowOf(s: State, cs: seq<Command>, mint: string): int
    decreases |cs|
  {
    if cs == [] then 0 else Inflow(s, cs[0], mint) + InflowOf(Step(s, cs[0]), cs[1..], mint)
  }

  lemma StepConserves(s: State, c: Command, mint: string)
    ensures Total(Step(s, c).ledger, mint) == Total(s.ledger, mint) + Inflow(s, c, mint)
  {
    match c
    case SubmitOrder(o) => SubmitConserves(s, o, mint);
    case CancelOrder(id, user, pair) => CancelConserves(s, id, user, pair, mint);
    case UpdateBalance(user, m, delta) =>
      var b := At(s.ledger, user, m);
      PutTotal(s.ledger, user, m, b.(available := if b.available + delta < 0 then 0 else b.available + delta), mint);
  }

  /** Over any run the holdings of a mint change by the deposits and withdrawals alone. */
  lemma {:induction false} RunConserves(s: State, cs: seq<Command>, mint: string)
    ensures Total(Run(s, cs).ledger, mint) == Total(s.ledger, mint) + InflowOf(s, cs, mint)
    decreases |cs|
  {
    hide Step, Total, Inflow;
    if cs != [] {
      StepConserves(s, cs[0], mint);
      RunConserves(Step(s, cs[0]), cs[1..], mint);
    }
  }
}
