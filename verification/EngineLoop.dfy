/** The engine thread: two channels, balance updates first.

    The environment is a script: what arrives, what is closed and whether the engine should still
    run, at each point where the loop looks.  `Turns` says what the loop makes of a script, turn by
    turn; `EngineThreadLoop` is the loop. */
module EngineLoop {
  import opened Types
  import opened EngineSpec
  import opened Solvency
  import opened Effects
  import opened Engine

  /** A channel seen from its receiver. */
  datatype Chan = Chan(queue: seq<Command>, open: bool)

  const NEW_CHAN := Chan([], true)

  datatype Arrivals = Arrivals(cs: seq<Command>, close: bool)

  /** Senders act: a closed channel takes nothing more. */
  function Deliver(c: Chan, a: Arrivals): Chan {
    if c.open then Chan(c.queue + a.cs, !a.close) else c
  }

  /** One turn of the loop: the flag it reads, what arrives before the balance poll, before it looks for
      an order, and while it waits for one, and the flag it reads again after receiving an order. */
  datatype Tick = Tick(running: bool, balances: Arrivals, orders: Arrivals, late: Arrivals, stillRunning: bool)

  ghost predicate GoodTick(t: Tick) {
    OnlyBalances(t.balances.cs) && ValidOrders(t.orders.cs) && ValidOrders(t.late.cs)
  }

  ghost predicate ValidOrders(q: seq<Command>) {
    forall c :: c in q ==> !c.UpdateBalance? && (c.SubmitOrder? ==> ValidOrder(c.order))
  }

  ghost predicate OnlyBalances(q: seq<Command>) {
    forall c :: c in q ==> c.UpdateBalance?
  }

  ghost predicate GoodScript(script: seq<Tick>) {
    forall t :: t in script ==> GoodTick(t)
  }

  // ---------------------------------------------------------------------------------------
  // The loop, turn by turn
  // ---------------------------------------------------------------------------------------

  /** A handled command, and the turn in which it was handled. */
  datatype Entry = Entry(c: Command, turn: nat)

  datatype Loop = Loop(state: State, balances: Chan, orders: Chan, balanceClosed: bool, orderClosed: bool,
                       stopped: bool, turns: nat, log: seq<Entry>, dropped: seq<Command>)

  function Start(s: State): Loop {
    Loop(s, NEW_CHAN, NEW_CHAN, false, false, false, 0, [], [])
  }

  /** The two tests at the head of the loop. */
  predicate Ends(l: Loop, t: Tick) {
    l.stopped || !t.running || (l.balanceClosed && l.orderClosed)
  }

  /** A turn begins: everything that arrives during it. */
  function Receive(l: Loop, t: Tick): Loop {
    l.(balances := Deliver(l.balances, t.balances), orders := Deliver(Deliver(l.orders, t.orders), t.late),
       turns := l.turns + 1)
  }

  function HandleBalance(l: Loop): Loop
    requires l.balances.queue != [] && 0 < l.turns
  {
    var c := l.balances.queue[0];
    l.(balances := l.balances.(queue := l.balances.queue[1..]),
       state := Step(l.state, c), log := l.log + [Entry(c, l.turns - 1)])
  }

  /** An order is received; if the engine has meanwhile been told to stop it is dropped. */
  function TakeOrder(l: Loop, stillRunning: bool): Loop
    requires l.orders.queue != [] && 0 < l.turns
  {
    var c := l.orders.queue[0];
    var l' := l.(orders := l.orders.(queue := l.orders.queue[1..]));
    if stillRunning then l'.(state := Step(l.state, c), log := l.log + [Entry(c, l.turns - 1)])
    else l'.(dropped := l.dropped + [c], stopped := true)
  }

  /** The order half of a turn; `first` is the order channel before the wait. */
  function PollOrders(l: Loop, first: Chan, t: Tick): Loop
    requires 0 < l.turns && l.orders == Deliver(first, t.late)
  {
    if l.orderClosed then l
    else if first.queue != [] then TakeOrder(l, t.stillRunning)
    else if !first.open then l.(orderClosed := true)
    else if !l.balanceClosed then l
    else if l.orders.queue != [] then TakeOrder(l, t.stillRunning)
    else if !l.orders.open then l.(orderClosed := true, stopped := true)
    else l
  }

  function Turn(l: Loop, t: Tick): Loop {
    if Ends(l, t) then l.(stopped := true)
    else
      var r := Receive(l, t);
      if !l.balanceClosed && r.balances.queue != [] then HandleBalance(r)
      else PollOrders(r.(balanceClosed := l.balanceClosed || !r.balances.open), Deliver(l.orders, t.orders), t)
  }

  function Turns(l: Loop, script: seq<Tick>): Loop
    decreases |script|
  {
    if script == [] then l else Turn(Turns(l, script[..|script| - 1]), script[|script| - 1])
  }

  // ---------------------------------------------------------------------------------------
  // What a log says
  // ---------------------------------------------------------------------------------------

  function Commands(log: seq<Entry>): seq<Command> {
    if log == [] then []
    else
      var n := |log| - 1;
      Commands(log[..n]) + [log[n].c]
  }

  function BalancesIn(log: seq<Entry>): seq<Command> {
    if log == [] then []
    else
      var n := |log| - 1;
      BalancesIn(log[..n]) + if log[n].c.UpdateBalance? then [log[n].c] else []
  }

  function OrdersIn(log: seq<Entry>): seq<Command> {
    if log == [] then []
    else
      var n := |log| - 1;
      OrdersIn(log[..n]) + if log[n].c.UpdateBalance? then [] else [log[n].c]
  }

  lemma {:induction false} LogAppend(log: seq<Entry>, e: Entry)
    ensures Commands(log + [e]) == Commands(log) + [e.c]
    ensures BalancesIn(log + [e]) == BalancesIn(log) + if e.c.UpdateBalance? then [e.c] else []
    ensures OrdersIn(log + [e]) == OrdersIn(log) + if e.c.UpdateBalance? then [] else [e.c]
  {
    assert (log + [e])[..|log|] == log;
  }

  lemma {:induction false} RunAppend(s: State, cs: seq<Command>, c: Command)
    ensures Run(s, cs + [c]) == Step(Run(s, cs), c)
    decreases |cs|
  {
    if cs != [] {
      assert (cs + [c])[1..] == cs[1..] + [c];
      RunAppend(Step(s, cs[0]), cs[1..], c);
    } else {
      assert cs + [c] == [c] && [c][1..] == [];
    }
  }

  // ---------------------------------------------------------------------------------------
  // What every run of the loop keeps
  // ---------------------------------------------------------------------------------------

  /** Everything that has arrived: the channel if nothing were ever received from it. */
  function BalancesArrived(script: seq<Tick>): Chan {
    if script == [] then NEW_CHAN
    else
      var n := |script| - 1;
      Deliver(BalancesArrived(script[..n]), script[n].balances)
  }

  function OrdersArrived(script: seq<Tick>): Chan {
    if script == [] then NEW_CHAN
    else
      var n := |script| - 1;
      Deliver(Deliver(OrdersArrived(script[..n]), script[n].orders), script[n].late)
  }

  /** The state is the fold of the handlers over the handled commands. */
  ghost predicate Folds(s: State, l: Loop) {
    l.state == Run(s, Commands(l.log)) && ValidCommands(Commands(l.log))
  }

  /** Both streams in order: handled, then dropped, then still in the channel, and nothing else. */
  ghost predicate Accounts(script: seq<Tick>, l: Loop) {
    var bs, os := BalancesArrived(script), OrdersArrived(script);
    && bs == Chan(BalancesIn(l.log) + l.balances.queue, l.balances.open)
    && os == Chan(OrdersIn(l.log) + l.dropped + l.orders.queue, l.orders.open)
    && OnlyBalances(l.balances.queue) && ValidOrders(l.orders.queue)
    && (l.balanceClosed ==> l.balances == Chan([], false))
    && (l.orderClosed ==> l.orders == Chan([], false))
  }

  /** Entry `i` was handled in a turn that found the engine running, an order in one that found it still
      running on receipt; and if it is an order, the balance updates before it are those that had arrived
      by its turn. */
  ghost predicate CaughtUp(script: seq<Tick>, log: seq<Entry>, i: nat)
    requires i < |log|
  {
    && log[i].turn < |script| && script[log[i].turn].running
    && (!log[i].c.UpdateBalance? ==> script[log[i].turn].stillRunning)
    && (!log[i].c.UpdateBalance? ==> BalancesIn(log[..i]) == BalancesArrived(script[..log[i].turn + 1]).queue)
  }

  /** At most one command a turn. */
  ghost predicate OneATurn(log: seq<Entry>) {
    forall i, j :: 0 <= i < j < |log| ==> log[i].turn < log[j].turn
  }

  /** Balance updates first: when an order was handled, the balance updates handled before it were all those
      that had arrived by that turn. */
  ghost predicate BalancesFirst(script: seq<Tick>, log: seq<Entry>) {
    OneATurn(log) && forall i :: 0 <= i < |log| ==> CaughtUp(script, log, i)
  }

  /** Only a command received when the engine had just been told to stop is dropped. */
  ghost predicate Drops(script: seq<Tick>, l: Loop) {
    l.dropped == [] ||
    (|l.dropped| == 1 && l.stopped && script != [] && !script[|script| - 1].stillRunning)
  }

  /** The loop ends only because it was told to, or because both channels are closed and empty. */
  ghost predicate EndsForAReason(script: seq<Tick>, l: Loop) {
    l.stopped && l.dropped == [] ==>
      || (l.turns < |script| && !script[l.turns].running)
      || (l.balances == Chan([], false) && l.orders == Chan([], false))
  }

  ghost predicate LoopInv(s: State, script: seq<Tick>, l: Loop) {
    && l.turns <= |script| && (!l.stopped ==> l.turns == |script|)
    && Folds(s, l)
    && Accounts(script[..l.turns], l)
    && BalancesFirst(script[..l.turns], l.log)
    && Drops(script[..l.turns], l)
    && EndsForAReason(script, l)
  }

  /** In the middle of turn `|script| - 1`. */
  ghost predicate MidTurn(s: State, script: seq<Tick>, l: Loop) {
    && script != [] && l.turns == |script| && !l.stopped && l.dropped == [] && script[|script| - 1].running
    && Folds(s, l) && Accounts(script, l) && BalancesFirst(script, l.log)
    && forall i :: 0 <= i < |l.log| ==> l.log[i].turn < l.turns - 1
  }

  /** An entry stays caught up when the script and the log grow behind it. */
  lemma {:induction false} CaughtUpLonger(script: seq<Tick>, log: seq<Entry>, i: nat,
                                          script': seq<Tick>, log': seq<Entry>)
    requires i < |log| <= |log'| && log'[..|log|] == log && CaughtUp(script, log, i)
    requires |script| <= |script'| && script'[..|script|] == script
    ensures CaughtUp(script', log', i) && log'[i].turn < |script|
  {
    hide BalancesIn, BalancesArrived;
    assert log'[i] == log'[..|log|][i] && log'[..i] == log'[..|log|][..i];
    var n := log[i].turn + 1;
    assert script'[n - 1] == script'[..|script|][n - 1];
    assert script'[..n] == script'[..|script|][..n];
  }

  lemma {:induction false} ReceiveKeeps(s: State, script: seq<Tick>, l: Loop, t: Tick)
    requires LoopInv(s, script, l) && !Ends(l, t) && GoodTick(t)
    ensures MidTurn(s, script + [t], Receive(l, t))
  {
    hide Folds, Commands, CaughtUp;
    var script' := script + [t];
    var r := Receive(l, t);
    assert script[..l.turns] == script && script'[..|script|] == script;
    forall i | 0 <= i < |l.log| ensures CaughtUp(script', l.log, i) && l.log[i].turn < |script| {
      CaughtUpLonger(script, l.log, i, script', l.log);
    }
    FoldsSame(s, l, r);
    ArrivalsKeep(script, l, t);
  }

  lemma {:induction false} OneMoreTick(script: seq<Tick>, t: Tick)
    ensures BalancesArrived(script + [t]) == Deliver(BalancesArrived(script), t.balances)
    ensures OrdersArrived(script + [t]) == Deliver(Deliver(OrdersArrived(script), t.orders), t.late)
  {
    var script' := script + [t];
    assert script'[..|script|] == script && script'[|script|] == t;
    hide Deliver;
  }

  /** A delivery adds to what is handled and still queued as it adds to what has arrived. */
  lemma {:induction false} DeliverBehind(handled: seq<Command>, c: Chan, a: Arrivals)
    ensures Deliver(Chan(handled + c.queue, c.open), a) == Chan(handled + Deliver(c, a).queue, Deliver(c, a).open)
  {
    assert handled + (c.queue + a.cs) == handled + c.queue + a.cs;
  }

  lemma {:induction false} ArrivalsKeep(script: seq<Tick>, l: Loop, t: Tick)
    requires Accounts(script, l) && GoodTick(t) && l.dropped == []
    ensures Accounts(script + [t], Receive(l, t))
  {
    hide BalancesIn, OrdersIn, BalancesArrived, OrdersArrived;
    OneMoreTick(script, t);
    DeliverBehind(BalancesIn(l.log), l.balances, t.balances);
    DeliverBehind(OrdersIn(l.log) + [], l.orders, t.orders);
    DeliverBehind(OrdersIn(l.log) + [], Deliver(l.orders, t.orders), t.late);
  }

  lemma {:induction false} FoldsSame(s: State, l: Loop, l': Loop)
    requires Folds(s, l) && l'.state == l.state && l'.log == l.log
    ensures Folds(s, l')
  {}

  lemma {:induction false} FoldsOneMore(s: State, l: Loop, l': Loop, c: Command, turn: nat)
    requires Folds(s, l) && l'.state == Step(l.state, c) && l'.log == l.log + [Entry(c, turn)]
    requires c.SubmitOrder? ==> ValidOrder(c.order)
    ensures Folds(s, l')
  {
    hide Step, Run;
    LogAppend(l.log, Entry(c, turn));
    RunAppend(s, Commands(l.log), c);
  }

  lemma {:induction false} LaterTurn(log: seq<Entry>, e: Entry)
    requires OneATurn(log) && forall i :: 0 <= i < |log| ==> log[i].turn < e.turn
    ensures OneATurn(log + [e])
  {}

  lemma {:induction false} NewestIsCaughtUp(script: seq<Tick>, log: seq<Entry>, c: Command)
    requires script != [] && script[|script| - 1].running
    requires !c.UpdateBalance? ==>
               script[|script| - 1].stillRunning && BalancesIn(log) == BalancesArrived(script).queue
    ensures CaughtUp(script, log + [Entry(c, |script| - 1)], |log|)
  {
    hide BalancesIn, BalancesArrived;
    var log' := log + [Entry(c, |script| - 1)];
    assert log'[..|log|] == log && log'[|log|] == Entry(c, |script| - 1);
    assert script[..log'[|log|].turn + 1] == script;
  }

  lemma {:induction false} FirstOneMore(script: seq<Tick>, log: seq<Entry>, c: Command)
    requires script != [] && BalancesFirst(script, log) && script[|script| - 1].running
    requires forall i :: 0 <= i < |log| ==> log[i].turn < |script| - 1
    requires !c.UpdateBalance? ==>
               script[|script| - 1].stillRunning && BalancesIn(log) == BalancesArrived(script).queue
    ensures BalancesFirst(script, log + [Entry(c, |script| - 1)])
  {
    hide BalancesIn, BalancesArrived, CaughtUp, OneATurn;
    var log' := log + [Entry(c, |script| - 1)];
    assert log'[..|log|] == log && script[..|script|] == script;
    LaterTurn(log, Entry(c, |script| - 1));
    NewestIsCaughtUp(script, log, c);
    forall i | 0 <= i < |log'| ensures CaughtUp(script, log', i) {
      if i < |log| {
        CaughtUpLonger(script, log, i, script, log');
      }
    }
  }

  lemma {:induction false} BalanceKeeps(s: State, script: seq<Tick>, l: Loop)
    requires MidTurn(s, script, l) && l.balances.queue != []
    ensures LoopInv(s, script, HandleBalance(l))
  {
    hide Folds, BalancesFirst, BalancesIn, OrdersIn, BalancesArrived, OrdersArrived, Commands, Step, GoodTick;
    var c := l.balances.queue[0];
    assert c in l.balances.queue;
    LogAppend(l.log, Entry(c, l.turns - 1));
    FoldsOneMore(s, l, HandleBalance(l), c, l.turns - 1);
    FirstOneMore(script, l.log, c);
    assert script[..|script|] == script;
    assert BalancesIn(l.log) + l.balances.queue == BalancesIn(l.log) + [c] + l.balances.queue[1..];
  }

  lemma {:induction false} OrderKeeps(s: State, script: seq<Tick>, l: Loop, stillRunning: bool)
    requires MidTurn(s, script, l) && l.balances.queue == [] && l.orders.queue != []
    requires !l.orderClosed && stillRunning == script[|script| - 1].stillRunning
    ensures LoopInv(s, script, TakeOrder(l, stillRunning))
  {
    hide Folds, BalancesFirst, BalancesIn, OrdersIn, BalancesArrived, OrdersArrived, Commands, Step, GoodTick;
    var c := l.orders.queue[0];
    assert c in l.orders.queue;
    LogAppend(l.log, Entry(c, l.turns - 1));
    assert script[..|script|] == script;
    assert OrdersIn(l.log) + [] + l.orders.queue == OrdersIn(l.log) + [c] + l.orders.queue[1..];
    var l' := TakeOrder(l, stillRunning);
    if stillRunning {
      FoldsOneMore(s, l, l', c, l.turns - 1);
      assert BalancesIn(l.log) + [] == BalancesIn(l.log);
      FirstOneMore(script, l.log, c);
      assert OrdersIn(l.log) + [c] + [] == OrdersIn(l.log) + [c];
    } else {
      FoldsSame(s, l, l');
    }
  }

  /** A turn without a command changes only what the loop knows of the channels. */
  lemma {:induction false} IdleKeeps(s: State, script: seq<Tick>, l: Loop, l': Loop)
    requires MidTurn(s, script, l)
    requires l' == l.(balanceClosed := l'.balanceClosed, orderClosed := l'.orderClosed, stopped := l'.stopped)
    requires l'.balanceClosed ==> l.balances == Chan([], false)
    requires l'.orderClosed ==> l.orders == Chan([], false)
    requires l'.stopped ==> l'.balanceClosed && l'.orderClosed
    ensures LoopInv(s, script, l')
    ensures !l'.stopped ==> MidTurn(s, script, l')
  {
    hide BalancesFirst, BalancesIn, OrdersIn, BalancesArrived, OrdersArrived, Commands;
    assert script[..|script|] == script;
  }

  lemma {:induction false} EndKeeps(s: State, script: seq<Tick>, l: Loop, t: Tick)
    requires LoopInv(s, script, l) && Ends(l, t)
    ensures LoopInv(s, script + [t], l.(stopped := true))
  {
    hide Folds, BalancesFirst, BalancesIn, OrdersIn, BalancesArrived, OrdersArrived;
    assert (script + [t])[..l.turns] == script[..l.turns];
    FoldsSame(s, l, l.(stopped := true));
  }

  lemma {:induction false} PollKeeps(s: State, script: seq<Tick>, l: Loop, first: Chan, t: Tick)
    requires script != [] && t == script[|script| - 1] && MidTurn(s, script, l) && l.balances.queue == []
    requires l.orders == Deliver(first, t.late)
    ensures LoopInv(s, script, PollOrders(l, first, t))
  {
    assert l.balanceClosed ==> l.balances == Chan([], false);
    assert l.orderClosed ==> l.orders == Chan([], false);
    hide LoopInv, MidTurn, TakeOrder;
    if !l.orderClosed && (first.queue != [] || (first.open && l.balanceClosed && l.orders.queue != [])) {
      OrderKeeps(s, script, l, t.stillRunning);
    } else {
      IdleKeeps(s, script, l, PollOrders(l, first, t));
    }
  }

  lemma {:induction false} TurnKeeps(s: State, script: seq<Tick>, l: Loop, t: Tick)
    requires LoopInv(s, script, l) && GoodTick(t)
    ensures LoopInv(s, script + [t], Turn(l, t))
  {
    var script' := script + [t];
    if Ends(l, t) {
      EndKeeps(s, script, l, t);
    } else {
      ReceiveKeeps(s, script, l, t);
      var r := Receive(l, t);
      assert l.balanceClosed ==> r.balances == Chan([], false);
      hide LoopInv, MidTurn, PollOrders;
      if r.balances.queue != [] {
        BalanceKeeps(s, script', r);
      } else {
        var r' := r.(balanceClosed := l.balanceClosed || !r.balances.open);
        IdleKeeps(s, script', r, r');
        PollKeeps(s, script', r', Deliver(l.orders, t.orders), t);
      }
    }
  }

  /** The main invariant of the loop, for every script. */
  lemma {:induction false} EveryRun(s: State, script: seq<Tick>)
    requires GoodScript(script)
    ensures LoopInv(s, script, Turns(Start(s), script))
    decreases |script|
  {
    if script == [] {
      assert Commands([]) == [] && BalancesIn([]) == [] && OrdersIn([]) == [];
    } else {
      hide LoopInv, Turn, Start;
      var n := |script| - 1;
      assert script[..n] + [script[n]] == script && script[n] in script;
      EveryRun(s, script[..n]);
      TurnKeeps(s, script[..n], Turns(Start(s), script[..n]), script[n]);
    }
  }

  /** The engine stays solvent whatever arrives. */
  lemma {:induction false} EveryRunIsSolvent(s: State, script: seq<Tick>)
    requires GoodScript(script) && Inv(s)
    ensures Inv(Turns(Start(s), script).state)
  {
    hide Turns, Inv;
    EveryRun(s, script);
    RunLedger(s, Commands(Turns(Start(s), script).log), 0, "");
  }

  /** Every handled command takes its effect, one after the other. */
  lemma {:induction false} EveryRunActs(s: State, script: seq<Tick>)
    requires GoodScript(script) && Inv(s)
    ensures var l := Turns(Start(s), script);
            ActedOut(s, Commands(l.log), l.state)
  {
    hide Turns, Inv, ActedOut;
    EveryRun(s, script);
    RunActs(s, Commands(Turns(Start(s), script).log));
  }

  // ---------------------------------------------------------------------------------------
  // Stopping
  // ---------------------------------------------------------------------------------------

  /** From the first turn that finds the flag cleared, or both channels known to be closed, nothing is
      received, handled or dropped any more. */
  lemma {:induction false} StopsForGood(s: State, script: seq<Tick>, k: nat)
    requires k < |script|
    requires var l := Turns(Start(s), script[..k]);
             l.stopped || !script[k].running || (l.balanceClosed && l.orderClosed)
    ensures Turns(Start(s), script) == Turns(Start(s), script[..k]).(stopped := true)
  {
    assert script[..k + 1][..k] == script[..k];
    StoppedStays(Start(s), script, k + 1);
  }

  /** Once both channels are closed and empty, two more turns end the loop, and they handle nothing. */
  lemma {:induction false} ClosedChannelsEnd(s: State, script: seq<Tick>, t1: Tick, t2: Tick)
    requires var l := Turns(Start(s), script); l.balances == Chan([], false) && l.orders == Chan([], false)
    ensures var l, l' := Turns(Start(s), script), Turns(Start(s), script + [t1, t2]);
            l'.stopped && l'.state == l.state && l'.log == l.log && l'.dropped == l.dropped
  {
    var all := script + [t1, t2];
    assert all[..|all| - 1] == script + [t1] && (script + [t1])[..|script|] == script;
    hide Step;
  }

  lemma {:induction false} StoppedStays(l: Loop, script: seq<Tick>, k: nat)
    requires k <= |script| && Turns(l, script[..k]).stopped
    ensures Turns(l, script) == Turns(l, script[..k])
    decreases |script| - k
  {
    if k == |script| {
      assert script[..k] == script;
    } else {
      assert script[..k + 1][..k] == script[..k];
      StoppedStays(l, script, k + 1);
    }
  }

  // ---------------------------------------------------------------------------------------
  // Progress
  // ---------------------------------------------------------------------------------------

  /** A turn that runs handles the first balance update if there is one.  Otherwise it receives the first
      order it finds, also one that comes while it waits if no balance update can come any more, and handles
      it, or drops it and ends if the engine has been told to stop.  Otherwise it does nothing. */
  lemma {:induction false} RunningTurnActs(s: State, script: seq<Tick>, t: Tick)
    requires GoodScript(script) && GoodTick(t)
    requires var l := Turns(Start(s), script);
             !l.stopped && t.running && !(l.balanceClosed && l.orderClosed)
    ensures var l, l' := Turns(Start(s), script), Turns(Start(s), script + [t]);
            var updates := l.balances.queue + if l.balances.open then t.balances.cs else [];
            var noMoreUpdates := !l.balances.open || t.balances.close;
            var first := l.orders.queue + if l.orders.open then t.orders.cs else [];
            var orders := first + if l.orders.open && !t.orders.close then t.late.cs else [];
            if updates != [] then
              && l'.log == l.log + [Entry(updates[0], |script|)] && l'.dropped == [] && !l'.stopped
              && l'.balances.queue == updates[1..] && l'.orders.queue == orders
            else if first != [] || (noMoreUpdates && orders != []) then
              && l'.balances.queue == [] && l'.orders.queue == orders[1..]
              && if t.stillRunning
                 then l'.log == l.log + [Entry(orders[0], |script|)] && l'.dropped == [] && !l'.stopped
                 else l'.log == l.log && l'.state == l.state && l'.dropped == [orders[0]] && l'.stopped
            else
              && l'.log == l.log && l'.state == l.state && l'.dropped == []
              && l'.balances.queue == [] && l'.orders.queue == orders
  {
    EveryRun(s, script);
    TurnsUnfold(Start(s), script, t);
    WhereItStands(s, script, Turns(Start(s), script));
    hide Turns, Turn, LoopInv;
    TurnActs(Turns(Start(s), script), t);
  }

  lemma {:induction false} WhereItStands(s: State, script: seq<Tick>, l: Loop)
    requires LoopInv(s, script, l) && !l.stopped
    ensures l.turns == |script| && l.dropped == []
    ensures (l.balanceClosed ==> l.balances == Chan([], false)) && (l.orderClosed ==> l.orders == Chan([], false))
  {}

  lemma {:induction false} TurnActs(l: Loop, t: Tick)
    requires !l.stopped && t.running && !(l.balanceClosed && l.orderClosed) && l.dropped == []
    requires (l.balanceClosed ==> l.balances == Chan([], false)) && (l.orderClosed ==> l.orders == Chan([], false))
    ensures var l' := Turn(l, t);
            var updates := l.balances.queue + if l.balances.open then t.balances.cs else [];
            var noMoreUpdates := !l.balances.open || t.balances.close;
            var first := l.orders.queue + if l.orders.open then t.orders.cs else [];
            var orders := first + if l.orders.open && !t.orders.close then t.late.cs else [];
            if updates != [] then
              && l'.log == l.log + [Entry(updates[0], l.turns)] && l'.dropped == [] && !l'.stopped
              && l'.balances.queue == updates[1..] && l'.orders.queue == orders
            else if first != [] || (noMoreUpdates && orders != []) then
              && l'.balances.queue == [] && l'.orders.queue == orders[1..]
              && if t.stillRunning
                 then l'.log == l.log + [Entry(orders[0], l.turns)] && l'.dropped == [] && !l'.stopped
                 else l'.log == l.log && l'.state == l.state && l'.dropped == [orders[0]] && l'.stopped
            else
              && l'.log == l.log && l'.state == l.state && l'.dropped == []
              && l'.balances.queue == [] && l'.orders.queue == orders
  {
    hide Step;
    Queues(l.balances, t.balances);
    Queues(l.orders, t.orders);
    Queues(Deliver(l.orders, t.orders), t.late);
  }

  lemma {:induction false} Queues(c: Chan, a: Arrivals)
    ensures Deliver(c, a).queue == c.queue + if c.open then a.cs else []
    ensures Deliver(c, a).open == (c.open && !a.close)
  {}

  lemma {:induction false} TurnsUnfold(l: Loop, script: seq<Tick>, t: Tick)
    ensures Turns(l, script + [t]) == Turn(Turns(l, script), t)
  {
    assert (script + [t])[..|script|] == script;
  }

  /** The engine runs, and nothing new arrives. */
  predicate Calm(t: Tick) {
    t.running && t.stillRunning && t.balances.cs == [] && t.orders.cs == [] && t.late.cs == []
  }

  function Backlog(l: Loop): nat {
    |l.balances.queue| + |l.orders.queue|
  }

  lemma {:induction false} CalmTurn(s: State, script: seq<Tick>, l: Loop, t: Tick)
    requires LoopInv(s, script, l) && Calm(t) && l.dropped == [] && (l.stopped ==> Backlog(l) == 0)
    ensures var l' := Turn(l, t);
            && l'.dropped == [] && (l'.stopped ==> Backlog(l') == 0)
            && Backlog(l') == (if Backlog(l) == 0 then 0 else Backlog(l) - 1)
            && l.turns <= l'.turns
  {
    hide Folds, BalancesFirst, EndsForAReason, Drops, Step;
    hide BalancesIn, OrdersIn, BalancesArrived, OrdersArrived, OnlyBalances, ValidOrders;
    if !Ends(l, t) {
      var r := Receive(l, t);
      assert r.balances.queue == l.balances.queue && r.orders.queue == l.orders.queue;
      assert Deliver(l.orders, t.orders).queue == l.orders.queue;
    }
  }

  lemma {:induction false} CalmTurns(s: State, script: seq<Tick>, calm: seq<Tick>)
    requires GoodScript(script) && forall t :: t in calm ==> Calm(t)
    requires !Turns(Start(s), script).stopped
    ensures var l, l' := Turns(Start(s), script), Turns(Start(s), script + calm);
            && l'.dropped == [] && (l'.stopped ==> Backlog(l') == 0)
            && Backlog(l') == (if Backlog(l) <= |calm| then 0 else Backlog(l) - |calm|)
            && |script| <= l'.turns
    ensures GoodScript(script + calm)
    decreases |calm|
  {
    hide Turn, Turns, Backlog, LoopInv, GoodScript;
    if calm == [] {
      assert script + calm == script;
      EveryRun(s, script);
      NotStoppedNotDropped(s, script, Turns(Start(s), script));
    } else {
      var n := |calm| - 1;
      var before := script + calm[..n];
      assert calm[n] in calm && forall t :: t in calm[..n] ==> t in calm;
      assert script + calm == before + [calm[n]];
      CalmTurns(s, script, calm[..n]);
      EveryRun(s, before);
      CalmTurn(s, before, Turns(Start(s), before), calm[n]);
      TurnsUnfold(Start(s), before, calm[n]);
      GoodScriptGrows(before, calm[n]);
    }
  }

  lemma {:induction false} GoodScriptGrows(script: seq<Tick>, t: Tick)
    requires GoodScript(script) && Calm(t)
    ensures GoodScript(script + [t])
  {}

  lemma {:induction false} CalmBringsNothing(script: seq<Tick>, calm: seq<Tick>)
    requires forall t :: t in calm ==> Calm(t)
    ensures BalancesArrived(script + calm).queue == BalancesArrived(script).queue
    ensures OrdersArrived(script + calm).queue == OrdersArrived(script).queue
    decreases |calm|
  {
    if calm == [] {
      assert script + calm == script;
    } else {
      var n := |calm| - 1;
      var all := script + calm;
      assert calm[n] in calm && forall t :: t in calm[..n] ==> t in calm;
      assert all[..|all| - 1] == script + calm[..n] && all[|all| - 1] == calm[n];
      CalmBringsNothing(script, calm[..n]);
    }
  }

  lemma {:induction false} NotStoppedNotDropped(s: State, script: seq<Tick>, l: Loop)
    requires LoopInv(s, script, l) && !l.stopped
    ensures l.dropped == [] && l.turns == |script|
  {}

  /** Nothing waits for ever: once the arrivals pause for as many turns as commands are waiting, every
      command that ever arrived has been handled, each stream in order. */
  lemma {:induction false} EverythingIsHandled(s: State, script: seq<Tick>, calm: seq<Tick>)
    requires GoodScript(script) && forall t :: t in calm ==> Calm(t)
    requires !Turns(Start(s), script).stopped && Backlog(Turns(Start(s), script)) <= |calm|
    ensures var log := Turns(Start(s), script + calm).log;
            && BalancesIn(log) == BalancesArrived(script).queue
            && OrdersIn(log) == OrdersArrived(script).queue
  {
    hide Turns, Folds, BalancesFirst, BalancesIn, OrdersIn, BalancesArrived, OrdersArrived;
    var all := script + calm;
    CalmTurns(s, script, calm);
    EveryRun(s, all);
    var l := Turns(Start(s), all);
    var ran := calm[..l.turns - |script|];
    assert all[..l.turns] == script + ran;
    assert forall t :: t in ran ==> t in calm;
    CalmBringsNothing(script, ran);
    assert l.balances.queue == [] && l.orders.queue == [];
    assert BalancesIn(l.log) + [] == BalancesIn(l.log) && OrdersIn(l.log) + [] + [] == OrdersIn(l.log);
  }

  // ---------------------------------------------------------------------------------------
  // The loop itself
  // ---------------------------------------------------------------------------------------

  class Channel {
    var queue: seq<Command>
    var open: bool

    function View(): Chan
      reads this
    {
      Chan(queue, open)
    }

    constructor ()
      ensures queue == [] && open
    {
      queue, open := [], true;
    }

    method Arrive(a: Arrivals)
      modifies this
      ensures View() == Deliver(old(View()), a)
    {
      if open {
        queue := queue + a.cs;
        open := !a.close;
      }
    }

    method Receive() returns (c: Command)
      requires queue != []
      modifies this`queue
      ensures c == old(queue)[0] && queue == old(queue)[1..]
    {
      c := queue[0];
      queue := queue[1..];
    }
  }

  /** Receive an order; drop it if the engine has been told to stop, otherwise handle it. */
  method HandleOrder(engine: Engine, orders: Channel, stillRunning: bool, ghost l: Loop) returns (stop: bool)
    requires engine.Valid() && l.state == engine.View() && l.orders == orders.View() && 0 < l.turns
    requires orders.queue != [] && ValidOrders(orders.queue)
    modifies engine`orderbooks, engine.orderbooks.Values, engine.executor, engine.executor.balanceCache, orders
    ensures engine.Valid() && fresh(engine.orderbooks.Values - old(engine.orderbooks.Values))
    ensures var l' := TakeOrder(l, stillRunning);
            engine.View() == l'.state && orders.View() == l'.orders && stop == !stillRunning
  {
    hide Step, Inv, Acts;
    assert orders.queue[0] in orders.queue;
    var c := orders.Receive();
    if !stillRunning {
      return true;
    }
    engine.Handle(c);
    return false;
  }

  /** The order half of a turn: wait for an order; after a timeout look again if the balance channel is
      closed. */
  method WaitForOrder(engine: Engine, orders: Channel, tick: Tick, balanceClosed: bool, ghost l: Loop)
    returns (orderClosed: bool, stop: bool)
    requires engine.Valid() && l.state == engine.View() && !l.orderClosed && 0 < l.turns && !l.stopped
    requires l.orders == Deliver(Deliver(orders.View(), tick.orders), tick.late) && l.balanceClosed == balanceClosed
    requires ValidOrders(l.orders.queue)
    modifies engine`orderbooks, engine.orderbooks.Values, engine.executor, engine.executor.balanceCache, orders
    ensures engine.Valid() && fresh(engine.orderbooks.Values - old(engine.orderbooks.Values))
    ensures var l' := PollOrders(l, Deliver(old(orders.View()), tick.orders), tick);
            && engine.View() == l'.state && orders.View() == l'.orders
            && orderClosed == l'.orderClosed && stop == l'.stopped
  {
    hide Step, Inv, Acts;
    orderClosed, stop := false, false;
    orders.Arrive(tick.orders);
    if orders.queue == [] && !orders.open {
      return true, false;
    }
    var found := orders.queue != [];
    orders.Arrive(tick.late);
    if found {
      stop := HandleOrder(engine, orders, tick.stillRunning, l);
    } else if balanceClosed {
      if orders.queue != [] {
        stop := HandleOrder(engine, orders, tick.stillRunning, l);
      } else if !orders.open {
        orderClosed, stop := true, true;
      }
    }
  }

  lemma {:induction false} NoTurns(l: Loop)
    ensures Turns(l, []) == l
  {}

  lemma {:induction false} OneTurn(s: State, script: seq<Tick>, turn: nat, l: Loop)
    requires GoodScript(script) && turn < |script| && l == Turns(Start(s), script[..turn])
    ensures Turns(Start(s), script[..turn + 1]) == Turn(l, script[turn])
    ensures var r := Receive(l, script[turn]);
            !Ends(l, script[turn]) ==> OnlyBalances(r.balances.queue) && ValidOrders(r.orders.queue)
  {
    hide Start, Turn, Folds, BalancesFirst, BalancesIn, OrdersIn, BalancesArrived, OrdersArrived;
    assert script[..turn + 1][..turn] == script[..turn];
    assert script[turn] in script && forall t :: t in script[..turn] ==> t in script;
    EveryRun(s, script[..turn]);
    if !Ends(l, script[turn]) {
      ReceiveKeeps(s, script[..turn], l, script[turn]);
    }
  }

  method BothArrive(orders: Channel, tick: Tick)
    modifies orders
    ensures orders.View() == Deliver(Deliver(old(orders.View()), tick.orders), tick.late)
  {
    orders.Arrive(tick.orders);
    orders.Arrive(tick.late);
  }

  /** The balance poll of a turn; `l` is the turn after everything of it has arrived. */
  method PollBalances(engine: Engine, balances: Channel, tick: Tick, wasClosed: bool, ghost l: Loop)
    returns (handled: bool, balanceClosed: bool)
    requires engine.Valid() && engine.View() == l.state && 0 < l.turns
    requires Deliver(balances.View(), tick.balances) == l.balances && OnlyBalances(l.balances.queue)
    requires wasClosed == l.balanceClosed
    modifies engine`orderbooks, engine.orderbooks.Values, engine.executor, engine.executor.balanceCache, balances
    ensures engine.Valid() && fresh(engine.orderbooks.Values - old(engine.orderbooks.Values))
    ensures handled == (!wasClosed && l.balances.queue != [])
    ensures handled ==> engine.View() == HandleBalance(l).state && balances.View() == HandleBalance(l).balances
                        && !balanceClosed
    ensures !handled ==> engine.View() == l.state && balances.View() == l.balances
                         && balanceClosed == (wasClosed || !l.balances.open)
  {
    hide Step, Inv, Acts;
    balances.Arrive(tick.balances);
    handled, balanceClosed := false, wasClosed;
    if !balanceClosed {
      if balances.queue != [] {
        assert balances.queue[0] in balances.queue;
        var c := balances.Receive();
        engine.Handle(c);
        handled := true;
      } else {
        balanceClosed := !balances.open;
      }
    }
  }

  lemma {:induction false} TurnParts(l: Loop, t: Tick)
    requires !Ends(l, t)
    ensures var r := Receive(l, t);
            && 0 < r.turns && !r.stopped && r.balanceClosed == l.balanceClosed && r.orderClosed == l.orderClosed
            && r.state == l.state && r.balances == Deliver(l.balances, t.balances)
            && r.orders == Deliver(Deliver(l.orders, t.orders), t.late)
            && if !l.balanceClosed && r.balances.queue != []
               then
                 var l' := HandleBalance(r);
                 && Turn(l, t) == l' && l'.orders == r.orders
                 && !l'.balanceClosed && l'.orderClosed == l.orderClosed && !l'.stopped
               else
                 var r' := r.(balanceClosed := l.balanceClosed || !r.balances.open);
                 var l' := PollOrders(r', Deliver(l.orders, t.orders), t);
                 && Turn(l, t) == l' && l'.balances == r.balances && l'.balanceClosed == r'.balanceClosed
                 && (l.orderClosed ==> l' == r')
  {
    hide Step;
  }

  /** The rest of a turn, once the two tests at its head are passed. */
  method RunTurn(engine: Engine, balances: Channel, orders: Channel, tick: Tick,
                 wasClosed: bool, noOrders: bool, ghost l: Loop)
    returns (balanceClosed: bool, orderClosed: bool, stop: bool)
    requires engine.Valid() && balances != orders && !Ends(l, tick)
    requires engine.View() == l.state && balances.View() == l.balances && orders.View() == l.orders
    requires wasClosed == l.balanceClosed && noOrders == l.orderClosed
    requires OnlyBalances(Receive(l, tick).balances.queue) && ValidOrders(Receive(l, tick).orders.queue)
    modifies engine`orderbooks, engine.orderbooks.Values, engine.executor, engine.executor.balanceCache
    modifies balances, orders
    ensures engine.Valid() && fresh(engine.orderbooks.Values - old(engine.orderbooks.Values))
    ensures var l' := Turn(l, tick);
            && engine.View() == l'.state && balances.View() == l'.balances && orders.View() == l'.orders
            && balanceClosed == l'.balanceClosed && orderClosed == l'.orderClosed && stop == l'.stopped
  {
    TurnParts(l, tick);
    hide Step, OnlyBalances, ValidOrders, Deliver, PollOrders, HandleBalance, Turn, Receive, Ends;
    ghost var r := Receive(l, tick);
    orderClosed, stop := noOrders, false;
    var handled;
    handled, balanceClosed := PollBalances(engine, balances, tick, wasClosed, r);
    if handled || orderClosed {
      BothArrive(orders, tick);
    } else {
      orderClosed, stop := WaitForOrder(engine, orders, tick, balanceClosed, r.(balanceClosed := balanceClosed));
    }
  }

  /** `engine_thread_loop`: the engine, the channels and everything handled are those of the turns. */
  method EngineThreadLoop(engine: Engine, balances: Channel, orders: Channel, script: seq<Tick>)
    returns (ghost l: Loop)
    requires engine.Valid() && GoodScript(script)
    requires balances != orders && balances.View() == NEW_CHAN == orders.View()
    modifies engine`orderbooks, engine.orderbooks.Values, engine.executor, engine.executor.balanceCache
    modifies balances, orders
    ensures engine.Valid()
    ensures l == Turns(Start(old(engine.View())), script) && LoopInv(old(engine.View()), script, l)
    ensures engine.View() == l.state && balances.View() == l.balances && orders.View() == l.orders
    ensures Inv(old(engine.View())) ==>
              Inv(engine.View()) && ActedOut(old(engine.View()), Commands(l.log), engine.View())
  {
    hide Inv, Step, Turns, Turn, LoopInv, ActedOut;
    ghost var s := engine.View();
    l := Start(s);
    var balanceClosed, orderClosed, stop := false, false, false;
    var turn := 0;
    NoTurns(l);
    assert script[..0] == [];
    while turn < |script| && !stop
      invariant 0 <= turn <= |script|
      invariant engine.Valid()
      invariant fresh(engine.orderbooks.Values - old(engine.orderbooks.Values))
      invariant l == Turns(Start(s), script[..turn])
      invariant engine.View() == l.state && balances.View() == l.balances && orders.View() == l.orders
      invariant balanceClosed == l.balanceClosed && orderClosed == l.orderClosed && stop == l.stopped
      decreases |script| - turn
    {
      var tick := script[turn];
      OneTurn(s, script, turn, l);
      turn := turn + 1;
      if !tick.running || (balanceClosed && orderClosed) {
        EndOfLoop(l, tick);
        l := Turn(l, tick);
        break;
      }
      balanceClosed, orderClosed, stop := RunTurn(engine, balances, orders, tick, balanceClosed, orderClosed, l);
      l := Turn(l, tick);
    }
    if l.stopped {
      StoppedStays(Start(s), script, turn);
    } else {
      assert script[..turn] == script;
    }
    EveryRun(s, script);
    if Inv(s) {
      EveryRunIsSolvent(s, script);
      EveryRunActs(s, script);
    }
  }

  lemma {:induction false} EndOfLoop(l: Loop, t: Tick)
    requires Ends(l, t)
    ensures Turn(l, t) == l.(stopped := true)
  {}
}
