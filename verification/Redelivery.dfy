/** Commands left behind by a flush are delivered again: when that does harm, and when it does not. */
module Redelivery {
  import opened Types
  import opened DbCommands
  import D = DbCommands
  import opened MatchingSpec
  import opened BatchSpec
  import opened BatchExact
  import opened DbWriter
  import opened EngineSpec
  import opened Obligations

  // ---------------------------------------------------------------------------------------
  // What stays behind
  // ---------------------------------------------------------------------------------------

  lemma {:induction false} DroppedAreBalances(cs: seq<DbCommand>)
    ensures OfKind(cs, 4) == [] <==> forall c :: c in cs ==> !c.UpdateBalance?
    ensures Kept(cs) == [] <==> forall c :: c in cs ==> c.UpdateBalance?
  {
    if cs != [] {
      DroppedAreBalances(cs[1..]);
      assert cs[0] in cs && forall c :: c in cs <==> c == cs[0] || c in cs[1..];
    }
  }

  /** A successful flush empties the batch exactly when it held no balance update. */
  lemma BatchIsEmptied(batch: seq<DbCommand>)
    ensures Leftover(batch) == [] <==> forall c :: c in batch ==> !c.UpdateBalance?
  {
    DroppedAreBalances(batch);
  }

  /** Nothing that was written is delivered again exactly when all balance updates are at the end. */
  lemma NothingIsRedelivered(batch: seq<DbCommand>)
    ensures Kept(Leftover(batch)) == [] <==>
            forall i :: 0 <= i < |batch| && i >= |Kept(batch)| ==> batch[i].UpdateBalance?
  {
    KeptAndDropped(batch);
    hide Kept, OfKind;
    var n := |Kept(batch)|;
    var left := batch[n..];
    DroppedAreBalances(left);
    if forall c :: c in left ==> c.UpdateBalance? {
      forall i | 0 <= i < |batch| && i >= n ensures batch[i].UpdateBalance? {
        assert left[i - n] in left;
      }
    } else {
      var c :| c in left && !c.UpdateBalance?;
      var j :| 0 <= j < |left| && left[j] == c;
      assert batch[n + j] == c;
    }
  }

  /** The engine sends a balance update with every accepted order, so flushing the commands of one
      order always leaves exactly one command behind. */
  lemma EverySubmissionLeavesOne(s: State, o: Order)
    requires Process(s, o).Accepted?
    ensures |Leftover(Emitted(s, o))| == 1
  {
    var a := Process(s, o);
    hide Process, OfKind, Kept, Trades, StatusUpdates;
    var later := if o.style == Market then [] else Trades(a.done) + StatusUpdates(a.outcome);
    var lock := D.UpdateBalance(o.user, PayMint(o), Some(-LockAmount(o)), Some(LockAmount(o)));
    assert Emitted(s, o) == [lock] + later;
    NoBalancesIn(a.done, a.outcome);
    KindsDistribute([lock], later, 4);
    DroppedAreBalances(later);
    OneBalance(lock);
  }

  lemma NoBalancesIn(done: seq<MatchResult>, out: Outcome)
    ensures forall c :: c in Trades(done) + StatusUpdates(out) ==> !c.UpdateBalance?
  {}

  lemma OneBalance(c: DbCommand)
    requires c.UpdateBalance?
    ensures OfKind([c], 4) == [c]
  {}

  // ---------------------------------------------------------------------------------------
  // When it does no harm
  // ---------------------------------------------------------------------------------------

  /** Every update concerns a row that is there, or is inserted by the same batch. */
  ghost predicate Known(db: Orders, cs: seq<DbCommand>) {
    forall c :: c in cs && c.UpdateOrderStatus? ==> c.orderId in db || Inserts(cs, c.orderId)
  }

  ghost predicate RowsExist(db: Orders, cs: seq<DbCommand>) {
    forall c :: c in cs && (c.UpdateOrderStatus? || c.InsertOrder?) ==> c.orderId in db
  }

  ghost predicate InsertsExist(db: Orders, cs: seq<DbCommand>) {
    forall c :: c in cs && c.InsertOrder? ==> c.orderId in db
  }

  /** `cs` has been applied, and applying its updates again changes nothing. */
  ghost predicate Settled(db: Orders, cs: seq<DbCommand>) {
    RowsExist(db, cs) && ApplyAll(db, OfKind(cs, 2)) == db
  }

  lemma {:induction false} InsertsAdd(db: Orders, ins: seq<DbCommand>)
    requires forall c :: c in ins ==> c.InsertOrder?
    ensures forall id :: id in ApplyAll(db, ins) <==> id in db || Inserts(ins, id)
    decreases |ins|
  {
    if ins != [] {
      var c := ins[0];
      assert c in ins;
      InsertsAdd(Apply(db, c), ins[1..]);
      assert forall id :: Inserts(ins, id) <==> c.orderId == id || Inserts(ins[1..], id) by {
        forall id ensures Inserts(ins, id) <==> c.orderId == id || Inserts(ins[1..], id) {
          if Inserts(ins, id) && c.orderId != id {
            var d :| d in ins && d.InsertOrder? && d.orderId == id;
            assert d in ins[1..];
          } else if Inserts(ins[1..], id) {
            var d :| d in ins[1..] && d.InsertOrder? && d.orderId == id;
            assert d in ins;
          }
        }
      }
    }
  }

  lemma {:induction false} InsertsOfPresentRows(db: Orders, ins: seq<DbCommand>)
    requires forall c :: c in ins ==> c.InsertOrder? && c.orderId in db
    ensures ApplyAll(db, ins) == db
  {
    if ins != [] {
      assert ins[0] in ins;
      InsertsOfPresentRows(db, ins[1..]);
    }
  }

  lemma RowsAfterFlush(db: Orders, batch: seq<DbCommand>, k: nat)
    requires Known(db, batch) && k <= |batch|
    ensures RowsExist(ApplyAll(db, Processed(batch)), batch[k..])
  {
    var ins, us := OfKind(batch, 1), OfKind(batch, 2);
    ProcessedApplies(db, batch);
    InsertsAreInserts(batch);
    InsertsAdd(db, ins);
    UpdatesOverwrite(ApplyAll(db, ins), us, 0);
    hide ApplyAll, Processed, OfKind;
    forall c | c in batch[k..] && (c.UpdateOrderStatus? || c.InsertOrder?)
      ensures c.orderId in ApplyAll(ApplyAll(db, ins), us)
    {
      assert c in batch;
      if c.InsertOrder? {
        assert c in ins && Inserts(ins, c.orderId);
      } else if c.orderId !in db {
        var i :| i in batch && i.InsertOrder? && i.orderId == c.orderId;
        assert i in ins && Inserts(ins, c.orderId);
      }
    }
  }

  /** A flush settles its batch, and so every part of it that stays behind. */
  lemma FlushSettles(db: Orders, batch: seq<DbCommand>, k: nat)
    requires Known(db, batch) && k <= |batch|
    ensures Settled(ApplyAll(db, Processed(batch)), batch[k..])
  {
    RowsAfterFlush(db, batch, k);
    hide ApplyAll, Processed, OfKind, RowsExist, Known;
    var ins, us := OfKind(batch, 1), OfKind(batch, 2);
    var a, v := OfKind(batch[..k], 2), OfKind(batch[k..], 2);
    var d := ApplyAll(db, ins);
    ProcessedApplies(db, batch);
    InsertsAreInserts(batch[k..]);
    assert batch == batch[..k] + batch[k..];
    KindsDistribute(batch[..k], batch[k..], 2);
    ApplyDistributes(d, a, v);
    UpdatesAreIdempotent(ApplyAll(d, a), v);
  }

  /** Delivering `stale` again leaves no trace in row `id`: each of its two parts is set again by `arrived`,
      or not set by `stale`, or still has the value `stale` sets. */
  predicate HarmlessAt(db: Orders, stale: seq<DbCommand>, arrived: seq<DbCommand>, id: nat)
    requires id in db
  {
    && (LastStatus(arrived, id).Some? || LastStatus(stale, id).None?
        || LastStatus(stale, id) == Some((db[id].status, db[id].filled)))
    && (LastQuote(arrived, id).Some? || LastQuote(stale, id).None?
        || LastQuote(stale, id) == Some(db[id].filledQuote))
  }

  /** The table in which the updates of the next flush find their rows. */
  function Created(db: Orders, arrived: seq<DbCommand>): Orders {
    ApplyAll(db, OfKind(arrived, 1))
  }

  ghost predicate Harmless(db: Orders, stale: seq<DbCommand>, arrived: seq<DbCommand>) {
    forall id :: id in Created(db, arrived) ==> HarmlessAt(Created(db, arrived), stale, arrived, id)
  }

  /** A row in the results of both flushes. */
  lemma RowRedelivered(db: Orders, stale: seq<DbCommand>, arrived: seq<DbCommand>, id: nat)
    requires InsertsExist(db, stale)
    ensures var once, again := ApplyAll(db, Processed(arrived)), ApplyAll(db, Processed(stale + arrived));
            var created := Created(db, arrived);
            && (id in once <==> id in created) && (id in again <==> id in created)
            && (id in created ==> (once[id] == again[id] <==> HarmlessAt(created, stale, arrived, id)))
  {
    var ins, ins' := OfKind(stale, 1), OfKind(arrived, 1);
    InsertsAreInserts(stale);
    InsertsOfPresentRows(db, ins);
    KindsDistribute(stale, arrived, 1);
    ApplyDistributes(db, ins, ins');
    RowAfterSorting(db, stale + arrived, id);
    RowAfterSorting(db, arrived, id);
    LastOfTwo(stale, arrived, id);
    hide OfKind, Processed, LastStatus, LastQuote, ApplyAll;
  }

  lemma {:induction false} NothingSet(cs: seq<DbCommand>, id: nat)
    requires forall c :: c in cs && c.UpdateOrderStatus? ==> c.orderId != id
    ensures LastStatus(cs, id) == None && LastQuote(cs, id) == None
  {
    if cs != [] {
      assert cs[0] in cs;
      NothingSet(cs[1..], id);
    }
  }

  /** Commands left over from earlier flushes change nothing about the next flush if and only if they are
      harmless in every row. */
  lemma StaleIsHarmlessIff(db: Orders, stale: seq<DbCommand>, arrived: seq<DbCommand>)
    requires InsertsExist(db, stale)
    ensures ApplyAll(db, Processed(stale + arrived)) == ApplyAll(db, Processed(arrived)) <==>
            Harmless(db, stale, arrived)
  {
    hide ApplyAll, Processed, HarmlessAt, InsertsExist, Created;
    var once, again := ApplyAll(db, Processed(arrived)), ApplyAll(db, Processed(stale + arrived));
    var created := Created(db, arrived);
    forall id
      ensures (id in once <==> id in created) && (id in again <==> id in created)
      ensures id in created ==> (once[id] == again[id] <==> HarmlessAt(created, stale, arrived, id))
    {
      RowRedelivered(db, stale, arrived, id);
    }
    if Harmless(db, stale, arrived) {
      forall id | id in once ensures once[id] == again[id] {}
    }
  }

  /** What a flush has just settled is harmless, whatever arrives. */
  lemma SettledIsHarmless(db: Orders, stale: seq<DbCommand>, arrived: seq<DbCommand>)
    requires Settled(db, stale)
    ensures Harmless(db, stale, arrived)
  {
    var ins := OfKind(arrived, 1);
    InsertsAreInserts(stale);
    InsertsAreInserts(arrived);
    forall id | id in Created(db, arrived) ensures HarmlessAt(Created(db, arrived), stale, arrived, id) {
      if id in db {
        UpdatesOverwrite(db, OfKind(stale, 2), id);
        LastOfUpdates(stale, id);
        PresentRow(db, ins, id);
        NoUpdates(ins, id);
      } else {
        NothingSet(stale, id);
      }
    }
  }

  lemma StaleIsHarmless(db: Orders, stale: seq<DbCommand>, arrived: seq<DbCommand>)
    requires Settled(db, stale)
    ensures ApplyAll(db, Processed(stale + arrived)) == ApplyAll(db, Processed(arrived))
  {
    SettledIsHarmless(db, stale, arrived);
    StaleIsHarmlessIff(db, stale, arrived);
  }

  // ---------------------------------------------------------------------------------------
  // Rounds of the writer, and the other writers of the table
  // ---------------------------------------------------------------------------------------

  /** The orders table has other writers: rows are created outside the engine, and the order service
      sets the status of an order it has cancelled. */
  datatype ServiceWrite = CreateRow(id: nat, row: Row) | SetStatus(id: nat, status: string)

  function Write(db: Orders, w: ServiceWrite): Orders {
    match w
    case CreateRow(id, row) => if id in db then db else db[id := row]
    case SetStatus(id, status) => if id in db then db[id := db[id].(status := status)] else db
  }

  function WriteAll(db: Orders, ws: seq<ServiceWrite>): Orders
    decreases |ws|
  {
    if ws == [] then db else WriteAll(Write(db, ws[0]), ws[1..])
  }

  lemma {:induction false} WritesKeepRows(db: Orders, ws: seq<ServiceWrite>)
    ensures db.Keys <= WriteAll(db, ws).Keys
    ensures (forall w :: w in ws ==> w.CreateRow?) ==> forall id :: id in db ==> WriteAll(db, ws)[id] == db[id]
    decreases |ws|
  {
    if ws != [] {
      assert ws[0] in ws;
      WritesKeepRows(Write(db, ws[0]), ws[1..]);
    }
  }

  /** What happens up to a successful flush: the other writers act, and commands arrive. */
  datatype Arrivals = Arrivals(writes: seq<ServiceWrite>, cs: seq<DbCommand>)

  function Round(db: Orders, batch: seq<DbCommand>, r: Arrivals): (Orders, seq<DbCommand>) {
    (ApplyAll(WriteAll(db, r.writes), Processed(batch + r.cs)), Leftover(batch + r.cs))
  }

  function Rounds(db: Orders, batch: seq<DbCommand>, rs: seq<Arrivals>): (Orders, seq<DbCommand>)
    decreases |rs|
  {
    if rs == [] then (db, batch)
    else
      var (db', batch') := Round(db, batch, rs[0]);
      Rounds(db', batch', rs[1..])
  }

  /** The reference: every command delivered once, in arrival order. */
  function OnceRound(db: Orders, r: Arrivals): Orders {
    ApplyAll(WriteAll(db, r.writes), r.cs)
  }

  function Once(db: Orders, rs: seq<Arrivals>): Orders
    decreases |rs|
  {
    if rs == [] then db else Once(OnceRound(db, rs[0]), rs[1..])
  }

  /** In every round inserts come before their updates. */
  ghost predicate Orderly(db: Orders, rs: seq<Arrivals>)
    decreases |rs|
  {
    rs == [] || (InsertsFirst(WriteAll(db, rs[0].writes), rs[0].cs) && Orderly(OnceRound(db, rs[0]), rs[1..]))
  }

  /** In every round updates concern known rows. */
  ghost predicate AllKnown(db: Orders, rs: seq<Arrivals>)
    decreases |rs|
  {
    rs == [] || (Known(WriteAll(db, rs[0].writes), rs[0].cs) && AllKnown(OnceRound(db, rs[0]), rs[1..]))
  }

  /** After every round the writer's table is the reference's. */
  ghost predicate OnceThroughout(db: Orders, batch: seq<DbCommand>, rs: seq<Arrivals>)
    decreases |rs|
  {
    rs == [] ||
    (&& Round(db, batch, rs[0]).0 == OnceRound(db, rs[0])
     && OnceThroughout(OnceRound(db, rs[0]), Leftover(batch + rs[0].cs), rs[1..]))
  }

  /** In every round what was left behind is harmless to the reference's table. */
  ghost predicate HarmlessThroughout(db: Orders, batch: seq<DbCommand>, rs: seq<Arrivals>)
    decreases |rs|
  {
    rs == [] ||
    (&& Harmless(WriteAll(db, rs[0].writes), batch, rs[0].cs)
     && HarmlessThroughout(OnceRound(db, rs[0]), Leftover(batch + rs[0].cs), rs[1..]))
  }

  /** One round gives what single delivery gives exactly when the left-over commands are harmless. */
  lemma RoundIsOnceIff(db: Orders, batch: seq<DbCommand>, r: Arrivals)
    requires InsertsExist(db, batch) && InsertsFirst(WriteAll(db, r.writes), r.cs)
    ensures Round(db, batch, r).0 == OnceRound(db, r) <==> Harmless(WriteAll(db, r.writes), batch, r.cs)
    ensures InsertsExist(Round(db, batch, r).0, Round(db, batch, r).1)
  {
    hide ApplyAll, Processed, Inserts, InsertsFirst, Harmless;
    var written := WriteAll(db, r.writes);
    WritesKeepRows(db, r.writes);
    StaleIsHarmlessIff(written, batch, r.cs);
    SortPreservesMeaning(written, r.cs);
    InsertsAreMade(written, batch + r.cs);
  }

  /** A flush makes every row its batch inserts. */
  lemma InsertsAreMade(db: Orders, batch: seq<DbCommand>)
    ensures InsertsExist(ApplyAll(db, Processed(batch)), batch)
  {
    var ins, us := OfKind(batch, 1), OfKind(batch, 2);
    ProcessedApplies(db, batch);
    InsertsAreInserts(batch);
    InsertsAdd(db, ins);
    UpdatesOverwrite(ApplyAll(db, ins), us, 0);
    hide ApplyAll, Processed, OfKind;
    forall c | c in batch && c.InsertOrder? ensures c.orderId in ApplyAll(ApplyAll(db, ins), us) {
      assert c in ins && Inserts(ins, c.orderId);
    }
  }

  /** Delivered at least once, applied exactly once?  Over any rounds, whatever each flush leaves behind,
      the table after every round is that of single delivery if and only if what was left behind was
      harmless in every round. */
  lemma {:induction false} EffectivelyOnceIff(db: Orders, batch: seq<DbCommand>, rs: seq<Arrivals>)
    requires InsertsExist(db, batch) && Orderly(db, rs)
    ensures OnceThroughout(db, batch, rs) <==> HarmlessThroughout(db, batch, rs)
    ensures HarmlessThroughout(db, batch, rs) ==> Rounds(db, batch, rs).0 == Once(db, rs)
    decreases |rs|
  {
    if rs != [] {
      hide Round, OnceRound, InsertsFirst, InsertsExist, Harmless, Leftover;
      var r := rs[0];
      RoundIsOnceIff(db, batch, r);
      RoundLeaves(db, batch, r);
      if Round(db, batch, r).0 == OnceRound(db, r) {
        EffectivelyOnceIff(OnceRound(db, r), Leftover(batch + r.cs), rs[1..]);
      }
    }
  }

  lemma RoundLeaves(db: Orders, batch: seq<DbCommand>, r: Arrivals)
    ensures Round(db, batch, r).1 == Leftover(batch + r.cs)
  {}

  /** While nobody else sets a status, and updates concern known rows, redelivery does no harm. */
  lemma {:induction false} EffectivelyOnce(db: Orders, batch: seq<DbCommand>, rs: seq<Arrivals>)
    requires Settled(db, batch) && Orderly(db, rs) && AllKnown(db, rs)
    requires forall r, w :: r in rs && w in r.writes ==> w.CreateRow?
    ensures HarmlessThroughout(db, batch, rs) && Rounds(db, batch, rs).0 == Once(db, rs)
    decreases |rs|
  {
    if rs != [] {
      hide Round, OnceRound, InsertsFirst, Known, Harmless, Leftover, Settled, Orderly, AllKnown;
      var r := rs[0];
      assert r in rs && forall q :: q in rs[1..] ==> q in rs;
      HypothesesUnfold(db, rs);
      SettledRound(db, batch, r);
      RoundLeaves(db, batch, r);
      EffectivelyOnce(OnceRound(db, r), Leftover(batch + r.cs), rs[1..]);
    }
  }

  lemma SettledRound(db: Orders, batch: seq<DbCommand>, r: Arrivals)
    requires Settled(db, batch) && forall w :: w in r.writes ==> w.CreateRow?
    requires InsertsFirst(WriteAll(db, r.writes), r.cs) && Known(WriteAll(db, r.writes), r.cs)
    ensures Harmless(WriteAll(db, r.writes), batch, r.cs) && Round(db, batch, r).0 == OnceRound(db, r)
    ensures Settled(Round(db, batch, r).0, Round(db, batch, r).1)
  {
    hide ApplyAll, Processed, Inserts, InsertsFirst, Harmless, Leftover, OfKind;
    var written := WriteAll(db, r.writes);
    StaysSettled(db, batch, r.writes);
    SettledIsHarmless(written, batch, r.cs);
    RoundIsOnceIff(db, batch, r);
    StillKnown(written, batch, r.cs);
    LeftoverIsSettled(written, batch + r.cs);
  }

  lemma HypothesesUnfold(db: Orders, rs: seq<Arrivals>)
    requires rs != [] && Orderly(db, rs) && AllKnown(db, rs)
    ensures InsertsFirst(WriteAll(db, rs[0].writes), rs[0].cs) && Known(WriteAll(db, rs[0].writes), rs[0].cs)
    ensures Orderly(OnceRound(db, rs[0]), rs[1..]) && AllKnown(OnceRound(db, rs[0]), rs[1..])
  {}

  lemma StaysSettled(db: Orders, stale: seq<DbCommand>, ws: seq<ServiceWrite>)
    requires Settled(db, stale) && forall w :: w in ws ==> w.CreateRow?
    ensures Settled(WriteAll(db, ws), stale)
  {
    var us := OfKind(stale, 2);
    var written := WriteAll(db, ws);
    WritesKeepRows(db, ws);
    InsertsAreInserts(stale);
    UpdatesOverwrite(written, us, 0);
    forall id | id in written ensures ApplyAll(written, us)[id] == written[id] {
      UpdatesOverwrite(written, us, id);
      if id in db {
        UpdatesOverwrite(db, us, id);
      } else {
        NothingSet(us, id);
      }
    }
  }

  lemma LeftoverIsSettled(db: Orders, batch: seq<DbCommand>)
    requires Known(db, batch)
    ensures Settled(ApplyAll(db, Processed(batch)), Leftover(batch))
  {
    KeptAndDropped(batch);
    FlushSettles(db, batch, |Kept(batch)|);
  }

  lemma StillKnown(db: Orders, stale: seq<DbCommand>, arrived: seq<DbCommand>)
    requires RowsExist(db, stale) && Known(db, arrived)
    ensures Known(db, stale + arrived)
  {
    var all := stale + arrived;
    forall c | c in all && c.UpdateOrderStatus? && c.orderId !in db ensures Inserts(all, c.orderId) {
      assert c in arrived;
      var i :| i in arrived && i.InsertOrder? && i.orderId == c.orderId;
      assert i in all;
    }
  }

  // ---------------------------------------------------------------------------------------
  // The backlog
  // ---------------------------------------------------------------------------------------

  function AllArrived(rs: seq<Arrivals>): seq<DbCommand> {
    if rs == [] then [] else rs[0].cs + AllArrived(rs[1..])
  }

  ghost predicate IsLatestOf(left: seq<DbCommand>, all: seq<DbCommand>) {
    |left| <= |all| && left == all[|all| - |left|..]
  }

  /** Whatever is left in the batch is the latest part of everything that arrived. */
  lemma {:induction false} BacklogIsTheLatest(db: Orders, batch: seq<DbCommand>, rs: seq<Arrivals>)
    ensures IsLatestOf(Rounds(db, batch, rs).1, batch + AllArrived(rs))
    decreases |rs|
  {
    if rs == [] {
      assert batch + [] == batch;
    } else {
      hide Round, Leftover, IsLatestOf;
      var r := rs[0];
      var now, later := batch + r.cs, AllArrived(rs[1..]);
      RoundLeaves(db, batch, r);
      BacklogIsTheLatest(Round(db, batch, r).0, Leftover(now), rs[1..]);
      assert batch + (r.cs + later) == now + later;
      LatestOfLatest(now, later, Rounds(db, batch, rs).1);
    }
  }

  lemma LatestOfLatest(now: seq<DbCommand>, later: seq<DbCommand>, left: seq<DbCommand>)
    requires IsLatestOf(left, Leftover(now) + later)
    ensures IsLatestOf(left, now + later)
  {
    KeptAndDropped(now);
    hide Kept, OfKind;
    assert Leftover(now) + later == (now + later)[|Kept(now)|..];
  }

  lemma LeftoverOfBalances(batch: seq<DbCommand>)
    ensures Leftover(batch) == batch <==> forall c :: c in batch ==> c.UpdateBalance?
    ensures |Leftover(batch)| < |batch| || Leftover(batch) == batch
  {
    KeptAndDropped(batch);
    DroppedAreBalances(batch);
    hide Kept, OfKind;
    if Kept(batch) != [] {
      assert |Leftover(batch)| < |batch|;
    }
  }

  /** Nothing ever leaves the batch if and only if only balance updates arrive, which is all that market
      orders send: the batch then grows without bound. */
  lemma {:induction false} BacklogOnlyGrowsIff(db: Orders, batch: seq<DbCommand>, rs: seq<Arrivals>)
    requires rs != []
    ensures var all := batch + AllArrived(rs);
            Rounds(db, batch, rs).1 == all <==> forall c :: c in all ==> c.UpdateBalance?
    decreases |rs|
  {
    hide Round, Leftover;
    var r := rs[0];
    var now, later := batch + r.cs, AllArrived(rs[1..]);
    assert batch + (r.cs + later) == now + later;
    RoundLeaves(db, batch, r);
    LeftoverOfBalances(now);
    var db' := Round(db, batch, r).0;
    if Leftover(now) == now {
      if rs[1..] == [] {
        assert now + [] == now;
      } else {
        BacklogOnlyGrowsIff(db', now, rs[1..]);
      }
    } else {
      BacklogIsTheLatest(db', Leftover(now), rs[1..]);
      ShorterIsShorter(Leftover(now), now, later);
    }
  }

  lemma ShorterIsShorter(left: seq<DbCommand>, now: seq<DbCommand>, later: seq<DbCommand>)
    ensures |left + later| == |left| + |later| && |now + later| == |now| + |later|
    ensures forall c :: c in now ==> c in now + later
  {}

  // ---------------------------------------------------------------------------------------
  // A cancellation that is undone
  // ---------------------------------------------------------------------------------------

  const PAIR := Pair("SOL", "USDT")
  const PENDING := Row(7, Buy, Limit, PAIR, Some(10), 5, 0, 0, "pending")
  const PARTIAL := PENDING.(status := "partial", filled := 2, filledQuote := 20)
  const LOCKED := D.UpdateBalance(7, "USDT", Some(-50), Some(50))
  const TRADED := D.InsertTrade(MatchResult(1, 2, 7, 8, 10, 2, PAIR))
  const REPORTED := D.UpdateOrderStatus(1, "partial", 2, 20)

  lemma OneUpdate(row: Row)
    ensures OfKind([REPORTED], 1) == [] && OfKind([REPORTED], 2) == [REPORTED]
    ensures OfKind([REPORTED], 4) == [] && Kept([REPORTED]) == [REPORTED]
    ensures ApplyAll(map[1 := row], [REPORTED]) == map[1 := row.(status := "partial", filled := 2, filledQuote := 20)]
    ensures ApplyAll(map[1 := row], Processed([REPORTED])) == ApplyAll(map[1 := row], [REPORTED])
  {
    assert [REPORTED][1..] == [];
    ProcessedApplies(map[1 := row], [REPORTED]);
    assert "partial" != "cancelled" by { assert |"partial"| != |"cancelled"|; }
  }

  lemma ThreeMessages(db: Orders)
    ensures var cs := [LOCKED, TRADED, REPORTED];
            && ApplyAll(db, cs) == ApplyAll(db, [REPORTED])
            && ApplyAll(db, Processed(cs)) == ApplyAll(db, [REPORTED]) && Leftover(cs) == [REPORTED]
            && InsertsFirst(db, cs)
  {
    var cs := [LOCKED, TRADED, REPORTED];
    assert cs[1..] == [TRADED, REPORTED] && cs[1..][1..] == [REPORTED] && [REPORTED][1..] == [];
    OneUpdate(PENDING);
    assert OfKind([TRADED, REPORTED], 1) == [] && OfKind([TRADED, REPORTED], 2) == [REPORTED];
    assert Kept([TRADED, REPORTED]) == [TRADED, REPORTED];
    assert OfKind(cs, 1) == [] && OfKind(cs, 2) == [REPORTED] && Kept(cs) == [TRADED, REPORTED];
    ProcessedApplies(db, cs);
    assert !Inserts([], 1);
    assert InsertsFirst(db, [REPORTED]) && InsertsFirst(db, [TRADED, REPORTED]);
  }

  const FIRST := Arrivals([], [LOCKED, TRADED, REPORTED])
  const SECOND := Arrivals([SetStatus(1, "cancelled")], [])
  const CANCELLED := PARTIAL.(status := "cancelled")

  lemma FirstRound()
    ensures var db := map[1 := PENDING];
            && Round(db, [], FIRST) == (map[1 := PARTIAL], [REPORTED]) && OnceRound(db, FIRST) == map[1 := PARTIAL]
            && InsertsFirst(WriteAll(db, FIRST.writes), FIRST.cs) && Known(WriteAll(db, FIRST.writes), FIRST.cs)
  {
    var db := map[1 := PENDING];
    assert [] + FIRST.cs == FIRST.cs;
    hide ApplyAll, Processed, Leftover, InsertsFirst;
    ThreeMessages(db);
    OneUpdate(PENDING);
  }

  lemma SecondRound()
    ensures var db := map[1 := PARTIAL];
            && Round(db, [REPORTED], SECOND) == (map[1 := PARTIAL], []) && OnceRound(db, SECOND) == map[1 := CANCELLED]
            && InsertsFirst(WriteAll(db, SECOND.writes), SECOND.cs) && Known(WriteAll(db, SECOND.writes), SECOND.cs)
  {
    var db := map[1 := PARTIAL];
    assert [REPORTED] + SECOND.cs == [REPORTED];
    assert SECOND.writes[1..] == [];
    assert WriteAll(db, SECOND.writes) == map[1 := CANCELLED];
    OneUpdate(CANCELLED);
    assert Leftover([REPORTED]) == [];
    hide Processed, Leftover;
  }

  /** A limit order is filled in part; its messages are flushed, and its status update stays behind.  The
      owner cancels it, and the order service writes that.  The next flush, with nothing new to write,
      makes the order "partial" again. */
  lemma CancellationIsUndone()
    ensures var db := map[1 := PENDING];
            var rs := [FIRST, SECOND];
            && InsertsExist(db, []) && Orderly(db, rs) && AllKnown(db, rs)
            && Rounds(db, [], rs) == (map[1 := PARTIAL], []) && Once(db, rs) == map[1 := CANCELLED]
            && !HarmlessThroughout(db, [], rs)
  {
    hide Round, OnceRound, InsertsFirst, Known, WriteAll, HarmlessThroughout;
    var db := map[1 := PENDING];
    var rs := [FIRST, SECOND];
    FirstRound();
    SecondRound();
    assert rs[1..] == [SECOND] && [SECOND][1..] == [];
    assert Orderly(map[1 := CANCELLED], []) && AllKnown(map[1 := CANCELLED], []);
    assert Orderly(map[1 := PARTIAL], [SECOND]) && AllKnown(map[1 := PARTIAL], [SECOND]);
    assert Rounds(map[1 := PARTIAL], [REPORTED], [SECOND]) == (map[1 := PARTIAL], []);
    assert Once(map[1 := PARTIAL], [SECOND]) == map[1 := CANCELLED];
    EffectivelyOnceIff(db, [], rs);
    assert PARTIAL.status != CANCELLED.status by { assert |"partial"| != |"cancelled"|; }
    assert map[1 := PARTIAL][1] != map[1 := CANCELLED][1];
  }
}
