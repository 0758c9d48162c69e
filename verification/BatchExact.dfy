/** Exactly when sorting a batch changes what it means. */
module BatchExact {
  import opened Types
  import opened DbCommands
  import opened BatchSpec

  function InsertedRow(c: DbCommand): Row
    requires c.InsertOrder?
  {
    Row(c.user, c.side, c.style, c.pair, c.price, c.amount,
        c.filled.GetOr(0), c.filledQuote.GetOr(0), c.status.GetOr("pending"))
  }

  /** Position of the first insert of `id`. */
  function FirstInsert(cs: seq<DbCommand>, id: nat): (r: Option<nat>)
    ensures match r
            case Some(k) => k < |cs| && cs[k].InsertOrder? && cs[k].orderId == id && !Inserts(cs[..k], id)
            case None => !Inserts(cs, id)
  {
    if cs == [] then None
    else if cs[0].InsertOrder? && cs[0].orderId == id then Some(0)
    else
      match FirstInsert(cs[1..], id)
      case Some(k) => assert cs[..k + 1] == [cs[0]] + cs[1..][..k]; Some(k + 1)
      case None => assert cs == [cs[0]] + cs[1..]; None
  }

  /** For a row that the batch creates: every field an update set too early is set again after the
      insert, or was set to the inserted value anyway. */
  predicate EarlyUpdatesDoNotMatter(cs: seq<DbCommand>, id: nat) {
    match FirstInsert(cs, id)
    case None => true
    case Some(k) =>
      var early, late := cs[..k], cs[k + 1..];
      var row := InsertedRow(cs[k]);
      && (LastStatus(late, id).Some? || LastStatus(early, id).None?
          || LastStatus(early, id) == Some((row.status, row.filled)))
      && (LastQuote(late, id).Some? || LastQuote(early, id).None? || LastQuote(early, id) == Some(row.filledQuote))
  }

  // ---------------------------------------------------------------------------------------
  // One row under any commands
  // ---------------------------------------------------------------------------------------

  lemma {:induction false} PresentRow(db: Orders, cs: seq<DbCommand>, id: nat)
    requires id in db
    ensures id in ApplyAll(db, cs)
    ensures ApplyAll(db, cs)[id] == Overwritten(db[id], LastStatus(cs, id), LastQuote(cs, id))
    decreases |cs|
  {
    if cs != [] {
      PresentRow(Apply(db, cs[0]), cs[1..], id);
    }
  }

  lemma {:induction false} AbsentRow(db: Orders, cs: seq<DbCommand>, id: nat)
    requires id !in db && !Inserts(cs, id)
    ensures id !in ApplyAll(db, cs)
    decreases |cs|
  {
    if cs != [] {
      var c := cs[0];
      assert c in cs;
      assert id !in Apply(db, c);
      assert !Inserts(cs[1..], id);
      AbsentRow(Apply(db, c), cs[1..], id);
    }
  }

  lemma {:induction false} LastOfTwo(cs: seq<DbCommand>, ds: seq<DbCommand>, id: nat)
    ensures LastStatus(cs + ds, id) == if LastStatus(ds, id).Some? then LastStatus(ds, id) else LastStatus(cs, id)
    ensures LastQuote(cs + ds, id) == if LastQuote(ds, id).Some? then LastQuote(ds, id) else LastQuote(cs, id)
  {
    if cs == [] {
      assert cs + ds == ds;
    } else {
      assert (cs + ds)[1..] == cs[1..] + ds;
      LastOfTwo(cs[1..], ds, id);
    }
  }

  lemma {:induction false} LastOfUpdates(cs: seq<DbCommand>, id: nat)
    ensures LastStatus(OfKind(cs, 2), id) == LastStatus(cs, id) && LastQuote(OfKind(cs, 2), id) == LastQuote(cs, id)
  {
    if cs != [] {
      LastOfUpdates(cs[1..], id);
      var rest := OfKind(cs[1..], 2);
      if cs[0].UpdateOrderStatus? {
        assert OfKind(cs, 2) == [cs[0]] + rest && ([cs[0]] + rest)[1..] == rest;
      } else {
        assert OfKind(cs, 2) == rest;
      }
    }
  }

  lemma {:induction false} NoUpdates(cs: seq<DbCommand>, id: nat)
    requires forall c :: c in cs ==> c.InsertOrder?
    ensures LastStatus(cs, id) == None && LastQuote(cs, id) == None
  {
    if cs != [] {
      assert cs[0] in cs;
      NoUpdates(cs[1..], id);
    }
  }

  /** A row created at position `k`: what later commands make of it. */
  lemma CreatedRow(db: Orders, cs: seq<DbCommand>, id: nat, k: nat)
    requires id !in db && k < |cs| && cs[k].InsertOrder? && cs[k].orderId == id && !Inserts(cs[..k], id)
    ensures id in ApplyAll(db, cs)
    ensures ApplyAll(db, cs)[id] ==
            Overwritten(InsertedRow(cs[k]), LastStatus(cs[k + 1..], id), LastQuote(cs[k + 1..], id))
  {
    var before := ApplyAll(db, cs[..k]);
    AbsentRow(db, cs[..k], id);
    assert cs == cs[..k] + ([cs[k]] + cs[k + 1..]);
    ApplyDistributes(db, cs[..k], [cs[k]] + cs[k + 1..]);
    assert ([cs[k]] + cs[k + 1..])[1..] == cs[k + 1..];
    PresentRow(Apply(before, cs[k]), cs[k + 1..], id);
  }

  /** Among the inserts alone, the first insert of `id` is the same command. */
  lemma FirstOfInserts(db: Orders, cs: seq<DbCommand>, id: nat, k: nat)
    requires id !in db && k < |cs| && cs[k].InsertOrder? && cs[k].orderId == id && !Inserts(cs[..k], id)
    ensures id in ApplyAll(db, OfKind(cs, 1)) && ApplyAll(db, OfKind(cs, 1))[id] == InsertedRow(cs[k])
  {
    var a, b := OfKind(cs[..k], 1), OfKind(cs[k + 1..], 1);
    assert cs == cs[..k] + ([cs[k]] + cs[k + 1..]);
    KindsDistribute(cs[..k], [cs[k]] + cs[k + 1..], 1);
    KindsDistribute([cs[k]], cs[k + 1..], 1);
    assert OfKind([cs[k]], 1) == [cs[k]];
    var ins := OfKind(cs, 1);
    assert ins == a + ([cs[k]] + b);
    assert ins[..|a|] == a && ins[|a|] == cs[k] && ins[|a| + 1..] == b;
    InsertsAreInserts(cs[..k]);
    InsertsAreInserts(cs[k + 1..]);
    assert !Inserts(a, id);
    CreatedRow(db, ins, id, |a|);
    NoUpdates(b, id);
  }

  // ---------------------------------------------------------------------------------------
  // The comparison
  // ---------------------------------------------------------------------------------------

  /** Sorted and unsorted, for one row. */
  ghost predicate SameRow(db: Orders, cs: seq<DbCommand>, id: nat) {
    var sorted, arrived := ApplyAll(db, Processed(cs)), ApplyAll(db, cs);
    (id in sorted <==> id in arrived) && (id in sorted && id in arrived ==> sorted[id] == arrived[id])
  }

  lemma SameRowsSameTable(db: Orders, cs: seq<DbCommand>)
    requires forall id :: SameRow(db, cs, id)
    ensures ApplyAll(db, Processed(cs)) == ApplyAll(db, cs)
  {
    var sorted, arrived := ApplyAll(db, Processed(cs)), ApplyAll(db, cs);
    forall id ensures (id in sorted <==> id in arrived) && (id in sorted ==> sorted[id] == arrived[id]) {
      assert SameRow(db, cs, id);
    }
  }

  /** A row after sorting, in terms of the table after the inserts. */
  lemma RowAfterSorting(db: Orders, cs: seq<DbCommand>, id: nat)
    ensures var created := ApplyAll(db, OfKind(cs, 1));
            var sorted := ApplyAll(db, Processed(cs));
            && (id in sorted <==> id in created)
            && (id in created ==> sorted[id] == Overwritten(created[id], LastStatus(cs, id), LastQuote(cs, id)))
  {
    ProcessedApplies(db, cs);
    LastOfUpdates(cs, id);
    InsertsAreInserts(cs);
    UpdatesOverwrite(ApplyAll(db, OfKind(cs, 1)), OfKind(cs, 2), id);
  }

  lemma LastAround(cs: seq<DbCommand>, id: nat, k: nat)
    requires k < |cs| && cs[k].InsertOrder?
    ensures var early, late := cs[..k], cs[k + 1..];
            && LastStatus(cs, id) == (if LastStatus(late, id).Some? then LastStatus(late, id)
                                      else LastStatus(early, id))
            && LastQuote(cs, id) == (if LastQuote(late, id).Some? then LastQuote(late, id) else LastQuote(early, id))
  {
    assert cs == cs[..k] + ([cs[k]] + cs[k + 1..]);
    LastOfTwo(cs[..k], [cs[k]] + cs[k + 1..], id);
    LastOfTwo([cs[k]], cs[k + 1..], id);
    assert [cs[k]][1..] == [];
  }

  lemma PresentRowCompared(db: Orders, cs: seq<DbCommand>, id: nat)
    requires id in db
    ensures SameRow(db, cs, id)
  {
    var ins := OfKind(cs, 1);
    InsertsAreInserts(cs);
    RowAfterSorting(db, cs, id);
    hide Processed, OfKind, ApplyAll, LastStatus, LastQuote;
    PresentRow(db, cs, id);
    PresentRow(db, ins, id);
    NoUpdates(ins, id);
  }

  lemma NoRowCompared(db: Orders, cs: seq<DbCommand>, id: nat)
    requires id !in db && !Inserts(cs, id)
    ensures SameRow(db, cs, id)
  {
    var ins := OfKind(cs, 1);
    InsertsAreInserts(cs);
    RowAfterSorting(db, cs, id);
    hide Processed, OfKind, ApplyAll, LastStatus, LastQuote;
    assert !Inserts(ins, id);
    AbsentRow(db, cs, id);
    AbsentRow(db, ins, id);
  }

  lemma CreatedRowCompared(db: Orders, cs: seq<DbCommand>, id: nat, k: nat)
    requires id !in db && FirstInsert(cs, id) == Some(k)
    ensures SameRow(db, cs, id) <==> EarlyUpdatesDoNotMatter(cs, id)
  {
    hide Processed, OfKind, ApplyAll, LastStatus, LastQuote;
    RowAfterSorting(db, cs, id);
    CreatedRow(db, cs, id, k);
    FirstOfInserts(db, cs, id, k);
    LastAround(cs, id, k);
  }

  lemma RowsCompared(db: Orders, cs: seq<DbCommand>, id: nat)
    ensures SameRow(db, cs, id) <==> id in db || EarlyUpdatesDoNotMatter(cs, id)
  {
    hide SameRow;
    if id in db {
      PresentRowCompared(db, cs, id);
    } else {
      match FirstInsert(cs, id)
      case None => NoRowCompared(db, cs, id);
      case Some(k) => CreatedRowCompared(db, cs, id, k);
    }
  }

  /** Filter and stable sort preserve the meaning of a batch if and only if, for every row that was
      missing, no update that overtook its insert leaves a trace after sorting. */
  lemma SortPreservesMeaningIff(db: Orders, cs: seq<DbCommand>)
    ensures ApplyAll(db, Processed(cs)) == ApplyAll(db, cs) <==>
            forall id :: id in db || EarlyUpdatesDoNotMatter(cs, id)
  {
    hide ApplyAll, Processed, EarlyUpdatesDoNotMatter;
    var sorted, arrived := ApplyAll(db, Processed(cs)), ApplyAll(db, cs);
    forall id ensures SameRow(db, cs, id) <==> id in db || EarlyUpdatesDoNotMatter(cs, id) {
      RowsCompared(db, cs, id);
    }
    if forall id :: id in db || EarlyUpdatesDoNotMatter(cs, id) {
      assert forall id :: SameRow(db, cs, id);
      SameRowsSameTable(db, cs);
    } else {
      var id :| !(id in db || EarlyUpdatesDoNotMatter(cs, id));
      assert !SameRow(db, cs, id);
    }
  }
}
