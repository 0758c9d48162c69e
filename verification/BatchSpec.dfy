/** What a batch of database commands does to the orders table, in arrival order and sorted. */
module BatchSpec {
  import opened Types
  import opened DbCommands

  /** A row of the orders table; the timestamps are left out. */
  datatype Row = Row(user: nat, side: Side, style: Style, pair: Pair, price: Option<Price>,
                     amount: int, filled: int, filledQuote: int, status: string)

  type Orders = map<nat, Row>

  /** `process_db_command`.  An insert of an existing id only touches a timestamp, an update of a
      missing row does nothing, a cancellation keeps the quote amount; trades and balances are
      stored elsewhere. */
  function Apply(db: Orders, c: DbCommand): Orders {
    match c
    case InsertOrder(id, user, side, style, pair, price, amount, status, filled, filledQuote) =>
      if id in db then db
      else db[id := Row(user, side, style, pair, price, amount,
                        filled.GetOr(0), filledQuote.GetOr(0), status.GetOr("pending"))]
    case UpdateOrderStatus(id, status, filled, filledQuote) =>
      if id !in db then db
      else if status == "cancelled" then db[id := db[id].(status := status, filled := filled)]
      else db[id := db[id].(status := status, filled := filled, filledQuote := filledQuote)]
    case InsertTrade(_) => db
    case UpdateBalance(_, _, _, _) => db
  }

  function ApplyAll(db: Orders, cs: seq<DbCommand>): Orders
    decreases |cs|
  {
    if cs == [] then db else ApplyAll(Apply(db, cs[0]), cs[1..])
  }

  function Priority(c: DbCommand): nat {
    match c
    case InsertOrder(_, _, _, _, _, _, _, _, _, _) => 1
    case UpdateOrderStatus(_, _, _, _) => 2
    case InsertTrade(_) => 3
    case UpdateBalance(_, _, _, _) => 4
  }

  /** The commands of one kind, in arrival order. */
  function OfKind(cs: seq<DbCommand>, k: nat): seq<DbCommand> {
    if cs == [] then [] else (if Priority(cs[0]) == k then [cs[0]] else []) + OfKind(cs[1..], k)
  }

  /** Everything but balance updates, which the flusher drops. */
  function Kept(cs: seq<DbCommand>): seq<DbCommand> {
    if cs == [] then [] else (if Priority(cs[0]) == 4 then [] else [cs[0]]) + Kept(cs[1..])
  }

  /** The result of a stable sort by priority. */
  function StableSort(cs: seq<DbCommand>): seq<DbCommand> {
    OfKind(cs, 1) + OfKind(cs, 2) + OfKind(cs, 3) + OfKind(cs, 4)
  }

  lemma {:induction false} KindsDistribute(cs: seq<DbCommand>, ds: seq<DbCommand>, k: nat)
    ensures OfKind(cs + ds, k) == OfKind(cs, k) + OfKind(ds, k)
  {
    if cs == [] {
      assert cs + ds == ds;
    } else {
      assert (cs + ds)[1..] == cs[1..] + ds;
      KindsDistribute(cs[1..], ds, k);
      var head := if Priority(cs[0]) == k then [cs[0]] else [];
      assert head + (OfKind(cs[1..], k) + OfKind(ds, k)) == (head + OfKind(cs[1..], k)) + OfKind(ds, k);
    }
  }

  lemma {:induction false} KeptDistributes(cs: seq<DbCommand>, ds: seq<DbCommand>)
    ensures Kept(cs + ds) == Kept(cs) + Kept(ds)
  {
    if cs == [] {
      assert cs + ds == ds;
    } else {
      assert (cs + ds)[1..] == cs[1..] + ds;
      KeptDistributes(cs[1..], ds);
      var head := if Priority(cs[0]) == 4 then [] else [cs[0]];
      assert head + (Kept(cs[1..]) + Kept(ds)) == (head + Kept(cs[1..])) + Kept(ds);
    }
  }

  lemma {:induction false} KindsOfAKind(cs: seq<DbCommand>, k: nat, j: nat)
    ensures OfKind(OfKind(cs, k), j) == if j == k then OfKind(cs, k) else []
    ensures forall c :: c in OfKind(cs, k) ==> Priority(c) == k
  {
    if cs != [] {
      KindsOfAKind(cs[1..], k, j);
      KindsDistribute(if Priority(cs[0]) == k then [cs[0]] else [], OfKind(cs[1..], k), j);
    }
  }

  ghost predicate Ascending(s: seq<DbCommand>) {
    forall i, j :: 0 <= i < j < |s| ==> Priority(s[i]) <= Priority(s[j])
  }

  /** `StableSort` is what its name says: the same commands, by ascending priority, and within a
      priority in their original order. */
  lemma StableSortIsStable(cs: seq<DbCommand>, k: nat)
    requires 1 <= k <= 4
    ensures OfKind(StableSort(cs), k) == OfKind(cs, k)
    ensures multiset(StableSort(cs)) == multiset(cs)
    ensures Ascending(StableSort(cs))
  {
    hide OfKind, Ascending;
    var k1, k2, k3, k4 := OfKind(cs, 1), OfKind(cs, 2), OfKind(cs, 3), OfKind(cs, 4);
    KindsOfAKind(cs, 1, k);
    KindsOfAKind(cs, 2, k);
    KindsOfAKind(cs, 3, k);
    KindsOfAKind(cs, 4, k);
    KindsDistribute(k1 + k2 + k3, k4, k);
    KindsDistribute(k1 + k2, k3, k);
    KindsDistribute(k1, k2, k);
    SameCommands(cs);
    OneKindAscends(k1, 1);
    OneKindAscends(k2, 2);
    OneKindAscends(k3, 3);
    OneKindAscends(k4, 4);
    JoinAscends(k1, k2, 1);
    JoinAscends(k1 + k2, k3, 2);
    JoinAscends(k1 + k2 + k3, k4, 3);
  }

  lemma OneKindAscends(s: seq<DbCommand>, k: nat)
    requires forall c :: c in s ==> Priority(c) == k
    ensures Ascending(s)
  {
    forall i, j | 0 <= i < j < |s| ensures Priority(s[i]) <= Priority(s[j]) {
      assert s[i] in s && s[j] in s;
    }
  }

  lemma JoinAscends(s: seq<DbCommand>, s': seq<DbCommand>, k: nat)
    requires Ascending(s) && Ascending(s')
    requires (forall c :: c in s ==> Priority(c) <= k) && forall c :: c in s' ==> k <= Priority(c)
    ensures Ascending(s + s')
  {
    var all := s + s';
    forall i, j | 0 <= i < j < |all| ensures Priority(all[i]) <= Priority(all[j]) {
      if i < |s| <= j {
        assert s[i] in s && s'[j - |s|] in s';
      } else if |s| <= i {
        assert all[i] == s'[i - |s|] && all[j] == s'[j - |s|];
      }
    }
  }

  lemma {:induction false} KindsPartition(cs: seq<DbCommand>)
    ensures multiset(OfKind(cs, 1)) + multiset(OfKind(cs, 2)) + multiset(OfKind(cs, 3))
              + multiset(OfKind(cs, 4)) == multiset(cs)
  {
    if cs != [] {
      var c, rest := cs[0], cs[1..];
      KindsPartition(rest);
      assert cs == [c] + rest;
      forall k
        ensures multiset(OfKind(cs, k)) ==
                multiset(OfKind(rest, k)) + if Priority(c) == k then multiset{c} else multiset{}
      {
        assert OfKind(cs, k) == (if Priority(c) == k then [c] else []) + OfKind(rest, k);
      }
      hide OfKind;
    }
  }

  lemma SameCommands(cs: seq<DbCommand>)
    ensures multiset(StableSort(cs)) == multiset(cs)
  {
    KindsPartition(cs);
  }

  lemma {:induction false} KeptKinds(cs: seq<DbCommand>, k: nat)
    ensures OfKind(Kept(cs), k) == if k == 4 then [] else OfKind(cs, k)
  {
    if cs != [] {
      KeptKinds(cs[1..], k);
      KindsDistribute(if Priority(cs[0]) == 4 then [] else [cs[0]], Kept(cs[1..]), k);
    }
  }

  /** What the flusher applies: inserts, then updates, then trades. */
  function Processed(cs: seq<DbCommand>): seq<DbCommand> {
    StableSort(Kept(cs))
  }

  lemma ProcessedIs(cs: seq<DbCommand>)
    ensures Processed(cs) == OfKind(cs, 1) + OfKind(cs, 2) + OfKind(cs, 3)
    ensures |Processed(cs)| == |Kept(cs)|
  {
    KeptKinds(cs, 1);
    KeptKinds(cs, 2);
    KeptKinds(cs, 3);
    KeptKinds(cs, 4);
    SameCommands(Kept(cs));
    assert |multiset(Processed(cs))| == |multiset(Kept(cs))|;
  }

  // ---------------------------------------------------------------------------------------
  // Sorting preserves meaning
  // ---------------------------------------------------------------------------------------

  lemma {:induction false} ApplyDistributes(db: Orders, cs: seq<DbCommand>, ds: seq<DbCommand>)
    ensures ApplyAll(db, cs + ds) == ApplyAll(ApplyAll(db, cs), ds)
    decreases |cs|
  {
    if cs == [] {
      assert cs + ds == ds;
    } else {
      assert (cs + ds)[1..] == cs[1..] + ds;
      ApplyDistributes(Apply(db, cs[0]), cs[1..], ds);
    }
  }

  lemma {:induction false} NoOps(db: Orders, cs: seq<DbCommand>)
    requires forall c :: c in cs ==> Priority(c) >= 3
    ensures ApplyAll(db, cs) == db
  {
    if cs != [] {
      assert cs[0] in cs;
      NoOps(db, cs[1..]);
    }
  }

  /** In effect a flush applies the inserts and then the updates. */
  lemma ProcessedApplies(db: Orders, cs: seq<DbCommand>)
    ensures ApplyAll(db, Processed(cs)) == ApplyAll(ApplyAll(db, OfKind(cs, 1)), OfKind(cs, 2))
  {
    ProcessedIs(cs);
    KindsOfAKind(cs, 3, 0);
    ApplyDistributes(db, OfKind(cs, 1) + OfKind(cs, 2), OfKind(cs, 3));
    ApplyDistributes(db, OfKind(cs, 1), OfKind(cs, 2));
    NoOps(ApplyAll(db, OfKind(cs, 1) + OfKind(cs, 2)), OfKind(cs, 3));
  }

  predicate Inserts(cs: seq<DbCommand>, id: nat) {
    exists c :: c in cs && c.InsertOrder? && c.orderId == id
  }

  /** No update arrives before the insert of its own, so far missing, row. */
  ghost predicate InsertsFirst(db: Orders, cs: seq<DbCommand>)
    decreases |cs|
  {
    cs == [] ||
    (&& (cs[0].UpdateOrderStatus? ==> cs[0].orderId in db || !Inserts(cs[1..], cs[0].orderId))
     && InsertsFirst(Apply(db, cs[0]), cs[1..]))
  }

  /** An update commutes with inserts that do not create its row. */
  lemma {:induction false} UpdateCommutes(db: Orders, u: DbCommand, ins: seq<DbCommand>)
    requires u.UpdateOrderStatus? && forall c :: c in ins ==> c.InsertOrder?
    requires u.orderId in db || !Inserts(ins, u.orderId)
    ensures ApplyAll(Apply(db, u), ins) == Apply(ApplyAll(db, ins), u)
    decreases |ins|
  {
    if ins != [] {
      var c := ins[0];
      assert c in ins;
      assert u.orderId !in db ==> c.orderId != u.orderId;
      assert Apply(Apply(db, u), c) == Apply(Apply(db, c), u);
      UpdateCommutes(Apply(db, c), u, ins[1..]);
    }
  }

  lemma {:induction false} InsertsAreInserts(cs: seq<DbCommand>)
    ensures forall c :: c in OfKind(cs, 1) ==> c.InsertOrder? && c in cs
    ensures forall c :: c in OfKind(cs, 2) ==> c.UpdateOrderStatus? && c in cs
    ensures forall c :: c in cs && c.InsertOrder? ==> c in OfKind(cs, 1)
    ensures forall c :: c in cs && c.UpdateOrderStatus? ==> c in OfKind(cs, 2)
  {
    if cs != [] {
      InsertsAreInserts(cs[1..]);
      assert cs == [cs[0]] + cs[1..];
    }
  }

  /** The filter and the stable sort preserve meaning: if every order's insert arrives before its
      updates, the flusher leaves the table that the commands in arrival order leave. */
  lemma {:induction false} SortPreservesMeaning(db: Orders, cs: seq<DbCommand>)
    requires InsertsFirst(db, cs)
    ensures ApplyAll(db, Processed(cs)) == ApplyAll(db, cs)
    decreases |cs|
  {
    ProcessedApplies(db, cs);
    if cs != [] {
      var c, rest := cs[0], cs[1..];
      SortPreservesMeaning(Apply(db, c), rest);
      ProcessedApplies(Apply(db, c), rest);
      var ins := OfKind(rest, 1);
      if c.InsertOrder? {
        assert OfKind(cs, 1) == [c] + ins && OfKind(cs, 2) == OfKind(rest, 2);
        assert ([c] + ins)[1..] == ins;
      } else if c.UpdateOrderStatus? {
        InsertsAreInserts(rest);
        UpdateCommutes(db, c, ins);
        assert OfKind(cs, 1) == ins && OfKind(cs, 2) == [c] + OfKind(rest, 2);
        assert ([c] + OfKind(rest, 2))[1..] == OfKind(rest, 2);
      } else {
        assert OfKind(cs, 1) == ins && OfKind(cs, 2) == OfKind(rest, 2);
      }
    }
  }

  /** The hypothesis matters: an update that overtakes its insert is lost in arrival order but not
      after sorting. */
  lemma OvertakingUpdateDiffers()
    ensures var pair := Pair("SOL", "USDT");
            var u := UpdateOrderStatus(1, "filled", 5, 50);
            var i := InsertOrder(1, 7, Buy, Limit, pair, Some(10), 5, None, None, None);
            var row := Row(7, Buy, Limit, pair, Some(10), 5, 0, 0, "pending");
            && ApplyAll(map[], [u, i]) == map[1 := row]
            && ApplyAll(map[], Processed([u, i])) == map[1 := row.(status := "filled", filled := 5, filledQuote := 50)]
  {
    var pair := Pair("SOL", "USDT");
    var u := UpdateOrderStatus(1, "filled", 5, 50);
    var i := InsertOrder(1, 7, Buy, Limit, pair, Some(10), 5, None, None, None);
    ProcessedApplies(map[], [u, i]);
    assert [u, i][1..] == [i] && [i][1..] == [];
    assert OfKind([i], 1) == [i] && OfKind([i], 2) == [];
    assert OfKind([u, i], 1) == [] + OfKind([i], 1) && OfKind([u, i], 2) == [u] + OfKind([i], 2);
    assert ApplyAll(map[], [i]) == Apply(map[], i);
    assert "filled" != "cancelled" by { assert |"filled"| != |"cancelled"|; }
    assert ApplyAll(Apply(map[], i), [u]) == Apply(Apply(map[], i), u);
  }

  // ---------------------------------------------------------------------------------------
  // Applying twice
  // ---------------------------------------------------------------------------------------

  /** The last update of `id` in `cs`, and the last one that sets the quote amount. */
  function LastStatus(cs: seq<DbCommand>, id: nat): Option<(string, int)> {
    if cs == [] then None
    else if LastStatus(cs[1..], id).Some? then LastStatus(cs[1..], id)
    else if cs[0].UpdateOrderStatus? && cs[0].orderId == id then Some((cs[0].newStatus, cs[0].newFilled))
    else None
  }

  function LastQuote(cs: seq<DbCommand>, id: nat): Option<int> {
    if cs == [] then None
    else if LastQuote(cs[1..], id).Some? then LastQuote(cs[1..], id)
    else if cs[0].UpdateOrderStatus? && cs[0].orderId == id && cs[0].newStatus != "cancelled"
         then Some(cs[0].newFilledQuote)
    else None
  }

  function Overwritten(r: Row, s: Option<(string, int)>, q: Option<int>): Row {
    var r1 := match s case Some((status, filled)) => r.(status := status, filled := filled) case None => r;
    match q case Some(quote) => r1.(filledQuote := quote) case None => r1
  }

  lemma {:induction false} UpdatesOverwrite(db: Orders, us: seq<DbCommand>, id: nat)
    requires forall c :: c in us ==> c.UpdateOrderStatus?
    ensures ApplyAll(db, us).Keys == db.Keys
    ensures id in db ==> ApplyAll(db, us)[id] == Overwritten(db[id], LastStatus(us, id), LastQuote(us, id))
    decreases |us|
  {
    if us != [] {
      assert us[0] in us;
      assert Apply(db, us[0]).Keys == db.Keys;
      UpdatesOverwrite(Apply(db, us[0]), us[1..], id);
    }
  }

  /** Applying a list of updates a second time changes nothing. */
  lemma UpdatesAreIdempotent(db: Orders, us: seq<DbCommand>)
    requires forall c :: c in us ==> c.UpdateOrderStatus?
    ensures ApplyAll(ApplyAll(db, us), us) == ApplyAll(db, us)
  {
    var once := ApplyAll(db, us);
    UpdatesOverwrite(db, us, 0);
    UpdatesOverwrite(once, us, 0);
    forall id | id in db ensures ApplyAll(once, us)[id] == once[id] {
      UpdatesOverwrite(db, us, id);
      UpdatesOverwrite(once, us, id);
    }
  }
}
