/** Resting and removing one order: what it does to a well-formed book and to what is owed. */
module BookKeeping {
  import opened Types
  import opened OrderBooks
  import opened MatchingSpec
  import opened Obligations
  import opened EngineSpec

  lemma {:induction false} InsertKeeps(side: Side, pair: Pair, levels: seq<Level>, o: Order, p: Price)
    requires GoodLevels(levels, side, pair) && RestsAt(o, side, pair, p)
    ensures GoodLevels(Insert(side, levels, o, p), side, pair)
  {
    InsertAppends(side, levels, o, p);
    if levels == [] || Ahead(side, p, levels[0].price) {
      assert ([Level(p, [o])] + levels)[1..] == levels;
    } else if levels[0].price != p {
      InsertAppends(side, levels[1..], o, p);
      InsertKeeps(side, pair, levels[1..], o, p);
    }
  }

  lemma {:induction false} InsertOwes(side: Side, levels: seq<Level>, o: Order, p: Price, u: nat, mint: string)
    ensures LevelsOwe(Insert(side, levels, o, p), u, mint) == LevelsOwe(levels, u, mint) + OrderOwes(o, u, mint)
  {
    if levels == [] || Ahead(side, p, levels[0].price) {
      assert ([Level(p, [o])] + levels)[1..] == levels;
      assert QueueOwes([o], u, mint) == OrderOwes(o, u, mint);
    } else if levels[0].price == p {
      QueueSums(levels[0].queue, [o], u, mint);
      assert QueueOwes([o], u, mint) == OrderOwes(o, u, mint);
    } else {
      InsertOwes(side, levels[1..], o, p, u, mint);
    }
  }

  lemma RemoveUnfolds(levels: seq<Level>, i: nat, pos: nat)
    requires i < |levels| && pos < |levels[i].queue|
    ensures RemoveAt(levels, i, pos) ==
            if i == 0 then WithLevel(levels[0].price, levels[0].queue[..pos] + levels[0].queue[pos + 1..], levels[1..])
            else [levels[0]] + RemoveAt(levels[1..], i - 1, pos)
  {
    if i > 0 {
      assert levels[1..][i - 1] == levels[i] && levels[1..][i - 1 + 1..] == levels[i + 1..];
      assert levels[..i] == [levels[0]] + levels[1..][..i - 1];
    } else {
      assert levels[..0] == [];
    }
  }

  lemma {:induction false} RemoveKeeps(side: Side, pair: Pair, levels: seq<Level>, i: nat, pos: nat)
    requires GoodLevels(levels, side, pair) && i < |levels| && pos < |levels[i].queue|
    ensures GoodLevels(RemoveAt(levels, i, pos), side, pair)
    ensures Prices(RemoveAt(levels, i, pos)) <= Prices(levels)
    ensures RestsAt(levels[i].queue[pos], side, pair, levels[i].price)
  {
    RemoveUnfolds(levels, i, pos);
    if i == 0 {
      var q := levels[0].queue;
      assert q[pos] in q;
      assert q[..pos] + q[pos + 1..] != [] ==>
        WithLevel(levels[0].price, q[..pos] + q[pos + 1..], levels[1..])[1..] == levels[1..];
    } else {
      RemoveKeeps(side, pair, levels[1..], i - 1, pos);
    }
  }

  lemma WithLevelOwes(p: Price, q: seq<Order>, rest: seq<Level>, u: nat, mint: string)
    ensures LevelsOwe(WithLevel(p, q, rest), u, mint) == QueueOwes(q, u, mint) + LevelsOwe(rest, u, mint)
  {
    hide OrderOwes;
    if q != [] {
      assert WithLevel(p, q, rest)[1..] == rest;
    }
  }

  lemma OwedByOne(q: seq<Order>, pos: nat, u: nat, mint: string)
    requires pos < |q|
    ensures QueueOwes(q, u, mint) == QueueOwes(q[..pos] + q[pos + 1..], u, mint) + OrderOwes(q[pos], u, mint)
  {
    hide OrderOwes;
    var tail := [q[pos]] + q[pos + 1..];
    assert tail[1..] == q[pos + 1..];
    assert QueueOwes(tail, u, mint) == OrderOwes(q[pos], u, mint) + QueueOwes(q[pos + 1..], u, mint);
    assert q == q[..pos] + tail;
    hide QueueOwes;
    QueueSums(q[..pos], tail, u, mint);
    QueueSums(q[..pos], q[pos + 1..], u, mint);
  }

  lemma {:induction false} RemoveOwes(levels: seq<Level>, i: nat, pos: nat, u: nat, mint: string)
    requires i < |levels| && pos < |levels[i].queue|
    ensures LevelsOwe(levels, u, mint) ==
            LevelsOwe(RemoveAt(levels, i, pos), u, mint) + OrderOwes(levels[i].queue[pos], u, mint)
  {
    RemoveUnfolds(levels, i, pos);
    hide RemoveAt, OrderOwes, QueueOwes, WithLevel;
    var q := levels[0].queue;
    if i == 0 {
      OwedByOne(q, pos, u, mint);
      WithLevelOwes(levels[0].price, q[..pos] + q[pos + 1..], levels[1..], u, mint);
    } else {
      RemoveOwes(levels[1..], i - 1, pos, u, mint);
      var rest := RemoveAt(levels[1..], i - 1, pos);
      assert ([levels[0]] + rest)[1..] == rest;
    }
  }

  lemma {:induction false} OwesIsNonNegative(levels: seq<Level>, side: Side, pair: Pair, u: nat, mint: string)
    requires GoodLevels(levels, side, pair)
    ensures 0 <= LevelsOwe(levels, u, mint)
  {
    if levels != [] {
      QueueOwesIsNonNegative(levels[0].queue, side, pair, levels[0].price, u, mint);
      OwesIsNonNegative(levels[1..], side, pair, u, mint);
    }
  }

  lemma {:induction false} QueueOwesIsNonNegative(q: seq<Order>, side: Side, pair: Pair, p: Price, u: nat, mint: string)
    requires GoodQueue(q, side, pair, p)
    ensures 0 <= QueueOwes(q, u, mint)
  {
    if q != [] {
      assert q[0] in q;
      assert 0 <= p * q[0].remaining;
      QueueOwesIsNonNegative(q[1..], side, pair, p, u, mint);
    }
  }
}
