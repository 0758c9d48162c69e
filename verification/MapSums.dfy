/** Sums over the values of a finite map. */
module MapSums {
  ghost function Sum<K(!new)>(m: map<K, int>): int
    decreases |m|
  {
    if m == map[] then 0
    else
      var k :| k in m;
      m[k] + Sum(m - {k})
  }

  /** The order in which entries are added does not matter. */
  lemma {:induction false} SumSplit<K(!new)>(m: map<K, int>, k: K)
    requires k in m
    ensures Sum(m) == m[k] + Sum(m - {k})
    decreases |m|
  {
    var j :| j in m && Sum(m) == m[j] + Sum(m - {j});
    if j != k {
      SumSplit(m - {j}, k);
      SumSplit(m - {k}, j);
      assert m - {j} - {k} == m - {k} - {j};
    }
  }

  lemma SumUpdate<K(!new)>(m: map<K, int>, k: K, v: int)
    ensures Sum(m[k := v]) == Sum(m) - (if k in m then m[k] else 0) + v
  {
    SumSplit(m[k := v], k);
    if k in m {
      SumSplit(m, k);
      assert m[k := v] - {k} == m - {k};
    } else {
      assert m[k := v] - {k} == m;
    }
  }

  lemma {:induction false} SumBounds<K(!new)>(m: map<K, int>)
    requires forall k :: k in m ==> 0 <= m[k]
    ensures 0 <= Sum(m)
    ensures forall k :: k in m ==> m[k] <= Sum(m)
    decreases |m|
  {
    forall k | k in m ensures m[k] <= Sum(m) && 0 <= Sum(m) {
      SumSplit(m, k);
      SumBounds(m - {k});
    }
    if m != map[] {
      var k :| k in m;
      assert m[k] <= Sum(m);
    }
  }

  /** The part of a sum that belongs to one mint. */
  ghost function SumIn(m: map<(nat, string), int>, mint: string): int {
    Sum(map k | k in m && k.1 == mint :: m[k])
  }

  lemma SumInUpdate(m: map<(nat, string), int>, k: (nat, string), v: int, mint: string)
    ensures SumIn(m[k := v], mint) == SumIn(m, mint) + if k.1 == mint then v - (if k in m then m[k] else 0) else 0
  {
    var part := map j | j in m && j.1 == mint :: m[j];
    var m' := m[k := v];
    var part' := map j | j in m' && j.1 == mint :: m'[j];
    if k.1 == mint {
      SumUpdate(part, k, v);
      assert part' == part[k := v];
    } else {
      assert part' == part;
    }
  }
}
