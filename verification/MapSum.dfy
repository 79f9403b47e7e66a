/** The sum of a finite map's values. */
module MapSum {
  ghost function Sum<K>(m: map<K, nat>): nat
    decreases |m|
  {
    if m == map[] then 0
    else
      var k :| k in m;
      assert m == (m - {k})[k := m[k]];
      m[k] + Sum(m - {k})
  }

  /** The order in which the values are added does not matter. */
  lemma {:induction false} SumWithout<K>(m: map<K, nat>, k: K)
    requires k in m
    ensures Sum(m) == m[k] + Sum(m - {k})
    decreases |m|
  {
    var p :| p in m && Sum(m) == m[p] + Sum(m - {p});
    assert m == (m - {p})[p := m[p]];
    if p != k {
      SumWithout(m - {p}, k);
      assert m - {p} - {k} == m - {k} - {p};
      assert m == (m - {k})[k := m[k]];
      SumWithout(m - {k}, p);
    }
  }

  lemma SumUpdate<K>(m: map<K, nat>, k: K, v: nat)
    requires k in m
    ensures Sum(m[k := v]) + m[k] == Sum(m) + v
  {
    SumWithout(m, k);
    SumWithout(m[k := v], k);
    assert m[k := v] - {k} == m - {k};
  }

  /** If every value grows by at most one, and only on `bumped`, the sum grows by at most |bumped|. */
  lemma {:induction false} SumBump<K>(m: map<K, nat>, m': map<K, nat>, bumped: set<K>)
    requires m.Keys == m'.Keys
    requires forall k | k in m :: m'[k] <= m[k] + (if k in bumped then 1 else 0)
    ensures Sum(m') <= Sum(m) + |bumped|
    decreases |m|
  {
    if m == map[] {
      assert m' == map[];
    } else {
      var k :| k in m;
      assert m == (m - {k})[k := m[k]];
      SumWithout(m, k);
      SumWithout(m', k);
      SumBump(m - {k}, m' - {k}, bumped - {k});
      CardWithout(bumped, k);
    }
  }

  lemma CardWithout<K>(s: set<K>, k: K)
    ensures |s| == |s - {k}| + (if k in s then 1 else 0)
  {
    if k in s { assert s == (s - {k}) + {k}; } else { assert s == s - {k}; }
  }
}
