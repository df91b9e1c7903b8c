/** Sums over finite maps. A table's total is the sum of one number per row, so every
    balance in the project is stated with `Sum` and every row write is an instance of
    `SumUpdate`. */
module Sums {

  ghost function Sum<K>(m: map<K, int>): int
    decreases |m|
  {
    if m == map[] then 0
    else
      var k :| k in m;
      assert |m - {k}| < |m|;
      m[k] + Sum(m - {k})
  }

  lemma {:induction false} SumRemove<K>(m: map<K, int>, k: K)
    requires k in m
    ensures Sum(m) == m[k] + Sum(m - {k})
    decreases |m|
  {
    var j :| j in m && Sum(m) == m[j] + Sum(m - {j});
    if j != k {
      assert |m - {j}| < |m| && |m - {k}| < |m|;
      SumRemove(m - {j}, k);
      SumRemove(m - {k}, j);
      assert (m - {j}) - {k} == (m - {k}) - {j};
    }
  }

  /** Inserting or overwriting one row moves the total by the difference of the two values. */
  lemma SumUpdate<K>(m: map<K, int>, k: K, v: int)
    ensures Sum(m[k := v]) == Sum(m) + v - (if k in m then m[k] else 0)
  {
    SumRemove(m[k := v], k);
    if k in m {
      SumRemove(m, k);
      assert m[k := v] - {k} == m - {k};
    } else {
      assert m[k := v] - {k} == m;
    }
  }

  function Get<K(==)>(m: map<K, int>, k: K): int {
    if k in m then m[k] else 0
  }

  /** Adds to each row of `m` what `d` holds for it. */
  ghost function Added<K>(m: map<K, int>, d: map<K, int>): map<K, int> {
    map k | k in m :: m[k] + Get(d, k)
  }

  lemma {:induction false} SumAdded<K>(m: map<K, int>, d: map<K, int>)
    requires d.Keys <= m.Keys
    ensures Sum(Added(m, d)) == Sum(m) + Sum(d)
    decreases |d|
  {
    if d == map[] {
      assert Added(m, d) == m;
    } else {
      var k :| k in d;
      assert |d - {k}| < |d|;
      SumAdded(m, d - {k});
      SumRemove(d, k);
      assert Added(m, d) == Added(m, d - {k})[k := m[k] + d[k]];
      SumUpdate(Added(m, d - {k}), k, m[k] + d[k]);
    }
  }

  lemma {:induction false} SumZero<K>(m: map<K, int>)
    requires forall k :: k in m ==> m[k] == 0
    ensures Sum(m) == 0
    decreases |m|
  {
    if m != map[] {
      var k :| k in m;
      assert |m - {k}| < |m|;
      SumZero(m - {k});
      SumRemove(m, k);
    }
  }
}
