/** Sums over the rows of a table. */
module Sums {

  /** The sum of f over all entries of m. */
  ghost function SumMap<K(!new), V(!new)>(m: map<K, V>, f: (K, V) -> int): int
    decreases |m|
  {
    if m == map[] then 0
    else
      var k :| k in m;
      f(k, m[k]) + SumMap(m - {k}, f)
  }

  /** Any entry can be taken out first. */
  lemma {:induction false} SumRemove<K(!new), V(!new)>(m: map<K, V>, f: (K, V) -> int, k: K)
    requires k in m
    ensures SumMap(m, f) == f(k, m[k]) + SumMap(m - {k}, f)
    decreases |m|
  {
    var j :| j in m && SumMap(m, f) == f(j, m[j]) + SumMap(m - {j}, f);
    if j != k {
      SumRemove(m - {j}, f, k);
      SumRemove(m - {k}, f, j);
      assert m - {j} - {k} == m - {k} - {j};
    }
  }

  /** Writing one entry changes the sum by the difference at that key. */
  lemma SumUpdate<K(!new), V(!new)>(m: map<K, V>, f: (K, V) -> int, k: K, v: V)
    ensures SumMap(m[k := v], f) == SumMap(m, f) - (if k in m then f(k, m[k]) else 0) + f(k, v)
  {
    SumRemove(m[k := v], f, k);
    if k in m {
      SumRemove(m, f, k);
      assert m[k := v] - {k} == m - {k};
    } else {
      assert m[k := v] - {k} == m;
    }
  }

  /** A sum of nothing but zeros is zero. */
  lemma {:induction false} SumZero<K(!new), V(!new)>(m: map<K, V>, f: (K, V) -> int)
    requires forall k :: k in m ==> f(k, m[k]) == 0
    ensures SumMap(m, f) == 0
    decreases |m|
  {
    if m != map[] {
      var j :| j in m && SumMap(m, f) == f(j, m[j]) + SumMap(m - {j}, f);
      SumZero(m - {j}, f);
    }
  }
}
