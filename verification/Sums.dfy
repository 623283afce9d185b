/** Sums over finite maps. */
module Sums {

  ghost function Sum<K>(m: map<K, int>): int {
    if m == map[] then 0
    else
      var k :| k in m;
      m[k] + Sum(m - {k})
  }

  /** The sum does not depend on the order in which keys are taken. */
  lemma {:induction false} SumPick<K>(m: map<K, int>, k: K)
    requires k in m
    ensures Sum(m) == m[k] + Sum(m - {k})
    decreases |m|
  {
    var j :| j in m && Sum(m) == m[j] + Sum(m - {j});
    if j != k {
      assert |m - {j}| < |m| by { assert (m - {j}).Keys == m.Keys - {j}; }
      assert |m - {k}| < |m| by { assert (m - {k}).Keys == m.Keys - {k}; }
      SumPick(m - {j}, k);
      SumPick(m - {k}, j);
      assert m - {j} - {k} == m - {k} - {j};
    }
  }

  lemma SumUpdate<K>(m: map<K, int>, k: K, v: int)
    ensures Sum(m[k := v]) == Sum(m) - (if k in m then m[k] else 0) + v
  {
    SumPick(m[k := v], k);
    assert m[k := v] - {k} == m - {k};
    if k in m {
      SumPick(m, k);
    } else {
      assert m - {k} == m;
    }
  }

  lemma {:induction false} SumBound<K>(m: map<K, int>, bound: int)
    requires forall k :: k in m ==> m[k] <= bound
    ensures Sum(m) <= |m| * bound
    decreases |m|
  {
    if m != map[] {
      var k :| k in m;
      SumPick(m, k);
      assert (m - {k}).Keys == m.Keys - {k};
      SumBound(m - {k}, bound);
      assert |m| * bound == (|m| - 1) * bound + bound;
    }
  }
}
