/** The sum of the values of a finite map, used to state that a ledger's
    entries add up to its total. */
module Sums {
  import opened Base

  ghost function Sum<K>(m: map<K, nat>): nat
    decreases |m|
  {
    if m == map[] then 0
    else
      var k := Pick(m);
      m[k] + Sum(m - {k})
  }

  ghost function Pick<K>(m: map<K, nat>): (k: K)
    requires m != map[]
    ensures k in m
  {
    var k :| k in m.Keys; k
  }

  /** Any entry can be split off the sum, whichever key the definition picks. */
  lemma {:induction false} SumRemove<K>(m: map<K, nat>, k: K)
    requires k in m
    ensures Sum(m) == m[k] + Sum(m - {k})
    decreases |m|
  {
    var j := Pick(m);
    if j != k {
      var mj := m - {j};
      var mk := m - {k};
      assert k in mj;
      SumRemove(mj, k);
      assert j in mk;
      SumRemove(mk, j);
      assert mj - {k} == mk - {j};
    }
  }

  /** Overwriting one entry changes the sum by the difference. */
  lemma {:induction false} SumUpdate<K>(m: map<K, nat>, k: K, v: nat)
    ensures Sum(m[k := v]) == Sum(m) - Get(m, k) + v
  {
    var m' := m[k := v];
    SumRemove(m', k);
    assert m' - {k} == m - {k};
    if k in m {
      SumRemove(m, k);
    } else {
      assert m - {k} == m;
    }
  }

  /** No entry exceeds the sum. */
  lemma {:induction false} EntryBelowSum<K>(m: map<K, nat>, k: K)
    ensures Get(m, k) <= Sum(m)
  {
    if k in m {
      SumRemove(m, k);
    }
  }
}
