/** Sums over the values of a finite map. */
module MapSums {

  ghost function Sum<K(!new)>(m: map<K, int>): int {
    if m == map[] then 0
    else
      var k :| k in m;
      m[k] + Sum(m - {k})
  }

  lemma RemoveTwo<K(!new)>(m: map<K, int>, a: K, b: K)
    ensures m - {a} - {b} == m - {b} - {a}
  {
  }

  /** The order of summation does not matter. */
  lemma {:induction false} SumAny<K(!new)>(m: map<K, int>, k: K)
    requires k in m
    ensures Sum(m) == m[k] + Sum(m - {k})
    decreases |m|
  {
    var first :| first in m && Sum(m) == m[first] + Sum(m - {first});
    if first != k {
      SumAny(m - {first}, k);
      SumAny(m - {k}, first);
      RemoveTwo(m, first, k);
    }
  }

  lemma SumPut<K(!new)>(m: map<K, int>, k: K, v: int)
    ensures Sum(m[k := v]) == v + Sum(m - {k})
    ensures k in m ==> Sum(m[k := v]) == Sum(m) + v - m[k]
    ensures k !in m ==> Sum(m[k := v]) == Sum(m) + v
  {
    SumAny(m[k := v], k);
    assert m[k := v] - {k} == m - {k};
    if k in m {
      SumAny(m, k);
    } else {
      assert m - {k} == m;
    }
  }

  lemma {:induction false} SumNonNegative<K(!new)>(m: map<K, int>)
    requires forall k :: k in m ==> m[k] >= 0
    ensures Sum(m) >= 0
    ensures forall k :: k in m ==> m[k] <= Sum(m)
    decreases |m|
  {
    forall k | k in m ensures m[k] <= Sum(m) {
      SumAny(m, k);
      SumNonNegative(m - {k});
    }
    if m != map[] {
      var k :| k in m;
      assert m[k] <= Sum(m);
    }
  }
}
