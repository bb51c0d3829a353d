/** Adding up the values of a map, in whatever order its keys are met. */
module Sums {

  ghost function Sum<K>(m: map<K, int>): int {
    if m == map[] then 0
    else
      var k :| k in m;
      m[k] + Sum(m - {k})
  }

  /** Any key may be taken first. */
  lemma {:induction false} SumTakes<K>(m: map<K, int>, k: K)
    requires k in m
    ensures Sum(m) == m[k] + Sum(m - {k})
    decreases |m|
  {
    var first :| first in m && Sum(m) == m[first] + Sum(m - {first});
    if first == k {
    } else {
      SumTakes(m - {first}, k);
      SumTakes(m - {k}, first);
      assert m - {first} - {k} == m - {k} - {first};
    }
  }

  lemma SumAdds<K>(m: map<K, int>, k: K, v: int)
    requires k !in m
    ensures Sum(m[k := v]) == Sum(m) + v
  {
    SumTakes(m[k := v], k);
    assert m[k := v] - {k} == m;
  }

  lemma {:induction false} SumMonotone<K>(a: map<K, int>, b: map<K, int>)
    requires a.Keys == b.Keys && forall k :: k in a ==> a[k] <= b[k]
    ensures Sum(a) <= Sum(b)
    decreases |a|
  {
    if a == map[] {
    } else {
      var k :| k in a;
      SumTakes(a, k);
      SumTakes(b, k);
      SumMonotone(a - {k}, b - {k});
    }
  }

  /** `sum(m.values())`. */
  method SumValues<K(==)>(m: map<K, int>) returns (sum: int)
    ensures sum == Sum(m)
  {
    sum := 0;
    var left := m;
    while left != map[]
      invariant sum + Sum(left) == Sum(m)
      decreases |left|
    {
      var k :| k in left;
      SumTakes(left, k);
      sum := sum + left[k];
      left := left - {k};
    }
  }
}
