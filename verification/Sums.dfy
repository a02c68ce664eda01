/** Sums over finite maps of integers, for conservation laws over the rows of a table. */
module Sums {

  ghost function Sum<K(!new)>(m: map<K, int>): int
    decreases |m|
  {
    if m == map[] then 0
    else
      var k :| k in m;
      Smaller(m, k);
      m[k] + Sum(m - {k})
  }

  lemma Smaller<K(!new)>(m: map<K, int>, k: K)
    requires k in m
    ensures |m - {k}| < |m|
  {
    assert (m - {k}).Keys == m.Keys - {k};
    assert |m.Keys - {k}| < |m.Keys|;
  }

  /** Any key may be taken out first. */
  lemma {:induction false} SumWithout<K(!new)>(m: map<K, int>, x: K)
    requires x in m
    ensures Sum(m) == m[x] + Sum(m - {x})
    decreases |m|
  {
    var k :| k in m && Sum(m) == m[k] + Sum(m - {k});
    if k != x {
      Smaller(m, k);
      Smaller(m, x);
      SumWithout(m - {k}, x);
      SumWithout(m - {x}, k);
      assert m - {k} - {x} == m - {x} - {k};
    }
  }

  lemma SumOfUpdate<K(!new)>(m: map<K, int>, x: K, v: int)
    ensures Sum(m[x := v]) == Sum(m) - (if x in m then m[x] else 0) + v
  {
    SumWithout(m[x := v], x);
    if x in m {
      SumWithout(m, x);
      assert m[x := v] - {x} == m - {x};
    } else {
      assert m[x := v] - {x} == m;
    }
  }

  lemma {:induction false} SumOfZeros<K(!new)>(m: map<K, int>)
    requires forall k :: k in m ==> m[k] == 0
    ensures Sum(m) == 0
    decreases |m|
  {
    if |m| == 0 {
      assert m == map[];
    } else {
      var k :| k in m;
      Smaller(m, k);
      SumOfZeros(m - {k});
      SumWithout(m, k);
    }
  }

  lemma UnionWithout<K(!new)>(a: map<K, int>, b: map<K, int>, k: K)
    requires a.Keys !! b.Keys && k in b
    ensures k in a + b && (a + b)[k] == b[k]
    ensures (a + b) - {k} == a + (b - {k})
    ensures a.Keys !! (b - {k}).Keys && |b - {k}| < |b|
  {
    Smaller(b, k);
  }

  lemma {:induction false} SumOfUnion<K(!new)>(a: map<K, int>, b: map<K, int>)
    requires a.Keys !! b.Keys
    ensures Sum(a + b) == Sum(a) + Sum(b)
    decreases |b|
  {
    if |b| == 0 {
      assert b == map[] && a + b == a;
    } else {
      var k :| k in b;
      UnionWithout(a, b, k);
      SumOfUnion(a, b - {k});
      SumWithout(b, k);
      SumWithout(a + b, k);
    }
  }
}
