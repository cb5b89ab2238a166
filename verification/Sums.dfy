/** Sums of the values of finite maps. */
module Sums {

  ghost function Sum<K>(m: map<K, int>): int
    decreases |m|
  {
    if m == map[] then 0 else
    var k :| k in m;
    assert |m - {k}| < |m| by { assert (m - {k}).Keys == m.Keys - {k}; }
    m[k] + Sum(m - {k})
  }

  /** Any key may be taken out first. */
  lemma {:induction false} SumTake<K>(m: map<K, int>, k: K)
    requires k in m
    ensures Sum(m) == m[k] + Sum(m - {k})
    decreases |m|
  {
    var c :| c in m && Sum(m) == m[c] + Sum(m - {c});
    if c != k {
      assert (m - {c}).Keys == m.Keys - {c} && (m - {k}).Keys == m.Keys - {k};
      assert m - {c} - {k} == m - {k} - {c};
      SumTake(m - {c}, k);
      SumTake(m - {k}, c);
    }
  }

  lemma {:induction false} SumPut<K>(m: map<K, int>, k: K, x: int)
    requires k !in m
    ensures Sum(m[k := x]) == Sum(m) + x
  {
    SumTake(m[k := x], k);
    assert m[k := x] - {k} == m;
  }

  lemma {:induction false} SumUnion<K>(a: map<K, int>, b: map<K, int>)
    requires forall k {:trigger k in b} :: k in b ==> k !in a
    ensures Sum(a + b) == Sum(a) + Sum(b)
    decreases |b|
  {
    if b == map[] {
      assert a + b == a;
    } else {
      var k :| k in b;
      var c := b - {k};
      assert c.Keys == b.Keys - {k};
      SumUnion(a, c);
      SumTake(b, k);
      SumPut(a + c, k, b[k]);
      UnionStep(a, b, k);
    }
  }

  lemma {:induction false} UnionStep<K>(a: map<K, int>, b: map<K, int>, k: K)
    requires k in b
    ensures (a + (b - {k}))[k := b[k]] == a + b
  {
  }

  /** A sum of positive values is zero only when it is empty. */
  lemma {:induction false} SumPositive<K>(m: map<K, int>)
    requires forall k :: k in m ==> m[k] > 0
    ensures Sum(m) >= 0
    ensures Sum(m) == 0 <==> m == map[]
    decreases |m|
  {
    if m != map[] {
      var k :| k in m;
      assert (m - {k}).Keys == m.Keys - {k};
      SumTake(m, k);
      SumPositive(m - {k});
    }
  }
}
