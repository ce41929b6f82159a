/** Sums over the values of a finite map, with the three update laws the
    byte accounting of both retention stores rests on. */
module Sums {

  ghost function SumBy<K, V>(m: map<K, V>, f: V -> int): int
    decreases |m|
  {
    if m == map[] then 0
    else
      var k :| k in m;
      f(m[k]) + SumBy(m - {k}, f)
  }

  /** The sum does not depend on the order in which keys are taken out. */
  lemma {:induction false} SumSplit<K, V>(m: map<K, V>, f: V -> int, k: K)
    requires k in m
    ensures SumBy(m, f) == f(m[k]) + SumBy(m - {k}, f)
    decreases |m|
  {
    var c :| c in m && SumBy(m, f) == f(m[c]) + SumBy(m - {c}, f);
    if c != k {
      SumSplit(m - {c}, f, k);
      SumSplit(m - {k}, f, c);
      assert m - {c} - {k} == m - {k} - {c};
    }
  }

  lemma {:induction false} SumDrop<K, V>(m: map<K, V>, f: V -> int, k: K)
    ensures SumBy(m - {k}, f) == SumBy(m, f) - if k in m then f(m[k]) else 0
  {
    if k in m {
      SumSplit(m, f, k);
    } else {
      assert m - {k} == m;
    }
  }

  lemma {:induction false} SumPut<K, V>(m: map<K, V>, f: V -> int, k: K, v: V)
    ensures SumBy(m[k := v], f) == SumBy(m, f) + f(v) - if k in m then f(m[k]) else 0
  {
    SumSplit(m[k := v], f, k);
    assert m[k := v] - {k} == m - {k};
    SumDrop(m, f, k);
  }

  lemma {:induction false} SumNonNegative<K, V>(m: map<K, V>, f: V -> int)
    requires forall k | k in m :: f(m[k]) >= 0
    ensures SumBy(m, f) >= 0
    ensures forall k | k in m :: f(m[k]) <= SumBy(m, f)
    decreases |m|
  {
    if m != map[] {
      forall k | k in m ensures f(m[k]) <= SumBy(m, f) {
        SumSplit(m, f, k);
        SumNonNegative(m - {k}, f);
      }
      var k :| k in m;
      SumSplit(m, f, k);
    }
  }
}
