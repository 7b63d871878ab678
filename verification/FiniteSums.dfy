/** Sums over the values of a finite map, and how they change with the map. */
module FiniteSums {

  ghost function SumMap<K>(m: map<K, int>): int {
    if m == map[] then 0
    else
      var k :| k in m;
      m[k] + SumMap(m - {k})
  }

  lemma SumMapEmpty<K>(m: map<K, int>)
    requires m == map[]
    ensures SumMap(m) == 0
  { }

  /** The sum does not depend on the order in which keys are taken out. */
  lemma {:induction false} SumMapRemove<K>(m: map<K, int>, k: K)
    requires k in m
    ensures SumMap(m) == m[k] + SumMap(m - {k})
    decreases |m|
  {
    var x :| x in m && SumMap(m) == m[x] + SumMap(m - {x});
    if x != k {
      SumMapRemove(m - {x}, k);
      SumMapRemove(m - {k}, x);
      assert m - {x} - {k} == m - {k} - {x};
    }
  }

  lemma SumMapUpdate<K>(m: map<K, int>, k: K, v: int)
    ensures SumMap(m[k := v]) == SumMap(m) - (if k in m then m[k] else 0) + v
  {
    SumMapRemove(m[k := v], k);
    assert m[k := v] - {k} == m - {k};
    if k in m {
      SumMapRemove(m, k);
    } else {
      assert m - {k} == m;
    }
  }

  lemma {:induction false} SumMapNonNegative<K>(m: map<K, int>)
    requires forall k :: k in m ==> m[k] >= 0
    ensures SumMap(m) >= 0
    decreases |m|
  {
    if m != map[] {
      var k :| k in m;
      SumMapRemove(m, k);
      SumMapNonNegative(m - {k});
    }
  }

  lemma {:induction false} SumMapZero<K>(m: map<K, int>)
    requires forall k :: k in m ==> m[k] == 0
    ensures SumMap(m) == 0
    decreases |m|
  {
    if m != map[] {
      var k :| k in m;
      SumMapRemove(m, k);
      SumMapZero(m - {k});
    }
  }

  function Max(a: int, b: int): int { if a < b then b else a }

  function Times(n: nat, x: real): real { n as real * x }

  lemma TimesStep(n: nat, x: real)
    ensures Times(0, x) == 0.0
    ensures Times(n + 1, x) == Times(n, x) + x
  { }

  /** Entries that are at least `low` add up to at least as many times that. */
  lemma {:induction false} SumAtLeast<K>(m: map<K, int>, low: int, n: nat)
    requires |m| == n && forall k :: k in m ==> m[k] >= low
    ensures SumMap(m) as real >= Times(n, low as real)
    decreases n
  {
    hide Times, SumMap;
    if n == 0 {
      TimesStep(0, low as real);
      SumMapEmpty(m);
    } else {
      TimesStep(n - 1, low as real);
      var k :| k in m;
      SumMapRemove(m, k);
      assert m.Keys == (m - {k}).Keys + {k};
      SumAtLeast(m - {k}, low, n - 1);
    }
  }
}
