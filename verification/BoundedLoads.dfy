/** The arithmetic of bounded loads: when an endpoint admits a request, when the search for one
    ends, and when the documented bound on the loads holds. */
module BoundedLoads {
  import opened FiniteSums

  /** The load of each endpoint. */
  type Loads = map<string, int>

  function Ceil(x: real): int { -((-x).Floor) }

  /** The load factor times the average load, rounded up. */
  function Limit(factor: real, totalLoad: int, numEndpoints: int): int
    requires numEndpoints != 0
  {
    var averageLoad := totalLoad as real / numEndpoints as real;
    Ceil(factor * averageLoad)
  }

  /** The incoming request counts in the total and in the endpoint's load. */
  predicate LoadOK(totalLoad: int, numEndpoints: int, endpointLoad: int, factor: real)
    requires numEndpoints != 0
  {
    endpointLoad + 1 <= Limit(factor, totalLoad + 1, numEndpoints)
  }

  lemma ProductIsNonNegative(x: real, y: real)
    requires x >= 0.0 && y >= 0.0
    ensures x * y >= 0.0
  { }

  lemma CeilAbove(x: real, n: int)
    ensures n + 1 <= Ceil(x) <==> (n as real) < x
  { }

  lemma ScaledOrder(x: real, y: real, m: real)
    requires m > 0.0
    ensures x < y <==> x * m < y * m
  {
    if x < y {
      assert (y - x) * m > 0.0;
    } else {
      ProductIsNonNegative(x - y, m);
      assert (x - y) * m == x * m - y * m;
    }
  }

  /** Free of rounding: an endpoint admits exactly when its load, times the number of endpoints,
      is below the factor times the new total. */
  lemma LoadOKIff(total: int, n: nat, load: int, factor: real)
    requires n > 0
    ensures LoadOK(total, n, load, factor) <==> load as real * n as real < factor * (total + 1) as real
  {
    var m, t := n as real, (total + 1) as real;
    var avg := t / m;
    var scaled := factor * avg;
    assert avg * m == t;
    assert scaled * m == factor * (avg * m);
    CeilAbove(scaled, load);
    ScaledOrder(load as real, scaled, m);
  }

  // ---------------------------------------------------------------- when the search ends

  /** Some endpoint admits the next request. */
  ghost predicate SomeoneAdmits(loads: Loads, factor: real) {
    exists k :: k in loads && LoadOK(SumMap(loads), |loads|, loads[k], factor)
  }

  ghost predicate LeastLoaded(loads: Loads, k: string) {
    k in loads && forall l :: l in loads ==> loads[k] <= loads[l]
  }

  lemma {:induction false} SomeoneIsLeastLoaded(loads: Loads) returns (k: string)
    requires loads != map[]
    ensures LeastLoaded(loads, k)
    decreases |loads|
  {
    var x :| x in loads;
    if loads.Keys == {x} {
      k := x;
    } else {
      assert (loads - {x}).Keys == loads.Keys - {x};
      k := SomeoneIsLeastLoaded(loads - {x});
      assert forall l :: l in loads ==> l == x || l in loads - {x};
      if loads[x] < loads[k] {
        k := x;
      }
    }
  }

  /** Some endpoint admits a request exactly when the least loaded one does; in numbers, when the
      least load times the number of endpoints is below the factor times the new total. */
  lemma SomeoneAdmitsIff(loads: Loads, factor: real, least: string)
    requires factor > 0.0 && LeastLoaded(loads, least)
    ensures SomeoneAdmits(loads, factor) <==> LoadOK(SumMap(loads), |loads|, loads[least], factor)
    ensures SomeoneAdmits(loads, factor)
            <==> loads[least] as real * |loads| as real < factor * (SumMap(loads) + 1) as real
  {
    hide Limit, SumMap;
    LoadOKIff(SumMap(loads), |loads|, loads[least], factor);
  }

  /** If `n` endpoints carry `total` requests, an endpoint with no more than the average can take
      one more: load + 1 <= ceil(factor * (total + 1) / n). */
  lemma BelowAverageAdmits(total: int, n: nat, load: int, factor: real)
    requires n > 0 && total >= 0 && factor > 1.0 && Times(n, load as real) <= total as real
    ensures LoadOK(total, n, load, factor)
  {
    var t := (total + 1) as real;
    ProductIsNonNegative(factor - 1.0, t);
    assert (factor - 1.0) * t == factor * t - t;
    LoadOKIff(total, n, load, factor);
  }

  /** Pigeonhole: with a load factor above 1 and a total that is not negative, some endpoint
      always admits the next request. */
  lemma MatchedLoadsAdmit(loads: Loads, factor: real)
    requires loads != map[] && SumMap(loads) >= 0 && factor > 1.0
    ensures SomeoneAdmits(loads, factor)
  {
    hide LoadOK, SumMap;
    var k := SomeoneIsLeastLoaded(loads);
    SumAtLeast(loads, loads[k], |loads|);
    BelowAverageAdmits(SumMap(loads), |loads|, loads[k], factor);
  }

  /** With unmatched releases it can be that nobody admits, and the search never ends. */
  lemma OverReleaseStallsSearch(a: string)
    ensures !SomeoneAdmits(map[a := -5], 1.25)
  {
    var loads := map[a := -5];
    SumMapRemove(loads, a);
    assert loads - {a} == map[];
    SomeoneAdmitsIff(loads, 1.25, a);
  }

  // ---------------------------------------------------------------- the documented load bound

  ghost predicate AllWithin(loads: Loads, limit: int) {
    forall k :: k in loads ==> loads[k] <= limit
  }

  /** "No endpoint has a load above loadFactor * averageLoad", rounded up as the code rounds it. */
  ghost predicate WithinBound(loads: Loads, factor: real) {
    loads == map[] || AllWithin(loads, Limit(factor, SumMap(loads), |loads|))
  }

  /** What the operations of the balancer do to the loads. */
  ghost predicate Admitted(loads: Loads, loads': Loads, factor: real, k: string) {
    k in loads && LoadOK(SumMap(loads), |loads|, loads[k], factor) && loads' == loads[k := loads[k] + 1]
  }

  ghost predicate Released(loads: Loads, loads': Loads, k: string) {
    k in loads && loads' == loads[k := loads[k] - 1]
  }

  ghost predicate Enrolled(loads: Loads, loads': Loads) {
    && (forall k :: k in loads ==> k in loads' && loads'[k] == loads[k])
    && (forall k :: k in loads' && k !in loads ==> loads'[k] == 0)
  }

  ghost predicate Retired(loads: Loads, loads': Loads) {
    forall k :: k in loads' ==> k in loads && loads'[k] == loads[k]
  }

  lemma CeilMonotone(x: real, y: real)
    requires x <= y
    ensures Ceil(x) <= Ceil(y)
  { }

  lemma LimitMonotone(factor: real, n: nat, t: int, u: int)
    requires factor >= 0.0 && n > 0 && t <= u
    ensures Limit(factor, t, n) <= Limit(factor, u, n)
  {
    var a, b := t as real / n as real, u as real / n as real;
    assert (b - a) * n as real == (u - t) as real;
    assert b - a >= 0.0;
    ProductIsNonNegative(factor, b - a);
    assert factor * (b - a) == factor * b - factor * a;
    CeilMonotone(factor * a, factor * b);
  }

  lemma LoadChange(loads: Loads, k: string, load: int)
    requires k in loads
    ensures SumMap(loads[k := load]) == SumMap(loads) - loads[k] + load
    ensures |loads[k := load]| == |loads|
  {
    SumMapUpdate(loads, k, load);
    assert loads[k := load].Keys == loads.Keys;
  }

  /** Admission. The endpoint that admits is within the bound; all are exactly when all loads were
      within the limit for one request more, and in particular when they were within the bound. */
  lemma AdmissionAndBound(loads: Loads, loads': Loads, factor: real, k: string, total': int)
    requires factor > 1.0 && Admitted(loads, loads', factor, k) && total' == SumMap(loads) + 1
    ensures loads'[k] <= Limit(factor, SumMap(loads'), |loads'|)
    ensures WithinBound(loads', factor) <==> AllWithin(loads, Limit(factor, total', |loads|))
    ensures WithinBound(loads, factor) ==> WithinBound(loads', factor)
  {
    hide Limit, SumMap;
    LoadChange(loads, k, loads[k] + 1);
    LimitMonotone(factor, |loads|, SumMap(loads), total');
    assert forall l :: l in loads <==> l in loads';
  }

  /** Release, matched or not. */
  lemma ReleaseAndBound(loads: Loads, loads': Loads, factor: real, k: string, total': int)
    requires Released(loads, loads', k) && total' == SumMap(loads) - 1
    ensures WithinBound(loads', factor)
            <==> loads[k] - 1 <= Limit(factor, total', |loads|)
                 && forall l :: l in loads && l != k ==> loads[l] <= Limit(factor, total', |loads|)
  {
    hide Limit, SumMap;
    LoadChange(loads, k, loads[k] - 1);
    assert forall l :: l in loads <==> l in loads';
  }

  /** Registering endpoints lowers the average. */
  lemma EnrolmentAndBound(loads: Loads, loads': Loads, factor: real, n: nat)
    requires Enrolled(loads, loads') && n == |loads'| && n > 0
    ensures WithinBound(loads', factor)
            <==> AllWithin(loads, Limit(factor, SumMap(loads), n))
                 && (loads'.Keys != loads.Keys ==> 0 <= Limit(factor, SumMap(loads), n))
  {
    hide Limit, SumMap;
    EnrolmentKeepsSum(loads, loads');
    var limit := Limit(factor, SumMap(loads), n);
    if loads'.Keys != loads.Keys {
      var l :| l in loads' && l !in loads;
      assert loads'[l] == 0;
    }
    if AllWithin(loads', limit) {
      forall l | l in loads
        ensures loads[l] <= limit
      {
        assert loads'[l] <= limit;
      }
    }
  }

  lemma {:induction false} EnrolmentKeepsSum(loads: Loads, loads': Loads)
    requires Enrolled(loads, loads')
    ensures SumMap(loads') == SumMap(loads)
    decreases |loads'|
  {
    hide SumMap;
    if k :| k in loads' && k !in loads {
      assert loads'.Keys == (loads' - {k}).Keys + {k};
      EnrolmentKeepsSum(loads, loads' - {k});
      SumMapRemove(loads', k);
    } else {
      assert loads'.Keys == loads.Keys;
      assert loads' == loads;
    }
  }

  function Share(loads: Loads, keys: set<string>): Loads { map k | k in loads && k in keys :: loads[k] }

  /** Dropping endpoints takes their loads out of the total. */
  lemma RetirementAndBound(loads: Loads, keys: set<string>, factor: real, total': int, n: nat)
    requires total' == SumMap(loads) - SumMap(Share(loads, keys)) && n == |loads| - |Share(loads, keys)|
    ensures n == |loads - keys| && total' == SumMap(loads - keys)
    ensures n > 0 ==>
      (WithinBound(loads - keys, factor)
       <==> forall l :: l in loads && l !in keys ==> loads[l] <= Limit(factor, total', n))
  {
    hide Limit, SumMap;
    SumSplit(loads, keys);
    CountSplit(loads, keys);
    var left := loads - keys;
    assert forall l :: l in left <==> l in loads && l !in keys;
  }

  lemma CountSplit(loads: Loads, keys: set<string>)
    ensures |loads| == |loads - keys| + |Share(loads, keys)|
  {
    assert loads.Keys == (loads - keys).Keys + Share(loads, keys).Keys;
    assert (loads - keys).Keys !! Share(loads, keys).Keys;
  }

  lemma {:induction false} SumSplit(loads: Loads, keys: set<string>)
    ensures SumMap(loads) == SumMap(loads - keys) + SumMap(Share(loads, keys))
    decreases loads.Keys
  {
    hide SumMap;
    var left, share := loads - keys, Share(loads, keys);
    if loads == map[] {
      SumMapEmpty(loads);
      SumMapEmpty(left);
      SumMapEmpty(share);
    } else {
      var k :| k in loads;
      SumSplit(loads - {k}, keys);
      SumMapRemove(loads, k);
      if k in keys {
        assert loads - {k} - keys == left && Share(loads - {k}, keys) == share - {k};
        SumMapRemove(share, k);
      } else {
        assert loads - {k} - keys == left - {k} && Share(loads - {k}, keys) == share;
        SumMapRemove(left, k);
      }
    }
  }

  // ---------------------------------------------------------------- matched releases

  lemma TwoEntriesAtMostSum(loads: Loads, k: string, l: string)
    requires k in loads && l in loads && k != l && forall x :: x in loads ==> loads[x] >= 0
    ensures loads[k] + loads[l] <= SumMap(loads)
  {
    hide SumMap;
    SumMapRemove(loads, k);
    SumMapRemove(loads - {k}, l);
    SumMapNonNegative(loads - {k} - {l});
  }

  lemma EntryAtMostSum(loads: Loads, k: string)
    requires k in loads && forall l :: l in loads ==> loads[l] >= 0
    ensures loads[k] <= SumMap(loads)
  {
    hide SumMap;
    SumMapRemove(loads, k);
    SumMapNonNegative(loads - {k});
  }

  /** One request less lowers the limit by at most one, when the factor is at most the number of
      endpoints; otherwise the limit is above the whole remaining load anyway. */
  lemma LimitAfterRelease(factor: real, total: int, n: nat, load: int)
    requires factor > 1.0 && n > 0 && total >= 1
    requires load <= Limit(factor, total, n) && load <= total
    ensures load - 1 <= Limit(factor, total - 1, n)
  {
    var m := n as real;
    var t, u := total as real, (total - 1) as real;
    var avg, avg' := t / m, u / m;
    var x, y := factor * avg, factor * avg';
    assert m * avg == t && m * avg' == u;
    assert m * (avg - avg') == 1.0;
    if factor <= m {
      assert avg - avg' > 0.0;
      ProductIsNonNegative(m - factor, avg - avg');
      assert (m - factor) * (avg - avg') == m * (avg - avg') - (x - y);
      CeilDrop(x, y);
    } else {
      assert avg' >= 0.0;
      ProductIsNonNegative(factor - m, avg');
      assert (factor - m) * avg' == y - u;
      CeilAbove(y, total - 2);
    }
  }

  lemma CeilDrop(x: real, y: real)
    requires x - y <= 1.0
    ensures Ceil(x) - 1 <= Ceil(y)
  { }

  /** A matched release breaks the bound exactly when it lowers the limit while another endpoint
      is full. */
  lemma ReleaseKeepsBoundIff(loads: Loads, loads': Loads, factor: real, k: string, total': int)
    requires Released(loads, loads', k) && loads[k] > 0 && factor > 1.0 && total' == SumMap(loads) - 1
    requires WithinBound(loads, factor) && forall l :: l in loads ==> loads[l] >= 0
    ensures WithinBound(loads', factor)
            <==> Limit(factor, total', |loads|) >= Limit(factor, SumMap(loads), |loads|)
                 || forall l :: l in loads && l != k ==> loads[l] < Limit(factor, SumMap(loads), |loads|)
  {
    hide Limit, SumMap;
    var n, limit, limit' := |loads|, Limit(factor, SumMap(loads), |loads|), Limit(factor, total', |loads|);
    ReleaseAndBound(loads, loads', factor, k, total');
    EntryAtMostSum(loads, k);
    LimitAfterRelease(factor, SumMap(loads), n, loads[k]);
    forall l | l in loads && l != k
      ensures loads[l] <= limit' <==> limit' >= limit || loads[l] < limit
    {
      TwoEntriesAtMostSum(loads, k, l);
      if loads[l] < limit {
        LimitAfterRelease(factor, SumMap(loads), n, loads[l] + 1);
      }
    }
  }

  // ---------------------------------------------------------------- whole runs

  ghost predicate LoadStep(loads: Loads, loads': Loads, factor: real) {
    || loads' == loads
    || (exists k :: Admitted(loads, loads', factor, k))
    || (exists k :: Released(loads, loads', k))
    || Enrolled(loads, loads')
    || Retired(loads, loads')
  }

  ghost predicate IsRun(run: seq<Loads>, factor: real) {
    run != [] && forall i :: 0 <= i < |run| - 1 ==> LoadStep(run[i], run[i + 1], factor)
  }

  ghost function LimitOf(loads: Loads, factor: real): int {
    if loads == map[] then 0 else Limit(factor, SumMap(loads), |loads|)
  }

  /** The greatest limit in force at any moment up to `i`. */
  ghost function PeakLimit(run: seq<Loads>, factor: real, i: nat): int
    requires i < |run|
  {
    var now := LimitOf(run[i], factor);
    if i == 0 then now else Max(PeakLimit(run, factor, i - 1), now)
  }

  /** The greatest total load at any moment up to `i`. */
  ghost function PeakTotal(run: seq<Loads>, i: nat): int
    requires i < |run|
  {
    if i == 0 then SumMap(run[0]) else Max(PeakTotal(run, i - 1), SumMap(run[i]))
  }

  lemma StepBound(loads: Loads, loads': Loads, factor: real, k: string)
    requires factor > 1.0 && LoadStep(loads, loads', factor) && k in loads'
    ensures || loads'[k] <= LimitOf(loads', factor)
            || (k in loads && loads'[k] <= loads[k])
            || (k !in loads && loads'[k] == 0)
  {
    hide SumMap, Limit, LoadOK;
    if l :| Admitted(loads, loads', factor, l) {
      AdmissionAndBound(loads, loads', factor, l, SumMap(loads) + 1);
    }
  }

  /** Whatever the balancer goes through, starting empty, no load ever exceeds the greatest limit
      that was in force so far. */
  lemma {:induction false} LoadsStayBelowPeakLimit(run: seq<Loads>, factor: real, i: nat)
    requires factor > 1.0 && IsRun(run, factor) && run[0] == map[] && i < |run|
    ensures 0 <= PeakLimit(run, factor, i) && AllWithin(run[i], PeakLimit(run, factor, i))
  {
    hide LoadStep, Limit, SumMap;
    if i > 0 {
      LoadsStayBelowPeakLimit(run, factor, i - 1);
      assert LoadStep(run[i - 1], run[i - 1 + 1], factor);
      forall k | k in run[i]
        ensures run[i][k] <= PeakLimit(run, factor, i)
      {
        StepBound(run[i - 1], run[i], factor, k);
      }
    }
  }

  /** While the endpoints stay the same, every load is within the factor times the average of the
      greatest total so far, rounded up: what the documented bound is while the total grows. */
  lemma {:induction false} FixedEndpointsStayBelowPeak(run: seq<Loads>, factor: real, i: nat)
    requires factor > 1.0 && IsRun(run, factor) && i < |run|
    requires run[0] != map[] && WithinBound(run[0], factor)
    requires forall j :: 0 <= j < |run| ==> run[j].Keys == run[0].Keys
    ensures AllWithin(run[i], Limit(factor, PeakTotal(run, i), |run[0]|))
  {
    hide LoadStep, Limit, SumMap;
    if i > 0 {
      var n := |run[0]|;
      FixedEndpointsStayBelowPeak(run, factor, i - 1);
      assert LoadStep(run[i - 1], run[i - 1 + 1], factor);
      assert |run[i].Keys| == n;
      var before, now, peak := PeakTotal(run, i - 1), SumMap(run[i]), PeakTotal(run, i);
      LimitMonotone(factor, n, before, peak);
      LimitMonotone(factor, n, now, peak);
      forall k | k in run[i]
        ensures run[i][k] <= Limit(factor, peak, n)
      {
        StepBound(run[i - 1], run[i], factor, k);
        assert k in run[i - 1];
      }
    }
  }

  // ---------------------------------------------------------------- the bound does not last

  /** `loads` is reached by `run`, from an empty balancer with a load factor of 1.25. */
  ghost predicate Reaches(run: seq<Loads>, loads: Loads, total: int, n: nat) {
    && IsRun(run, 1.25) && run[0] == map[] && run[|run| - 1] == loads
    && SumMap(loads) == total && |loads| == n
  }

  lemma AppendStep(run: seq<Loads>, loads: Loads)
    requires IsRun(run, 1.25) && LoadStep(run[|run| - 1], loads, 1.25)
    ensures IsRun(run + [loads], 1.25)
  {
    hide LoadStep;
  }

  lemma IdleStart(loads: Loads, n: nat) returns (run: seq<Loads>)
    requires |loads| == n && forall k :: k in loads ==> loads[k] == 0
    ensures Reaches(run, loads, 0, n)
  {
    SumMapZero(loads);
    run := [map[], loads];
    assert Enrolled(run[0], run[1]);
  }

  lemma OneMore(run: seq<Loads>, loads: Loads, total: int, n: nat, k: string) returns (run': seq<Loads>)
    requires Reaches(run, loads, total, n) && k in loads
    requires loads[k] as real * n as real < 1.25 * (total + 1) as real
    ensures Reaches(run', loads[k := loads[k] + 1], total + 1, n)
  {
    hide LoadOK, SumMap;
    LoadOKIff(total, n, loads[k], 1.25);
    LoadChange(loads, k, loads[k] + 1);
    assert Admitted(loads, loads[k := loads[k] + 1], 1.25, k);
    AppendStep(run, loads[k := loads[k] + 1]);
    run' := run + [loads[k := loads[k] + 1]];
  }

  lemma SmallLimits()
    ensures Limit(1.25, 3, 2) == 2 && Limit(1.25, 4, 2) == 3 && Limit(1.25, 3, 1) == 4 && Limit(1.25, 6, 3) == 3
  {
    assert 1.25 * (3 as real / 2 as real) == 1.875;
    assert 1.25 * (4 as real / 2 as real) == 2.5;
    assert 1.25 * (3 as real / 1 as real) == 3.75;
    assert 1.25 * (6 as real / 3 as real) == 2.5;
  }

  lemma AtTheLimit(run: seq<Loads>, loads: Loads, total: int, n: nat)
    requires Reaches(run, loads, total, n) && n > 0 && AllWithin(loads, Limit(1.25, total, n))
    ensures WithinBound(loads, 1.25) && SumMap(loads) == total && |loads| == n
  { }

  lemma ThreeOfThreeIsTooMuch(loads: Loads, k: string)
    requires k in loads && loads[k] == 3 && SumMap(loads) == 3 && |loads| == 2
    ensures !WithinBound(loads, 1.25)
  {
    hide Limit;
    SmallLimits();
  }

  /** One endpoint finishes its only request, and the other is above the bound. */
  lemma ReleaseBreaksBound(a: string, b: string) returns (run: seq<Loads>, before: Loads, after: Loads)
    requires a != b
    ensures Reaches(run, before, 4, 2) && WithinBound(before, 1.25)
    ensures Released(before, after, b) && !WithinBound(after, 1.25)
  {
    hide Reaches, WithinBound, Limit, SumMap;
    var idle: Loads := map[a := 0, b := 0];
    assert idle.Keys == {a, b};
    run := IdleStart(idle, 2);
    run := OneMore(run, idle, 0, 2, a);
    run := OneMore(run, idle[a := 1], 1, 2, b);
    run := OneMore(run, idle[a := 1][b := 1], 2, 2, a);
    run := OneMore(run, idle[a := 1][b := 1][a := 2], 3, 2, a);
    before := idle[a := 1][b := 1][a := 2][a := 3];
    after := before[b := 0];
    SmallLimits();
    AtTheLimit(run, before, 4, 2);
    LoadChange(before, b, 0);
    ThreeOfThreeIsTooMuch(after, a);
  }

  /** Three requests on the only endpoint are within the bound until a second one joins. */
  lemma AddingBreaksBound(a: string, b: string) returns (run: seq<Loads>, before: Loads, after: Loads)
    requires a != b
    ensures Reaches(run, before, 3, 1) && WithinBound(before, 1.25)
    ensures after == before[b := 0] && Enrolled(before, after) && !WithinBound(after, 1.25)
  {
    hide Reaches, WithinBound, Limit, SumMap;
    var idle: Loads := map[a := 0];
    assert idle.Keys == {a};
    run := IdleStart(idle, 1);
    run := OneMore(run, idle, 0, 1, a);
    run := OneMore(run, idle[a := 1], 1, 1, a);
    run := OneMore(run, idle[a := 1][a := 2], 2, 1, a);
    before := idle[a := 1][a := 2][a := 3];
    after := before[b := 0];
    SmallLimits();
    AtTheLimit(run, before, 3, 1);
    EnrolmentKeepsSum(before, after);
    assert after.Keys == {a, b};
    ThreeOfThreeIsTooMuch(after, a);
  }

  /** One more request each for two of three endpoints. */
  lemma OneMoreEach(run: seq<Loads>, loads: Loads, x: nat, a: string, b: string) returns (run': seq<Loads>)
    requires Reaches(run, loads, 2 * x, 3) && a != b && x <= 2
    requires a in loads && b in loads && loads[a] == loads[b] == x
    ensures Reaches(run', loads[a := x + 1][b := x + 1], 2 * x + 2, 3)
  {
    hide Reaches;
    run' := OneMore(run, loads, 2 * x, 3, a);
    run' := OneMore(run', loads[a := x + 1], 2 * x + 1, 3, b);
  }

  /** Two endpoints carry three requests each and a third none; without one of the two, the other
      is above the bound. */
  lemma RemovingBreaksBound(a: string, b: string, c: string) returns (run: seq<Loads>, before: Loads, after: Loads)
    requires a != b && b != c && c != a
    ensures Reaches(run, before, 6, 3) && WithinBound(before, 1.25)
    ensures after == before - {b} && !WithinBound(after, 1.25)
  {
    hide Reaches, WithinBound, Limit, SumMap;
    before := map[a := 0, b := 0, c := 0];
    assert before.Keys == {a, b, c};
    run := IdleStart(before, 3);
    for x := 0 to 3
      invariant Reaches(run, before, 2 * x, 3)
      invariant before.Keys == {a, b, c} && before[a] == before[b] == x && before[c] == 0
    {
      run := OneMoreEach(run, before, x, a, b);
      before := before[a := x + 1][b := x + 1];
    }
    after := before - {b};
    SmallLimits();
    AtTheLimit(run, before, 6, 3);
    SumMapRemove(before, b);
    assert after.Keys == {a, c};
    ThreeOfThreeIsTooMuch(after, a);
  }
}
