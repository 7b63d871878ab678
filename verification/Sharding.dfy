/** Longest-first greedy sharding of tests, and how far it can be from the best sharding. */
module Sharding {
  import opened FiniteSums
  import opened Seqs

  type Shards = seq<seq<string>>
  type Costs = string -> real

  function Load(f: Costs, tests: seq<string>): real {
    if tests == [] then 0.0 else Load(f, tests[..|tests| - 1]) + f(tests[|tests| - 1])
  }

  function Flatten(shards: Shards): seq<string> {
    if shards == [] then [] else Flatten(shards[..|shards| - 1]) + shards[|shards| - 1]
  }

  /** `shards` distributes exactly the given tests over `m` shards. */
  ghost predicate Partitions(shards: Shards, m: nat, tests: seq<string>) {
    |shards| == m && multiset(Flatten(shards)) == multiset(tests)
  }

  /** No shard takes longer than `limit`. */
  ghost predicate Within(f: Costs, shards: Shards, limit: real) {
    forall s :: 0 <= s < |shards| ==> Load(f, shards[s]) <= limit
  }

  ghost predicate NonNegative(f: Costs) {
    forall t :: f(t) >= 0.0
  }

  predicate Ascending(f: Costs, tests: seq<string>) {
    forall i, j :: 0 <= i < j < |tests| ==> f(tests[i]) <= f(tests[j])
  }

  // ---------------------------------------------------------------- the algorithm

  /** The stable ascending sort of the tests by cost. */
  function SortByCost(f: Costs, tests: seq<string>): (r: seq<string>)
    ensures Ascending(f, r) && multiset(r) == multiset(tests)
  {
    SortBy((a: string, b: string) => f(a) <= f(b), tests)
  }

  /** The first of the least loaded shards. */
  function Shortest(f: Costs, shards: Shards): (s: nat)
    requires shards != []
    ensures s < |shards|
    ensures forall i :: 0 <= i < |shards| ==> Load(f, shards[s]) <= Load(f, shards[i])
    ensures forall i :: 0 <= i < s ==> Load(f, shards[s]) < Load(f, shards[i])
  {
    if |shards| == 1 then 0
    else
      var n := |shards| - 1;
      var s := Shortest(f, shards[..n]);
      assert forall i :: 0 <= i < n ==> shards[..n][i] == shards[i];
      if Load(f, shards[n]) < Load(f, shards[s]) then n else s
  }

  function Place(f: Costs, shards: Shards, t: string): (r: Shards)
    requires shards != []
    ensures |r| == |shards|
  {
    var s := Shortest(f, shards);
    shards[s := shards[s] + [t]]
  }

  /** Takes the pending tests from the back, the costliest first. */
  function Greedy(f: Costs, pending: seq<string>, shards: Shards): (r: Shards)
    requires shards != []
    ensures |r| == |shards|
    decreases |pending|
  {
    if pending == [] then shards
    else Greedy(f, pending[..|pending| - 1], Place(f, shards, pending[|pending| - 1]))
  }

  function EmptyShards(m: nat): Shards { seq(m, _ => []) }

  function GreedySchedule(f: Costs, tests: seq<string>, m: nat): Shards
    requires m > 0
  {
    Greedy(f, SortByCost(f, tests), EmptyShards(m))
  }

  method FindShortest(f: Costs, shards: Shards) returns (s: nat)
    requires shards != []
    ensures s == Shortest(f, shards)
  {
    s := 0;
    for i := 1 to |shards|
      invariant s < i && s == Shortest(f, shards[..i])
    {
      assert shards[..i + 1][..i] == shards[..i];
      if Load(f, shards[i]) < Load(f, shards[s]) {
        s := i;
      }
    }
    assert shards[..|shards|] == shards;
  }

  method ComputeShards(f: Costs, tests: seq<string>, m: nat) returns (shards: Shards)
    requires m > 0
    ensures shards == GreedySchedule(f, tests, m)
    ensures Partitions(shards, m, tests)
  {
    var pending := SortByCost(f, tests);
    shards := EmptyShards(m);
    while pending != []
      invariant |shards| == m
      invariant Greedy(f, pending, shards) == GreedySchedule(f, tests, m)
      decreases |pending|
    {
      var t := pending[|pending| - 1];
      pending := pending[..|pending| - 1];
      var s := FindShortest(f, shards);
      shards := shards[s := shards[s] + [t]];
    }
    GreedyPartitions(f, tests, m);
  }

  // ---------------------------------------------------------------- sums and permutations

  lemma {:induction false} LoadConcat(f: Costs, a: seq<string>, b: seq<string>)
    ensures Load(f, a + b) == Load(f, a) + Load(f, b)
  {
    if b == [] {
      assert a + b == a;
    } else {
      assert (a + b)[..|a + b| - 1] == a + b[..|b| - 1];
      LoadConcat(f, a, b[..|b| - 1]);
    }
  }

  lemma LoadOfSplit(f: Costs, a: seq<string>, t: string, b: seq<string>)
    ensures Load(f, a + [t] + b) == Load(f, a) + f(t) + Load(f, b)
  {
    LoadConcat(f, a + [t], b);
    assert (a + [t])[..|a|] == a;
  }

  lemma {:induction false} LoadRemove(f: Costs, a: seq<string>, i: nat)
    requires i < |a|
    ensures Load(f, a) == f(a[i]) + Load(f, a[..i] + a[i + 1..])
    ensures multiset(a[..i] + a[i + 1..]) == multiset(a) - multiset{a[i]}
  {
    assert a == a[..i] + ([a[i]] + a[i + 1..]);
    LoadConcat(f, a[..i], [a[i]] + a[i + 1..]);
    LoadConcat(f, [a[i]], a[i + 1..]);
    LoadConcat(f, a[..i], a[i + 1..]);
    assert [a[i]][..0] == [];
  }

  /** A load depends only on which tests there are, not on their order. */
  lemma {:induction false} LoadPermutation(f: Costs, a: seq<string>, b: seq<string>)
    requires multiset(a) == multiset(b)
    ensures Load(f, a) == Load(f, b)
    decreases |a|
  {
    assert |a| == |multiset(a)| && |b| == |multiset(b)|;
    if a != [] {
      var t := a[0];
      assert t in multiset(a);
      var i :| 0 <= i < |b| && b[i] == t;
      LoadRemove(f, a, 0);
      LoadRemove(f, b, i);
      LoadPermutation(f, a[..0] + a[1..], b[..i] + b[i + 1..]);
    }
  }

  lemma {:induction false} TotalAtLeast(f: Costs, shards: Shards, lo: real)
    requires forall s :: 0 <= s < |shards| ==> lo <= Load(f, shards[s])
    ensures Times(|shards|, lo) <= Load(f, Flatten(shards))
  {
    hide Times;
    TimesStep(0, lo);
    if shards != [] {
      var n := |shards| - 1;
      TotalAtLeast(f, shards[..n], lo);
      LoadConcat(f, Flatten(shards[..n]), shards[n]);
      TimesStep(n, lo);
    }
  }

  lemma {:induction false} TotalAtMost(f: Costs, shards: Shards, hi: real)
    requires Within(f, shards, hi)
    ensures Load(f, Flatten(shards)) <= Times(|shards|, hi)
  {
    hide Times;
    TimesStep(0, hi);
    if shards != [] {
      var n := |shards| - 1;
      TotalAtMost(f, shards[..n], hi);
      LoadConcat(f, Flatten(shards[..n]), shards[n]);
      TimesStep(n, hi);
    }
  }

  lemma {:induction false} FlattenAppend(shards: Shards, s: nat, t: string)
    requires s < |shards|
    ensures multiset(Flatten(shards[s := shards[s] + [t]])) == multiset(Flatten(shards)) + multiset{t}
  {
    var n := |shards| - 1;
    var more := shards[s := shards[s] + [t]];
    if s == n {
      assert more[..n] == shards[..n];
    } else {
      FlattenAppend(shards[..n], s, t);
      assert more[..n] == shards[..n][s := shards[..n][s] + [t]];
    }
  }

  lemma {:induction false} FlattenEmpty(m: nat)
    ensures Flatten(EmptyShards(m)) == []
  {
    if m > 0 {
      assert EmptyShards(m)[..m - 1] == EmptyShards(m - 1);
      FlattenEmpty(m - 1);
    }
  }

  lemma {:induction false} GreedyKeepsTests(f: Costs, pending: seq<string>, shards: Shards)
    requires shards != []
    ensures multiset(Flatten(Greedy(f, pending, shards))) == multiset(pending) + multiset(Flatten(shards))
    decreases |pending|
  {
    if pending != [] {
      var init, t := pending[..|pending| - 1], pending[|pending| - 1];
      assert pending == init + [t];
      GreedyKeepsTests(f, init, Place(f, shards, t));
      FlattenAppend(shards, Shortest(f, shards), t);
    }
  }

  /** Every test lands on exactly one shard, as often as it was asked for. */
  lemma GreedyPartitions(f: Costs, tests: seq<string>, m: nat)
    requires m > 0
    ensures Partitions(GreedySchedule(f, tests, m), m, tests)
  {
    GreedyKeepsTests(f, SortByCost(f, tests), EmptyShards(m));
    FlattenEmpty(m);
  }

  // ---------------------------------------------------------------- the approximation bound

  /** How much room a test takes on a shard of limit `O` when only tests of cost `c` or more
      matter: none, one place, or, if nothing else fits beside it, both. */
  function Weight(f: Costs, c: real, O: real): Costs {
    (t: string) => if f(t) < c then 0.0 else if f(t) > O - c then 2.0 else 1.0
  }

  /** A shard within `O` has at most two places when `3c > O`. */
  lemma {:induction false} ShardWeight(f: Costs, c: real, O: real, shard: seq<string>)
    requires NonNegative(f) && 0.0 <= c && 3.0 * c > O
    ensures Load(f, shard) >= 0.0
    ensures Load(Weight(f, c, O), shard) >= 0.0
    ensures Load(Weight(f, c, O), shard) > 0.0 ==> Load(f, shard) >= c
    ensures Load(Weight(f, c, O), shard) > 1.0 ==> Load(f, shard) >= 2.0 * c || Load(f, shard) > O - c
    ensures Load(Weight(f, c, O), shard) > 2.0 ==> Load(f, shard) > O
  {
    if shard != [] {
      ShardWeight(f, c, O, shard[..|shard| - 1]);
    }
  }

  /** A shard of tests of cost `c` or more that has no room for one more fills both places. */
  lemma FullShardWeight(f: Costs, c: real, O: real, shard: seq<string>)
    requires NonNegative(f) && 0.0 <= c <= O && 3.0 * c > O
    requires forall t :: t in shard ==> f(t) >= c
    requires Load(f, shard) > O - c
    ensures Load(Weight(f, c, O), shard) >= 2.0
  {
    var n := |shard| - 1;
    var w := Weight(f, c, O);
    assert shard[n] in shard;
    if n == 0 {
      assert Load(f, shard[..0]) == 0.0 && Load(w, shard[..0]) == 0.0;
    } else {
      assert shard[n - 1] in shard;
      ShardWeight(f, c, O, shard[..n][..n - 1]);
    }
  }

  lemma PlacesOffered(f: Costs, c: real, O: real, other: Shards)
    requires NonNegative(f) && 0.0 <= c && 3.0 * c > O
    requires Within(f, other, O)
    ensures Load(Weight(f, c, O), Flatten(other)) <= Times(|other|, 2.0)
  {
    hide Times, Weight;
    forall s | 0 <= s < |other|
      ensures Load(Weight(f, c, O), other[s]) <= 2.0
    {
      ShardWeight(f, c, O, other[s]);
    }
    TotalAtMost(Weight(f, c, O), other, 2.0);
  }

  lemma PlacesNeeded(f: Costs, O: real, shards: Shards, t: string, rest: seq<string>)
    requires NonNegative(f) && f(t) <= O && 3.0 * f(t) > O
    requires forall s, u :: 0 <= s < |shards| && u in shards[s] ==> f(u) >= f(t)
    requires forall s :: 0 <= s < |shards| ==> Load(f, shards[s]) > O - f(t)
    ensures Load(Weight(f, f(t), O), Flatten(shards) + [t] + rest) >= Times(|shards|, 2.0) + 1.0
  {
    hide Times;
    var w := Weight(f, f(t), O);
    forall s | 0 <= s < |shards|
      ensures 2.0 <= Load(w, shards[s])
    {
      FullShardWeight(f, f(t), O, shards[s]);
    }
    TotalAtLeast(w, shards, 2.0);
    LoadOfSplit(w, Flatten(shards), t, rest);
    ShardWeight(f, f(t), O, rest);
  }

  /** When the next test is longer than a third of `O`, the shortest shard still has room:
      otherwise the tests at hand would need more places than `m` shards of limit `O` offer. */
  lemma LongTestFits(f: Costs, shards: Shards, t: string, rest: seq<string>, other: Shards, O: real)
    requires NonNegative(f) && shards != [] && |other| == |shards|
    requires Within(f, other, O)
    requires multiset(Flatten(other)) == multiset(Flatten(shards) + [t] + rest)
    requires forall s, u :: 0 <= s < |shards| && u in shards[s] ==> f(u) >= f(t)
    requires 3.0 * f(t) > O && f(t) <= O
    ensures Load(f, shards[Shortest(f, shards)]) + f(t) <= O
  {
    hide Times, Weight, Load, Flatten;
    if Load(f, shards[Shortest(f, shards)]) > O - f(t) {
      PlacesOffered(f, f(t), O, other);
      PlacesNeeded(f, O, shards, t, rest);
      LoadPermutation(Weight(f, f(t), O), Flatten(other), Flatten(shards) + [t] + rest);
    }
  }

  /** A shorter test may overshoot, but by no more than its own length over the average. */
  lemma ShortTestBound(
      f: Costs, shards: Shards, L: real, t: string, rest: seq<string>, other: Shards, O: real, load: real)
    requires NonNegative(f) && shards != [] && |other| == |shards|
    requires Within(f, other, O)
    requires multiset(Flatten(other)) == multiset(Flatten(shards) + [t] + rest)
    requires forall s :: 0 <= s < |shards| ==> L <= Load(f, shards[s])
    requires 3.0 * f(t) <= O && load == L + f(t)
    ensures Excess(|shards|, load, O) <= 0.0
  {
    hide Times, Excess, Load, Flatten;
    TotalAtLeast(f, shards, L);
    TotalAtMost(f, other, O);
    LoadPermutation(f, Flatten(other), Flatten(shards) + [t] + rest);
    LoadOfSplit(f, Flatten(shards), t, rest);
    LoadIsNonNegative(f, rest);
    AverageArgument(|shards|, L, f(t), O, load);
  }

  /** By how much a load misses being at most (4m-1)/3m times `O`, scaled by 3m. */
  function Excess(m: nat, load: real, O: real): real {
    3.0 * Times(m, load) - 4.0 * Times(m, O) + O
  }

  lemma AverageArgument(n: nat, L: real, c: real, O: real, load: real)
    requires n >= 1 && Times(n, L) + c <= Times(n, O) && 3.0 * c <= O && load == L + c
    ensures Excess(n, load, O) <= 0.0
  {
    var m := n as real;
    assert (m - 1.0) * (O - 3.0 * c) >= 0.0;
    assert (m - 1.0) * (O - 3.0 * c) == m * O - O - 3.0 * (m * c) + 3.0 * c;
    assert 3.0 * m * (L + c) == 3.0 * (m * L) + 3.0 * (m * c);
    assert (4.0 * m - 1.0) * O == 4.0 * (m * O) - O;
  }

  lemma {:induction false} LoadIsNonNegative(f: Costs, tests: seq<string>)
    requires NonNegative(f)
    ensures Load(f, tests) >= 0.0
    ensures forall t :: t in tests ==> f(t) <= Load(f, tests)
  {
    if tests != [] {
      LoadIsNonNegative(f, tests[..|tests| - 1]);
      assert forall t :: t in tests ==> t in tests[..|tests| - 1] || t == tests[|tests| - 1];
    }
  }

  lemma {:induction false} SomeShardHolds(shards: Shards, t: string) returns (s: nat)
    requires t in Flatten(shards)
    ensures s < |shards| && t in shards[s]
  {
    var n := |shards| - 1;
    if t in shards[n] {
      s := n;
    } else {
      s := SomeShardHolds(shards[..n], t);
    }
  }

  lemma EveryTestFits(f: Costs, other: Shards, O: real, a: seq<string>, t: string, b: seq<string>)
    requires NonNegative(f) && Within(f, other, O)
    requires multiset(Flatten(other)) == multiset(a + [t] + b)
    ensures 0.0 <= f(t) <= O
  {
    assert (a + [t] + b)[|a|] == t;
    assert t in multiset(a + [t] + b);
    assert t in Flatten(other);
    var home := SomeShardHolds(other, t);
    LoadIsNonNegative(f, other[home]);
  }

  function ShortestLoad(f: Costs, shards: Shards): (L: real)
    requires shards != []
    ensures forall s :: 0 <= s < |shards| ==> L <= Load(f, shards[s])
  {
    Load(f, shards[Shortest(f, shards)])
  }

  /** The shard that receives the next test stays within (4m-1)/3m of the limit. */
  lemma NextLoadBound(
      f: Costs, shards: Shards, t: string, rest: seq<string>, other: Shards, O: real, load: real)
    requires NonNegative(f) && shards != [] && |other| == |shards|
    requires Within(f, other, O)
    requires multiset(Flatten(other)) == multiset(Flatten(shards) + [t] + rest)
    requires forall s, u :: 0 <= s < |shards| && u in shards[s] ==> f(u) >= f(t)
    requires load == ShortestLoad(f, shards) + f(t)
    ensures Excess(|shards|, load, O) <= 0.0
  {
    hide Excess, Times, Flatten, Load, Within;
    EveryTestFits(f, other, O, Flatten(shards), t, rest);
    if 3.0 * f(t) > O {
      LongTestFits(f, shards, t, rest, other, O);
      FitsHasNoExcess(|shards|, load, O);
    } else {
      ShortTestBound(f, shards, ShortestLoad(f, shards), t, rest, other, O, load);
    }
  }

  lemma PlaceKeepsBound(f: Costs, shards: Shards, t: string, O: real, load: real)
    requires shards != []
    requires load == ShortestLoad(f, shards) + f(t)
    requires Excess(|shards|, load, O) <= 0.0
    requires WithinBound(f, shards, O)
    ensures WithinBound(f, Place(f, shards, t), O)
  { }

  lemma FitsHasNoExcess(n: nat, load: real, O: real)
    requires n >= 1 && load <= O && O >= 0.0
    ensures Excess(n, load, O) <= 0.0
  {
    var m := n as real;
    assert m * load <= m * O;
    assert (m - 1.0) * O >= 0.0;
    assert (4.0 * m - 1.0) * O == 3.0 * (m * O) + (m - 1.0) * O;
    assert 3.0 * m * load == 3.0 * (m * load);
  }

  ghost predicate WithinBound(f: Costs, shards: Shards, O: real) {
    forall s :: 0 <= s < |shards| ==> Excess(|shards|, Load(f, shards[s]), O) <= 0.0
  }

  lemma {:induction false} GreedyBound(f: Costs, pending: seq<string>, shards: Shards, other: Shards, O: real)
    requires NonNegative(f) && shards != [] && |other| == |shards|
    requires Within(f, other, O)
    requires multiset(Flatten(other)) == multiset(Flatten(shards)) + multiset(pending)
    requires Ascending(f, pending)
    requires forall s, u, v :: 0 <= s < |shards| && u in shards[s] && v in pending ==> f(u) >= f(v)
    requires WithinBound(f, shards, O)
    ensures WithinBound(f, Greedy(f, pending, shards), O)
    decreases |pending|
  {
    hide Excess, Times, Flatten, Within, WithinBound, Load, Place, ShortestLoad;
    if pending != [] {
      var n := |pending| - 1;
      var init, t := pending[..n], pending[n];
      assert pending == init + [t];
      assert multiset(Flatten(shards) + [t] + init) == multiset(Flatten(shards)) + multiset(pending);
      var load := ShortestLoad(f, shards) + f(t);
      NextLoadBound(f, shards, t, init, other, O, load);
      PlaceKeepsBound(f, shards, t, O, load);
      PlaceKeepsOrder(f, pending, shards);
      GreedyBound(f, init, Place(f, shards, t), other, O);
    }
  }

  lemma PlaceKeepsOrder(f: Costs, pending: seq<string>, shards: Shards)
    requires shards != [] && pending != [] && Ascending(f, pending)
    requires forall s, u, v :: 0 <= s < |shards| && u in shards[s] && v in pending ==> f(u) >= f(v)
    ensures var n := |pending| - 1;
            var next := Place(f, shards, pending[n]);
            && (forall s, u, v :: 0 <= s < |next| && u in next[s] && v in pending[..n] ==> f(u) >= f(v))
            && multiset(Flatten(next)) == multiset(Flatten(shards)) + multiset{pending[n]}
  {
    hide Flatten, Load;
    FlattenAppend(shards, Shortest(f, shards), pending[|pending| - 1]);
  }

  /** Graham's bound: the longest shard of the greedy schedule is at most (4m-1)/3m times the
      longest shard of any other distribution of the same tests over `m` shards. */
  lemma GreedyIsNearlyOptimal(f: Costs, tests: seq<string>, m: nat, other: Shards, O: real)
    requires NonNegative(f) && m > 0
    requires Partitions(other, m, tests) && Within(f, other, O)
    ensures forall shard :: shard in GreedySchedule(f, tests, m) ==>
              3.0 * m as real * Load(f, shard) <= (4.0 * m as real - 1.0) * O
  {
    hide WithinBound, Excess, Greedy, Load, Within, NonNegative, Partitions;
    GreedyStaysWithinBound(f, tests, m, other, O);
    ExcessMeaning(f, GreedySchedule(f, tests, m), m, O);
  }

  lemma ExcessMeaning(f: Costs, shards: Shards, m: nat, O: real)
    requires |shards| == m && WithinBound(f, shards, O)
    ensures forall shard :: shard in shards ==> 3.0 * m as real * Load(f, shard) <= (4.0 * m as real - 1.0) * O
  { }

  lemma GreedyStaysWithinBound(f: Costs, tests: seq<string>, m: nat, other: Shards, O: real)
    requires NonNegative(f) && m > 0
    requires Partitions(other, m, tests) && Within(f, other, O)
    ensures WithinBound(f, GreedySchedule(f, tests, m), O)
  {
    hide Excess;
    var empty := EmptyShards(m);
    FlattenEmpty(m);
    LoadIsNonNegative(f, other[0]);
    FitsHasNoExcess(m, 0.0, O);
    assert WithinBound(f, empty, O);
    GreedyBound(f, SortByCost(f, tests), empty, other, O);
  }
}
