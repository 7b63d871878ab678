/** The geometry of the hash ring, independent of any object: where a key lands and what adding
    or removing endpoints moves. */
module HashRing {
  import opened Decimal
  import opened Seqs

  type Hash = string -> int

  /** The hash of an endpoint's i-th virtual node. */
  function ReplicaHash(hash: Hash, key: string, i: nat): int { hash(Itoa(i) + key) }

  // ---------------------------------------------------------------- sorted keys

  predicate Sorted(s: seq<int>) { forall i, j :: 0 <= i < j < |s| ==> s[i] <= s[j] }
  predicate StrictlySorted(s: seq<int>) { forall i, j :: 0 <= i < j < |s| ==> s[i] < s[j] }

  /** `sort.Ints`. */
  function SortInts(s: seq<int>): (r: seq<int>)
    ensures Sorted(r) && multiset(r) == multiset(s)
  {
    SortBy((a: int, b: int) => a <= b, s)
  }

  lemma SortIntsDistinct(s: seq<int>)
    requires Distinct(s)
    ensures StrictlySorted(SortInts(s))
    ensures forall x :: x in SortInts(s) <==> x in s
  {
    var r := SortInts(s);
    forall i, j | 0 <= i < j < |r|
      ensures r[i] < r[j]
    {
      if r[i] == r[j] {
        TwiceCounts(r, i, j);
        DistinctCounts(s, r[i]);
      }
    }
    forall x
      ensures x in r <==> x in s
    {
      assert x in r <==> x in multiset(r);
      assert x in s <==> x in multiset(s);
    }
  }

  /** A strictly sorted sequence is determined by its elements. */
  lemma {:induction false} StrictlySortedUnique(a: seq<int>, b: seq<int>)
    requires StrictlySorted(a) && StrictlySorted(b)
    requires forall x :: x in a <==> x in b
    ensures a == b
  {
    if b != [] {
      assert b[0] in b;
    }
    if a != [] {
      assert a[0] in a;
      assert a[0] in b;
      assert a[0] == b[0];
      forall x
        ensures x in a[1..] <==> x in b[1..]
      {
        assert x in a <==> x == a[0] || x in a[1..];
        assert x in b <==> x == b[0] || x in b[1..];
        assert a[0] !in a[1..] && b[0] !in b[1..];
      }
      StrictlySortedUnique(a[1..], b[1..]);
    }
  }

  // ---------------------------------------------------------------- where a hash lands

  /** `c` is the first of `hs` met going clockwise from `h`, wrapping past the largest. */
  ghost predicate ClockwiseNext(hs: set<int>, h: int, c: int) {
    && c in hs
    && (forall x :: x in hs && x >= h ==> h <= c <= x)
    && ((forall x :: x in hs ==> x < h) ==> forall x :: x in hs ==> c <= x)
  }

  lemma ClockwiseNextUnique(hs: set<int>, h: int, c: int, d: int)
    requires ClockwiseNext(hs, h, c) && ClockwiseNext(hs, h, d)
    ensures c == d
  { }

  /** The index the lookup starts from: the first key at or after `h`, or 0 when there is none. */
  function StartIndex(keys: seq<int>, h: int): (i: nat)
    requires keys != []
    ensures i < |keys|
    ensures keys[i] >= h ==> forall j :: 0 <= j < i ==> keys[j] < h
    ensures keys[i] < h ==> i == 0 && forall j :: 0 <= j < |keys| ==> keys[j] < h
  {
    if exists i :: 0 <= i < |keys| && keys[i] >= h then FirstAtLeast(keys, h) else 0
  }

  function FirstAtLeast(keys: seq<int>, h: int): (i: nat)
    requires exists i :: 0 <= i < |keys| && keys[i] >= h
    ensures i < |keys| && keys[i] >= h && forall j :: 0 <= j < i ==> keys[j] < h
  {
    if keys[0] >= h then 0
    else
      var i :| 0 <= i < |keys| && keys[i] >= h;
      assert keys[1..][i - 1] == keys[i];
      FirstAtLeast(keys[1..], h) + 1
  }

  /** `sort.Search` followed by the wrap-around. */
  method Search(keys: seq<int>, h: int) returns (idx: nat)
    requires keys != [] && Sorted(keys)
    ensures idx == StartIndex(keys, h)
  {
    var lo, hi := 0, |keys|;
    while lo < hi
      invariant 0 <= lo <= hi <= |keys|
      invariant forall j :: 0 <= j < lo ==> keys[j] < h
      invariant forall j :: hi <= j < |keys| ==> keys[j] >= h
    {
      var mid := (lo + hi) / 2;
      if keys[mid] >= h { hi := mid; } else { lo := mid + 1; }
    }
    idx := lo;
    if idx == |keys| {
      idx := 0;
    } else {
      assert keys[idx] >= h;
    }
  }

  lemma StartIndexIsClockwiseNext(keys: seq<int>, hs: set<int>, h: int)
    requires keys != [] && StrictlySorted(keys)
    requires forall x :: x in keys <==> x in hs
    ensures ClockwiseNext(hs, h, keys[StartIndex(keys, h)])
  { }

  /** New virtual nodes only take hashes over; they never move a hash between old ones. */
  lemma AddedNodesOnlyTake(hs: set<int>, more: set<int>, h: int, c: int, d: int)
    requires ClockwiseNext(hs, h, c) && ClockwiseNext(hs + more, h, d)
    ensures d == c || d in more
  { }

  /** Removing virtual nodes leaves every hash alone that did not land on one of them. */
  lemma RemovedNodesOnlyGive(hs: set<int>, gone: set<int>, h: int, c: int)
    requires ClockwiseNext(hs, h, c) && c !in gone
    ensures ClockwiseNext(hs - gone, h, c)
  { }

  // ---------------------------------------------------------------- nodes and their owners

  /** No two virtual nodes of the given endpoints share a hash. */
  ghost predicate NoCollision(hash: Hash, replicas: nat, keys: set<string>) {
    forall k, l, i, j ::
      k in keys && l in keys && 0 <= i < replicas && 0 <= j < replicas
      && ReplicaHash(hash, k, i) == ReplicaHash(hash, l, j)
      ==> k == l && i == j
  }

  /** The owners of the ring's nodes are exactly the live endpoints, each at all its replicas. */
  ghost predicate Owned<V>(hash: Hash, replicas: nat, owner: map<int, V>, live: map<string, V>) {
    && (forall k, i :: k in live && 0 <= i < replicas ==>
          ReplicaHash(hash, k, i) in owner && owner[ReplicaHash(hash, k, i)] == live[k])
    && (forall h :: h in owner ==> IsReplica(hash, replicas, live.Keys, h))
  }

  ghost predicate IsReplica(hash: Hash, replicas: nat, keys: set<string>, h: int) {
    exists k, i :: k in keys && 0 <= i < replicas && ReplicaHash(hash, k, i) == h
  }

  /** The owners are determined by the live endpoints. */
  lemma OwnedUnique<V>(hash: Hash, replicas: nat, a: map<int, V>, b: map<int, V>, live: map<string, V>)
    requires Owned(hash, replicas, a, live) && Owned(hash, replicas, b, live)
    ensures a == b
  {
    hide ReplicaHash;
    forall h | h in a
      ensures h in b && a[h] == b[h]
    {
      var k, i :| k in live && 0 <= i < replicas && ReplicaHash(hash, k, i) == h;
    }
    forall h | h in b
      ensures h in a
    {
      var k, i :| k in live && 0 <= i < replicas && ReplicaHash(hash, k, i) == h;
    }
  }

  /** Distinctness of the hashes is not only enough but needed: when two live endpoints share a
      hash, no assignment of owners gives each of them all its nodes. */
  lemma OwnershipNeedsNoCollision<V>(
      hash: Hash, replicas: nat, owner: map<int, V>, live: map<string, V>, k: string, l: string, i: nat, j: nat)
    requires Owned(hash, replicas, owner, live)
    requires k in live && l in live && live[k] != live[l] && i < replicas && j < replicas
    ensures ReplicaHash(hash, k, i) != ReplicaHash(hash, l, j)
  { }

  /** Registering more endpoints leaves every node with its owner and adds only nodes of the new ones. */
  lemma OwnersUnderGrowth<V>(
      hash: Hash, replicas: nat, owner: map<int, V>, live: map<string, V>, owner': map<int, V>, live': map<string, V>)
    requires Owned(hash, replicas, owner, live) && Owned(hash, replicas, owner', live')
    requires forall k :: k in live ==> k in live' && live'[k] == live[k]
    ensures forall h :: h in owner ==> h in owner' && owner'[h] == owner[h]
    ensures forall h :: h in owner' && h !in owner ==> exists k :: k in live' && k !in live && owner'[h] == live'[k]
  { }
}
