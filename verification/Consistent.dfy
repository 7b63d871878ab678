/** The consistent-hashing balancer with bounded loads.

    The code shares one `endpointInfo` record between all virtual nodes of an endpoint and updates
    it through pointers. Here a pointer is the number of a cell in the table `infos`, so that two
    registrations of one address are different cells, as they are different records in the code. */
module Balance {
  import opened Wrappers
  import opened Decimal
  import opened FiniteSums
  import opened Seqs
  import opened HashRing
  import opened BoundedLoads

  datatype Endpoint = Endpoint(address: string) {
    function Key(): string { address }
  }

  datatype EndpointInfo = EndpointInfo(endpoint: Endpoint, load: int)

  /** The cells, the owner of each virtual node, and the current registration of each endpoint key. */
  type Infos = map<nat, EndpointInfo>
  type Owners = map<int, nat>
  type Live = map<string, nat>

  function KeySet(es: seq<Endpoint>): set<string> { set e | e in es :: e.Key() }

  predicate DistinctEndpoints(es: seq<Endpoint>) {
    forall i, j :: 0 <= i < j < |es| ==> es[i].Key() != es[j].Key()
  }

  // ---------------------------------------------------------------- deleting a key

  /** Removes `hash` by moving the last element into its place. When `hash` is absent the loop
      variable is left at the last element, and that one is dropped instead. */
  method DeleteFromSlice(s: seq<int>, hash: int) returns (r: seq<int>)
    ensures s == [] ==> r == []
    ensures s != [] && hash !in s ==> r == s[..|s| - 1]
    ensures hash in s && Distinct(s) ==> Distinct(r) && forall x :: x in r <==> x in s && x != hash
  {
    if s == [] {
      return s;
    }
    var i := 0;
    while i < |s| - 1 && s[i] != hash
      invariant 0 <= i < |s| && forall j :: 0 <= j < i ==> s[j] != hash
    {
      i := i + 1;
    }
    var last := |s| - 1;
    r := s[i := s[last]][..last];
    if hash in s && Distinct(s) {
      DeleteKeepsOthers(s, i, hash);
    }
  }

  lemma DeleteKeepsOthers(s: seq<int>, i: nat, hash: int)
    requires Distinct(s) && i < |s| && s[i] == hash
    ensures var last := |s| - 1;
            var r := s[i := s[last]][..last];
            Distinct(r) && forall x :: x in r <==> x in s && x != hash
  {
    var last := |s| - 1;
    var r := s[i := s[last]][..last];
    forall x | x in s && x != hash
      ensures x in r
    {
      var j :| 0 <= j < |s| && s[j] == x;
      assert if j == last then r[i] == x else r[j] == x;
    }
  }

  // ---------------------------------------------------------------- invariants

  /** The keys are the virtual nodes of the live endpoints, each once, and each has its owner. */
  ghost predicate RingShape(hash: Hash, replicas: nat, keys: seq<int>, owner: Owners, live: Live) {
    && Distinct(keys)
    && (forall h :: h in keys <==> h in owner)
    && Owned(hash, replicas, owner, live)
    && NoCollision(hash, replicas, live.Keys)
  }

  /** A live registration's cell holds the endpoint of that key; unused cells are numbered from `next`. */
  ghost predicate Cells(live: Live, infos: Infos, next: nat) {
    && (forall k :: k in live ==> live[k] in infos && infos[live[k]].endpoint.Key() == k)
    && (forall id :: id in infos ==> id < next)
  }

  /** `loads` is what the cells of the live registrations say. */
  ghost predicate Counted(live: Live, infos: Infos, loads: Loads) {
    && loads.Keys == live.Keys
    && (forall k :: k in live ==> live[k] in infos && infos[live[k]].load == loads[k])
  }

  ghost function Size(live: Live): nat { |live| }

  /** Every load is the number of requests in flight to that registration. */
  ghost predicate TokensMatch(live: Live, loads: Loads, inFlight: multiset<nat>, next: nat) {
    && loads.Keys == live.Keys
    && (forall k :: k in live ==> loads[k] == inFlight[live[k]])
    && (forall id :: id in inFlight ==> id < next)
  }

  // ---------------------------------------------------------------- plain consistent hashing

  /** The registration to which plain consistent hashing sends a hash. */
  function RouteOf(keys: seq<int>, owner: Owners, h: int): Option<nat> {
    if keys == [] then None
    else
      var c := keys[StartIndex(keys, h)];
      if c in owner then Some(owner[c]) else None
  }

  /** Every hash keeps its registration or moves to one made from `next` on. */
  ghost predicate MovesOnlyToNew(keys: seq<int>, owner: Owners, keys': seq<int>, owner': Owners, next: nat) {
    forall h :: RouteOf(keys, owner, h).Some? ==>
      && RouteOf(keys', owner', h).Some?
      && (RouteOf(keys', owner', h) == RouteOf(keys, owner, h) || RouteOf(keys', owner', h).value >= next)
  }

  /** Every hash that was with one of the `staying` registrations keeps it. */
  ghost predicate StaysWith(keys: seq<int>, owner: Owners, keys': seq<int>, owner': Owners, staying: Live) {
    forall h, k :: k in staying && RouteOf(keys, owner, h) == Some(staying[k]) ==>
      RouteOf(keys', owner', h) == RouteOf(keys, owner, h)
  }

  lemma RouteIsClockwise(hash: Hash, replicas: nat, keys: seq<int>, owner: Owners, live: Live, h: int)
    returns (c: int)
    requires RingShape(hash, replicas, keys, owner, live) && StrictlySorted(keys) && keys != []
    ensures ClockwiseNext(owner.Keys, h, c)
    ensures RouteOf(keys, owner, h) == Some(owner[c])
  {
    hide ReplicaHash, Owned, NoCollision;
    c := keys[StartIndex(keys, h)];
    assert c in keys;
    StartIndexIsClockwiseNext(keys, owner.Keys, h);
  }

  /** After registering endpoints a hash is routed as before or to a new registration. */
  lemma AddDisruption(
      hash: Hash, replicas: nat, keys: seq<int>, owner: Owners, live: Live,
      keys': seq<int>, owner': Owners, live': Live, h: int)
    requires RingShape(hash, replicas, keys, owner, live) && StrictlySorted(keys) && keys != []
    requires RingShape(hash, replicas, keys', owner', live') && StrictlySorted(keys')
    requires forall k :: k in live ==> k in live' && live'[k] == live[k]
    ensures var r, r' := RouteOf(keys, owner, h), RouteOf(keys', owner', h);
            r.Some? && r'.Some? && (r' == r || exists k :: k in live' && k !in live && r'.value == live'[k])
  {
    hide ReplicaHash, NoCollision, RouteOf, Owned, StrictlySorted;
    OwnersUnderGrowth(hash, replicas, owner, live, owner', live');
    assert forall x :: x in owner ==> x in owner';
    var first := keys[0];
    assert first in keys;
    assert first in owner;
    assert first in owner';
    assert first in keys';
    var c := RouteIsClockwise(hash, replicas, keys, owner, live, h);
    var d := RouteIsClockwise(hash, replicas, keys', owner', live', h);
    var more := owner'.Keys - owner.Keys;
    assert owner'.Keys == owner.Keys + more;
    AddedNodesOnlyTake(owner.Keys, more, h, c, d);
  }

  lemma AddMovesOnlyToNew(
      hash: Hash, replicas: nat, keys: seq<int>, owner: Owners, live: Live,
      keys': seq<int>, owner': Owners, live': Live, next: nat)
    requires RingShape(hash, replicas, keys, owner, live) && StrictlySorted(keys)
    requires RingShape(hash, replicas, keys', owner', live') && StrictlySorted(keys')
    requires forall k :: k in live ==> k in live' && live'[k] == live[k]
    requires forall k :: k in live' && k !in live ==> live'[k] >= next
    ensures MovesOnlyToNew(keys, owner, keys', owner', next)
  {
    hide RingShape, StrictlySorted;
    forall h | RouteOf(keys, owner, h).Some?
      ensures RouteOf(keys', owner', h).Some?
      ensures RouteOf(keys', owner', h) == RouteOf(keys, owner, h) || RouteOf(keys', owner', h).value >= next
    {
      AddDisruption(hash, replicas, keys, owner, live, keys', owner', live', h);
    }
  }

  /** After dropping endpoints, a hash that was routed to one that stays is routed there still. */
  lemma RemoveDisruption(
      hash: Hash, replicas: nat, keys: seq<int>, owner: Owners, live: Live,
      keys': seq<int>, owner': Owners, live': Live, h: int, k: string)
    requires RingShape(hash, replicas, keys, owner, live) && StrictlySorted(keys)
    requires RingShape(hash, replicas, keys', owner', live') && StrictlySorted(keys')
    requires forall l :: l in live ==> l in live' && live'[l] == live[l]
    requires forall l, m :: l in live' && m in live' && live'[l] == live'[m] ==> l == m
    requires k in live && RouteOf(keys', owner', h) == Some(live[k])
    ensures RouteOf(keys, owner, h) == RouteOf(keys', owner', h)
  {
    hide ReplicaHash, NoCollision, Owned, StrictlySorted;
    OwnersUnderGrowth(hash, replicas, owner, live, owner', live');
    var c := RouteIsClockwise(hash, replicas, keys', owner', live', h);
    var gone := owner'.Keys - owner.Keys;
    assert forall x :: x in owner ==> x in owner';
    assert owner.Keys == owner'.Keys - gone;
    RemovedNodesOnlyGive(owner'.Keys, gone, h, c);
    assert c in keys;
    var d := RouteIsClockwise(hash, replicas, keys, owner, live, h);
    ClockwiseNextUnique(owner.Keys, h, c, d);
  }

  lemma RemoveStaysWith(
      hash: Hash, replicas: nat, keys: seq<int>, owner: Owners, live: Live,
      keys': seq<int>, owner': Owners, live': Live, infos: Infos, next: nat)
    requires RingShape(hash, replicas, keys, owner, live) && StrictlySorted(keys)
    requires RingShape(hash, replicas, keys', owner', live') && StrictlySorted(keys')
    requires forall k :: k in live' ==> k in live && live[k] == live'[k]
    requires Cells(live, infos, next)
    ensures StaysWith(keys, owner, keys', owner', live')
  {
    hide RingShape, StrictlySorted, RouteOf;
    forall h, k | k in live' && RouteOf(keys, owner, h) == Some(live'[k])
      ensures RouteOf(keys', owner', h) == RouteOf(keys, owner, h)
    {
      RemoveDisruption(hash, replicas, keys', owner', live', keys, owner, live, h, k);
    }
  }

  lemma SortKeepsShape(hash: Hash, replicas: nat, keys: seq<int>, owner: Owners, live: Live)
    requires RingShape(hash, replicas, keys, owner, live)
    ensures RingShape(hash, replicas, SortInts(keys), owner, live)
    ensures StrictlySorted(SortInts(keys))
  {
    hide ReplicaHash, SortInts, Owned, NoCollision;
    SortIntsDistinct(keys);
  }

  // ---------------------------------------------------------------- adding one endpoint

  /** The first `i` replicas of `key` have been put on the ring. */
  ghost predicate PartlyAdded(
      hash: Hash, owner: Owners, keys': seq<int>, owner': Owners, key: string, id: nat, i: nat)
  {
    && Distinct(keys')
    && (forall h :: h in keys' <==> h in owner')
    && (forall h :: h in owner ==> h in owner' && owner'[h] == owner[h])
    && (forall j :: 0 <= j < i ==> ReplicaHash(hash, key, j) in owner' && owner'[ReplicaHash(hash, key, j)] == id)
    && (forall h :: h in owner' && h !in owner ==> exists j :: 0 <= j < i && ReplicaHash(hash, key, j) == h)
  }

  lemma NothingAdded(
      hash: Hash, replicas: nat, keys: seq<int>, owner: Owners, live: Live, key: string, id: nat)
    requires RingShape(hash, replicas, keys, owner, live)
    ensures PartlyAdded(hash, owner, keys, owner, key, id, 0)
  { }

  /** A hash of an endpoint that is not live is on no node of the ring. */
  lemma NewReplicaIsFree(hash: Hash, replicas: nat, owner: Owners, live: Live, key: string, i: nat)
    requires Owned(hash, replicas, owner, live)
    requires key !in live && NoCollision(hash, replicas, live.Keys + {key}) && i < replicas
    ensures ReplicaHash(hash, key, i) !in owner
  { }

  lemma AddReplica(
      hash: Hash, replicas: nat, keys: seq<int>, owner: Owners, live: Live,
      keys': seq<int>, owner': Owners, key: string, id: nat, i: nat)
    requires RingShape(hash, replicas, keys, owner, live)
    requires key !in live && NoCollision(hash, replicas, live.Keys + {key}) && i < replicas
    requires PartlyAdded(hash, owner, keys', owner', key, id, i)
    ensures var h := ReplicaHash(hash, key, i);
            PartlyAdded(hash, owner, keys' + [h], owner'[h := id], key, id, i + 1)
  {
    hide ReplicaHash;
    var h := ReplicaHash(hash, key, i);
    NewReplicaIsFree(hash, replicas, owner, live, key, i);
    assert key in live.Keys + {key};
    assert h !in keys';
    assert forall x :: x in keys' + [h] <==> x in keys' || x == h;
    forall x | x in owner'[h := id] && x !in owner
      ensures exists j :: 0 <= j < i + 1 && ReplicaHash(hash, key, j) == x
    {
      if x != h {
        var j :| 0 <= j < i && ReplicaHash(hash, key, j) == x;
      }
    }
  }

  lemma AllReplicasAdded(
      hash: Hash, replicas: nat, keys: seq<int>, owner: Owners, live: Live,
      keys': seq<int>, owner': Owners, key: string, id: nat)
    requires RingShape(hash, replicas, keys, owner, live) && key !in live
    requires NoCollision(hash, replicas, live.Keys + {key})
    requires PartlyAdded(hash, owner, keys', owner', key, id, replicas)
    ensures RingShape(hash, replicas, keys', owner', live[key := id])
  {
    hide ReplicaHash;
    var live' := live[key := id];
    assert live'.Keys == live.Keys + {key};
    forall h | h in owner'
      ensures IsReplica(hash, replicas, live'.Keys, h)
    {
      if h in owner {
        assert IsReplica(hash, replicas, live.Keys, h);
      } else {
        var j :| 0 <= j < replicas && ReplicaHash(hash, key, j) == h;
        assert key in live'.Keys;
      }
    }
  }

  // ---------------------------------------------------------------- removing one endpoint

  /** The first `i` replicas of `key` have been taken off the ring. */
  ghost predicate PartlyRemoved(
      hash: Hash, owner: Owners, keys': seq<int>, owner': Owners, key: string, i: nat)
  {
    && Distinct(keys')
    && (forall h :: h in keys' <==> h in owner')
    && (forall h :: h in owner' ==> h in owner && owner'[h] == owner[h])
    && (forall j :: 0 <= j < i ==> ReplicaHash(hash, key, j) !in owner')
    && (forall h :: h in owner && h !in owner' ==> exists j :: 0 <= j < i && ReplicaHash(hash, key, j) == h)
  }

  lemma NothingRemoved(
      hash: Hash, replicas: nat, keys: seq<int>, owner: Owners, live: Live, key: string)
    requires RingShape(hash, replicas, keys, owner, live)
    ensures PartlyRemoved(hash, owner, keys, owner, key, 0)
  { }

  lemma ReplicaStillThere(
      hash: Hash, replicas: nat, keys: seq<int>, owner: Owners, live: Live,
      keys': seq<int>, owner': Owners, key: string, i: nat)
    requires RingShape(hash, replicas, keys, owner, live) && key in live && i < replicas
    requires PartlyRemoved(hash, owner, keys', owner', key, i)
    ensures ReplicaHash(hash, key, i) in keys' && Distinct(keys')
  {
    hide ReplicaHash;
  }

  lemma RemoveReplica(
      hash: Hash, replicas: nat, keys: seq<int>, owner: Owners, live: Live,
      keys': seq<int>, owner': Owners, keys'': seq<int>, key: string, i: nat)
    requires RingShape(hash, replicas, keys, owner, live) && key in live && i < replicas
    requires PartlyRemoved(hash, owner, keys', owner', key, i)
    requires Distinct(keys'') && forall x :: x in keys'' <==> x in keys' && x != ReplicaHash(hash, key, i)
    ensures PartlyRemoved(hash, owner, keys'', owner' - {ReplicaHash(hash, key, i)}, key, i + 1)
  { }

  lemma AllReplicasRemoved(
      hash: Hash, replicas: nat, keys: seq<int>, owner: Owners, live: Live,
      keys': seq<int>, owner': Owners, key: string)
    requires RingShape(hash, replicas, keys, owner, live) && key in live
    requires PartlyRemoved(hash, owner, keys', owner', key, replicas)
    ensures RingShape(hash, replicas, keys', owner', live - {key})
  { }

  // ---------------------------------------------------------------- bookkeeping steps

  /** Old registrations and their loads are kept; the ones made from `next` on start idle. */
  ghost predicate OnlyNewcomers(
      live: Live, loads: Loads, next: nat, live': Live, loads': Loads)
  {
    && (forall k :: k in live ==> k in live' && live'[k] == live[k])
    && (forall k :: k in loads ==> k in loads' && loads'[k] == loads[k])
    && (forall k :: k in live' && k !in live ==> live'[k] >= next && k in loads' && loads'[k] == 0)
  }

  lemma SizeSteps(live: Live, key: string, id: nat)
    ensures key !in live ==> Size(live[key := id]) == Size(live) + 1
    ensures key in live ==> Size(live - {key}) == Size(live) - 1
  { }

  lemma RegisterKeepsBooks(
      live: Live, infos: Infos, next: nat, loads: Loads, e: Endpoint)
    requires Cells(live, infos, next) && Counted(live, infos, loads) && e.Key() !in live
    ensures var live', infos', loads' := live[e.Key() := next], infos[next := EndpointInfo(e, 0)], loads[e.Key() := 0];
            && Cells(live', infos', next + 1) && Counted(live', infos', loads')
            && SumMap(loads') == SumMap(loads) && Size(live') == Size(live) + 1 && KeepsCells(infos, infos')
  {
    hide SumMap, Size;
    SumMapUpdate(loads, e.Key(), 0);
    SizeSteps(live, e.Key(), next);
  }

  /** A new registration has no requests in flight. */
  lemma RegisterKeepsTokens(live: Live, loads: Loads, inFlight: multiset<nat>, next: nat, key: string)
    requires TokensMatch(live, loads, inFlight, next) && key !in live
    ensures TokensMatch(live[key := next], loads[key := 0], inFlight, next + 1)
  {
    assert next !in inFlight;
  }

  lemma NewcomerStep(
      live: Live, loads: Loads, next: nat, live': Live, loads': Loads,
      key: string, id: nat)
    requires OnlyNewcomers(live, loads, next, live', loads') && loads.Keys == live.Keys
    requires key !in live && id >= next
    ensures OnlyNewcomers(live, loads, next, live'[key := id], loads'[key := 0])
  { }

  lemma DropKeepsBooks(
      live: Live, infos: Infos, next: nat, loads: Loads, key: string)
    requires Cells(live, infos, next) && Counted(live, infos, loads) && key in live
    ensures var live', loads' := live - {key}, loads - {key};
            && Cells(live', infos, next) && Counted(live', infos, loads')
            && SumMap(loads') == SumMap(loads) - infos[live[key]].load && Size(live') == Size(live) - 1
  {
    hide SumMap, Size;
    SumMapRemove(loads, key);
    SizeSteps(live, key, 0);
  }

  lemma DropKeepsTokens(live: Live, loads: Loads, inFlight: multiset<nat>, next: nat, key: string)
    requires TokensMatch(live, loads, inFlight, next)
    ensures TokensMatch(live - {key}, loads - {key}, inFlight, next)
  { }

  /** Changing the load of one registration changes that load and the total, and nothing else. */
  lemma LoadChangeKeepsBooks(
      live: Live, infos: Infos, next: nat, loads: Loads, key: string, delta: int)
    requires Cells(live, infos, next) && Counted(live, infos, loads) && key in live
    ensures var id := live[key];
            var infos' := infos[id := infos[id].(load := infos[id].load + delta)];
            var loads' := loads[key := loads[key] + delta];
            && Cells(live, infos', next) && Counted(live, infos', loads') && SumMap(loads') == SumMap(loads) + delta
  {
    hide SumMap;
    SumMapUpdate(loads, key, loads[key] + delta);
  }

  lemma TokensAreNonNegative(live: Live, loads: Loads, inFlight: multiset<nat>, next: nat)
    requires TokensMatch(live, loads, inFlight, next)
    ensures SumMap(loads) >= 0
  {
    SumAtLeast(loads, 0, |loads|);
  }

  lemma NoCollisionSubset(hash: Hash, replicas: nat, a: set<string>, b: set<string>)
    requires NoCollision(hash, replicas, b) && a <= b
    ensures NoCollision(hash, replicas, a)
  {
    hide ReplicaHash;
  }

  /** Cells are never given up or changed. */
  ghost predicate KeepsCells(infos: Infos, infos': Infos) {
    forall id :: id in infos ==> id in infos' && infos'[id] == infos[id]
  }

  lemma BoundAfterAdding(
      live': Live, loads': Loads, live: Live, loads: Loads,
      next: nat, es: seq<Endpoint>, factor: real, n: nat)
    requires loads.Keys == live.Keys && loads'.Keys == live'.Keys && live'.Keys == live.Keys + KeySet(es)
    requires OnlyNewcomers(live, loads, next, live', loads') && KeySet(es) !! live.Keys
    requires n == |loads'|
    ensures Enrolled(loads, loads')
    ensures n > 0 ==>
      (WithinBound(loads', factor) <==>
         && AllWithin(loads, Limit(factor, SumMap(loads), n))
         && (es != [] ==> 0 <= Limit(factor, SumMap(loads), n)))
  {
    hide WithinBound, AllWithin, Limit, SumMap;
    if es != [] {
      assert es[0].Key() in KeySet(es);
      assert es[0].Key() in loads' && es[0].Key() !in loads;
    } else {
      assert KeySet(es) == {};
    }
    if n > 0 {
      EnrolmentAndBound(loads, loads', factor, n);
    }
  }

  /** The endpoints are new and distinct, and no virtual nodes will share a hash. */
  ghost predicate CanRegister(hash: Hash, replicas: nat, liveKeys: set<string>, es: seq<Endpoint>) {
    && DistinctEndpoints(es)
    && KeySet(es) !! liveKeys
    && NoCollision(hash, replicas, liveKeys + KeySet(es))
  }

  ghost predicate RegisteredSoFar(
      live: Live, loads: Loads, next: nat, es: seq<Endpoint>, n: nat,
      live': Live, loads': Loads, next': nat)
  {
    && n <= |es| && next <= next'
    && loads.Keys == live.Keys
    && live'.Keys == live.Keys + KeySet(es[..n])
    && OnlyNewcomers(live, loads, next, live', loads')
  }

  lemma NoneRegistered(live: Live, loads: Loads, next: nat, es: seq<Endpoint>)
    requires loads.Keys == live.Keys
    ensures RegisteredSoFar(live, loads, next, es, 0, live, loads, next)
  {
    assert KeySet(es[..0]) == {};
  }

  lemma KeySetStep(es: seq<Endpoint>, n: nat)
    requires n < |es|
    ensures KeySet(es[..n + 1]) == KeySet(es[..n]) + {es[n].Key()}
    ensures KeySet(es[..n]) <= KeySet(es) && es[n].Key() in KeySet(es)
    ensures DistinctEndpoints(es) ==> es[n].Key() !in KeySet(es[..n])
  {
    assert es[..n + 1] == es[..n] + [es[n]];
  }

  lemma OneMoreRegistered(
      hash: Hash, replicas: nat, live: Live, loads: Loads, next: nat, es: seq<Endpoint>, n: nat,
      live': Live, loads': Loads, next': nat)
    requires CanRegister(hash, replicas, live.Keys, es)
    requires RegisteredSoFar(live, loads, next, es, n, live', loads', next') && n < |es|
    ensures es[n].Key() !in live' && NoCollision(hash, replicas, live'.Keys + {es[n].Key()})
    ensures var key := es[n].Key();
            RegisteredSoFar(live, loads, next, es, n + 1, live'[key := next'], loads'[key := 0], next' + 1)
  {
    hide KeySet, DistinctEndpoints, NoCollision, OnlyNewcomers;
    KeySetStep(es, n);
    NoCollisionSubset(hash, replicas, live'.Keys + {es[n].Key()}, live.Keys + KeySet(es));
    NewcomerStep(live, loads, next, live', loads', es[n].Key(), next');
  }

  lemma AllRegistered(
      live: Live, loads: Loads, next: nat, es: seq<Endpoint>,
      live': Live, loads': Loads, next': nat)
    requires RegisteredSoFar(live, loads, next, es, |es|, live', loads', next')
    ensures live'.Keys == live.Keys + KeySet(es)
    ensures OnlyNewcomers(live, loads, next, live', loads')
  {
    assert es[..|es|] == es;
  }

  // ---------------------------------------------------------------- the search for an endpoint

  function Wrap(i: nat, n: nat): nat
    requires i < 2 * n
  {
    if i < n then i else i - n
  }

  /** The node met after `j` steps around the ring from index `start`. */
  function NodeAt(keys: seq<int>, start: nat, j: nat): int
    requires start < |keys| && j < |keys|
  {
    keys[Wrap(start + j, |keys|)]
  }

  /** The endpoint that owns node `c` may take one more request. */
  predicate AdmitsAt(
      owner: Owners, infos: Infos, total: int, n: int, factor: real, c: int)
  {
    n != 0 && c in owner && owner[c] in infos && LoadOK(total, n, infos[owner[c]].load, factor)
  }

  ghost predicate FirstToAdmit(
      keys: seq<int>, owner: Owners, infos: Infos, total: int, n: int, factor: real, start: nat, steps: nat)
  {
    && start < |keys| && steps < |keys|
    && AdmitsAt(owner, infos, total, n, factor, NodeAt(keys, start, steps))
    && forall j :: 0 <= j < steps ==> !AdmitsAt(owner, infos, total, n, factor, NodeAt(keys, start, j))
  }

  /** The nodes whose endpoint may take one more request, free of rounding. */
  ghost function RoomyNodes(owner: Owners, infos: Infos, total: int, n: int, factor: real): set<int> {
    set c | c in owner && owner[c] in infos
            && infos[owner[c]].load as real * n as real < factor * (total + 1) as real
  }

  lemma AdmitsAtIff(owner: Owners, infos: Infos, total: int, n: int, factor: real, c: int)
    requires n > 0
    ensures AdmitsAt(owner, infos, total, n, factor, c) <==> c in RoomyNodes(owner, infos, total, n, factor)
  {
    hide LoadOK;
    if c in owner && owner[c] in infos {
      LoadOKIff(total, n, infos[owner[c]].load, factor);
    }
  }

  /** How many steps clockwise from index `start` the node at index `q` lies. */
  function Offset(start: nat, q: nat, n: nat): nat
    requires start < n && q < n
  {
    if q >= start then q - start else q + n - start
  }

  /** Of the nodes in `good`, the one with the fewest steps from the lookup's start is the first met
      going clockwise from the hash. */
  lemma FewestStepsIsClockwiseNext(keys: seq<int>, h: int, good: set<int>, p: nat)
    requires keys != [] && StrictlySorted(keys) && p < |keys| && keys[p] in good
    requires forall x :: x in good ==> x in keys
    requires forall q :: 0 <= q < |keys| && keys[q] in good ==>
      Offset(StartIndex(keys, h), p, |keys|) <= Offset(StartIndex(keys, h), q, |keys|)
    ensures ClockwiseNext(good, h, keys[p])
  {
    var start, c := StartIndex(keys, h), keys[p];
    forall x | x in good
      ensures x >= h ==> h <= c <= x
      ensures c < h ==> c <= x
    {
      var q :| 0 <= q < |keys| && keys[q] == x;
      assert Offset(start, p, |keys|) <= Offset(start, q, |keys|);
      assert q >= start ==> keys[q] >= keys[start] || q == start;
      assert p < q ==> c < x;
      assert q < p ==> x < c;
    }
  }

  /** The first node in the order of the search whose endpoint admits is, in terms of the set of
      nodes, the first one with room that is met going clockwise from the hash. */
  lemma FirstToAdmitIsClockwiseNext(
      keys: seq<int>, owner: Owners, infos: Infos, total: int, n: int, factor: real, h: int, steps: nat)
    requires keys != [] && StrictlySorted(keys) && n > 0 && forall c :: c in keys <==> c in owner
    requires FirstToAdmit(keys, owner, infos, total, n, factor, StartIndex(keys, h), steps)
    ensures ClockwiseNext(RoomyNodes(owner, infos, total, n, factor), h, NodeAt(keys, StartIndex(keys, h), steps))
  {
    hide AdmitsAt, RoomyNodes, StrictlySorted, StartIndex, ClockwiseNext;
    var start, good := StartIndex(keys, h), RoomyNodes(owner, infos, total, n, factor);
    var p := Wrap(start + steps, |keys|);
    AdmitsAtIff(owner, infos, total, n, factor, keys[p]);
    forall x | x in good
      ensures x in keys
    {
      RoomyNodesAreNodes(owner, infos, total, n, factor, x);
    }
    forall q | 0 <= q < |keys| && keys[q] in good
      ensures Offset(start, p, |keys|) <= Offset(start, q, |keys|)
    {
      var j := Offset(start, q, |keys|);
      assert NodeAt(keys, start, j) == keys[q];
      AdmitsAtIff(owner, infos, total, n, factor, keys[q]);
    }
    FewestStepsIsClockwiseNext(keys, h, good, p);
  }

  lemma RoomyNodesAreNodes(owner: Owners, infos: Infos, total: int, n: int, factor: real, x: int)
    requires x in RoomyNodes(owner, infos, total, n, factor)
    ensures x in owner && owner[x] in infos
  { }

  lemma KeysAreSorted(keys: seq<int>)
    requires StrictlySorted(keys)
    ensures Sorted(keys)
  { }

  lemma LiveKeyOfNode(
      hash: Hash, replicas: nat, keys: seq<int>, owner: Owners, live: Live,
      infos: Infos, next: nat, idx: nat)
    returns (k: string)
    requires RingShape(hash, replicas, keys, owner, live) && Cells(live, infos, next) && idx < |keys|
    ensures keys[idx] in owner && k in live && owner[keys[idx]] == live[k]
    ensures live[k] in infos && infos[live[k]].endpoint.Key() == k
  {
    hide ReplicaHash, NoCollision;
    var h := keys[idx];
    assert h in keys;
    assert IsReplica(hash, replicas, live.Keys, h);
    var i: nat;
    k, i :| k in live && 0 <= i < replicas && ReplicaHash(hash, k, i) == h;
  }

  lemma NoNodesNoEndpoints(hash: Hash, replicas: nat, keys: seq<int>, owner: Owners, live: Live)
    requires RingShape(hash, replicas, keys, owner, live) && replicas > 0
    ensures keys == [] <==> live == map[]
  {
    hide ReplicaHash, NoCollision;
    if keys != [] {
      assert keys[0] in keys;
      assert IsReplica(hash, replicas, live.Keys, keys[0]);
    }
    if live != map[] {
      var k :| k in live;
      assert ReplicaHash(hash, k, 0) in owner;
    }
  }

  lemma NodesAreKeys(hash: Hash, replicas: nat, keys: seq<int>, owner: Owners, live: Live)
    requires RingShape(hash, replicas, keys, owner, live)
    ensures forall h :: h in keys <==> h in owner
  {
    hide Owned, NoCollision;
  }

  lemma NodeHasCell(
      hash: Hash, replicas: nat, keys: seq<int>, owner: Owners, live: Live,
      infos: Infos, next: nat, idx: nat)
    requires RingShape(hash, replicas, keys, owner, live) && Cells(live, infos, next) && idx < |keys|
    ensures keys[idx] in owner && owner[keys[idx]] in infos
    ensures Size(live) > 0
  {
    hide RingShape, Cells;
    var k := LiveKeyOfNode(hash, replicas, keys, owner, live, infos, next, idx);
  }

  /** Within one lap from any start some node's endpoint admits the request. */
  lemma SomeNodeAdmits(
      hash: Hash, replicas: nat, keys: seq<int>, owner: Owners, live: Live,
      infos: Infos, next: nat, loads: Loads, factor: real, start: nat)
    returns (lap: nat)
    requires RingShape(hash, replicas, keys, owner, live) && Cells(live, infos, next) && Counted(live, infos, loads)
    requires replicas > 0 && start < |keys| && SomeoneAdmits(loads, factor)
    ensures lap < |keys|
    ensures AdmitsAt(owner, infos, SumMap(loads), Size(live), factor, NodeAt(keys, start, lap))
  {
    NodeHasCell(hash, replicas, keys, owner, live, infos, next, start);
    hide SumMap, LoadOK, NoCollision, ReplicaHash, Cells;
    SizeOfLoads(live, loads);
    var k :| k in loads && LoadOK(SumMap(loads), |loads|, loads[k], factor);
    var h := ReplicaHash(hash, k, 0);
    assert h in owner && owner[h] == live[k];
    var p :| 0 <= p < |keys| && keys[p] == h;
    lap := if p >= start then p - start else p + |keys| - start;
  }

  /** Conversely, when no endpoint admits, no node of the ring does, and walking on is in vain. */
  lemma NoNodeAdmits(
      hash: Hash, replicas: nat, keys: seq<int>, owner: Owners, live: Live,
      infos: Infos, next: nat, loads: Loads, factor: real, idx: nat)
    requires RingShape(hash, replicas, keys, owner, live) && Cells(live, infos, next) && Counted(live, infos, loads)
    requires idx < |keys| && !SomeoneAdmits(loads, factor)
    ensures !AdmitsAt(owner, infos, SumMap(loads), Size(live), factor, keys[idx])
  {
    NodeHasCell(hash, replicas, keys, owner, live, infos, next, idx);
    hide SumMap, LoadOK, RingShape;
    SizeOfLoads(live, loads);
    var k := LiveKeyOfNode(hash, replicas, keys, owner, live, infos, next, idx);
  }

  lemma SizeOfLoads(live: Live, loads: Loads)
    requires loads.Keys == live.Keys && Size(live) > 0
    ensures Size(live) == |loads| && loads != map[]
  {
    assert |loads.Keys| == |live.Keys|;
  }

  lemma AdmitKeepsTokens(
      live: Live, infos: Infos, loads: Loads, inFlight: multiset<nat>, next: nat, key: string)
    requires TokensMatch(live, loads, inFlight, next) && Cells(live, infos, next) && key in live
    ensures TokensMatch(live, loads[key := loads[key] + 1], inFlight + multiset{live[key]}, next)
  { }

  lemma MatchedLoads(live: Live, loads: Loads, inFlight: multiset<nat>, next: nat, key: string)
    requires TokensMatch(live, loads, inFlight, next) && key in live && live[key] in inFlight
    ensures loads[key] > 0 && forall l :: l in loads ==> loads[l] >= 0
  { }

  /** The requests in flight once the one that `token` stands for has been returned. */
  function Returned(inFlight: multiset<nat>, token: Option<nat>): multiset<nat> {
    match token
    case Some(id) => inFlight - multiset{id}
    case None => inFlight
  }

  /** Charging a return to the current registration of the address keeps loads and requests in
      step exactly when the request was made to that registration. */
  lemma ChargedReturn(
      live: Live, infos: Infos, loads: Loads, inFlight: multiset<nat>,
      next: nat, key: string, token: Option<nat>)
    requires TokensMatch(live, loads, inFlight, next) && Cells(live, infos, next) && key in live
    requires token.Some? ==>
      token.value in inFlight && token.value in infos && infos[token.value].endpoint.Key() == key
    ensures TokensMatch(live, loads[key := loads[key] - 1], Returned(inFlight, token), next)
            <==> token == Some(live[key])
  {
    var inFlight' := Returned(inFlight, token);
    assert token != Some(live[key]) ==> inFlight'[live[key]] == inFlight[live[key]];
    assert forall k :: k in live && k != key ==> inFlight'[live[k]] == inFlight[live[k]];
    assert forall id :: id in inFlight' ==> id in inFlight;
  }

  /** A return for an address that is gone is charged to nobody. */
  lemma UnchargedReturn(
      live: Live, infos: Infos, loads: Loads, inFlight: multiset<nat>,
      next: nat, token: Option<nat>)
    requires TokensMatch(live, loads, inFlight, next) && Cells(live, infos, next)
    requires token.Some? ==> token.value in infos && infos[token.value].endpoint.Key() !in live
    ensures TokensMatch(live, loads, Returned(inFlight, token), next)
  {
    var inFlight' := Returned(inFlight, token);
    assert forall k :: k in live ==> inFlight'[live[k]] == inFlight[live[k]];
    assert forall id :: id in inFlight' ==> id in inFlight;
  }

  // ---------------------------------------------------------------- the balancer

  class Consistent {
    const hash: Hash
    const replicas: nat
    const loadFactor: real
    var numEndpoints: int
    var totalLoad: int
    var keys: seq<int>
    var endpoints: Owners
    var infos: Infos
    var nextInfo: nat

    /** The current registration of each endpoint key, and its load. */
    ghost var live: Live
    ghost var loads: Loads
    /** One token for each counted request that was handed out and has not come back, naming the
        registration it was made to, whatever became of that registration since. */
    ghost var inFlight: multiset<nat>

    ghost predicate Booked()
      reads this
    {
      && replicas > 0 && (loadFactor == 0.0 || loadFactor > 1.0)
      && RingShape(hash, replicas, keys, endpoints, live)
      && Cells(live, infos, nextInfo) && Counted(live, infos, loads)
      && numEndpoints == Size(live) && totalLoad == SumMap(loads)
    }

    ghost predicate Valid()
      reads this
    {
      Booked() && StrictlySorted(keys)
    }

    ghost predicate Balanced()
      reads this
    {
      TokensMatch(live, loads, inFlight, nextInfo)
    }

    /** The search for an endpoint ends: loads are not bounded, there is nothing to search, or some
        endpoint admits a request. */
    ghost predicate CanServe()
      reads this
    {
      loadFactor == 0.0 || live == map[] || SomeoneAdmits(loads, loadFactor)
    }

    /** Without unmatched releases the search always ends. */
    lemma MatchedRingServes()
      requires Booked() && (Balanced() || totalLoad >= 0)
      ensures CanServe()
    {
      hide RingShape, Cells, SumMap, SomeoneAdmits;
      if Balanced() {
        TokensAreNonNegative(live, loads, inFlight, nextInfo);
      }
      if loadFactor != 0.0 && live != map[] {
        assert loads.Keys == live.Keys;
        assert loads != map[];
        MatchedLoadsAdmit(loads, loadFactor);
      }
    }

    /** Which nodes there are: the hashes of a number followed by a live endpoint's key, for all the
        numbers below the replication count, each owned by that endpoint. */
    lemma NodesOfTheRing(h: int)
      requires Booked()
      ensures h in keys <==>
        exists k, i: nat :: k in live && i < replicas && hash(Itoa(i) + k) == h
      ensures forall k, i: nat :: k in live && i < replicas && hash(Itoa(i) + k) == h ==>
        h in endpoints && endpoints[h] == live[k]
    {
      hide Cells, Counted, NoCollision, SumMap, Size;
      assert h in keys <==> h in endpoints;
      assert forall k, i: nat {:trigger Itoa(i) + k} :: ReplicaHash(hash, k, i) == hash(Itoa(i) + k);
      if h in endpoints {
        assert IsReplica(hash, replicas, live.Keys, h);
        var k, i :| k in live.Keys && 0 <= i < replicas && ReplicaHash(hash, k, i) == h;
        assert hash(Itoa(i) + k) == h;
      }
    }

    lemma EndpointsAreCounted()
      requires Booked()
      ensures numEndpoints == |loads| && totalLoad == SumMap(loads)
    {
      hide RingShape, Cells, SumMap;
      assert |loads.Keys| == |live.Keys|;
    }

    constructor (hash: Hash, replicationCount: nat, loadFactor: real)
      requires loadFactor == 0.0 || loadFactor > 1.0
      ensures Valid() && Balanced() && live == map[] && keys == []
      ensures this.hash == hash && this.loadFactor == loadFactor
      ensures replicas == if replicationCount == 0 then 256 else replicationCount
    {
      this.hash, this.loadFactor := hash, loadFactor;
      this.replicas := if replicationCount == 0 then 256 else replicationCount;
      numEndpoints, totalLoad, keys, endpoints, infos, nextInfo := 0, 0, [], map[], map[], 0;
      live, loads, inFlight := map[], map[], multiset{};
    }

    method AddReplicas(key: string, id: nat)
      requires RingShape(hash, replicas, keys, endpoints, live)
      requires key !in live && NoCollision(hash, replicas, live.Keys + {key})
      modifies this`keys, this`endpoints
      ensures RingShape(hash, replicas, keys, endpoints, live[key := id])
    {
      hide RingShape, NoCollision, PartlyAdded, ReplicaHash;
      NothingAdded(hash, replicas, keys, endpoints, live, key, id);
      for i := 0 to replicas
        invariant PartlyAdded(hash, old(endpoints), keys, endpoints, key, id, i)
      {
        var h := ReplicaHash(hash, key, i);
        AddReplica(hash, replicas, old(keys), old(endpoints), live, keys, endpoints, key, id, i);
        keys := keys + [h];
        endpoints := endpoints[h := id];
      }
      AllReplicasAdded(hash, replicas, old(keys), old(endpoints), live, keys, endpoints, key, id);
    }

    method AddOne(e: Endpoint)
      requires Booked()
      requires e.Key() !in live && NoCollision(hash, replicas, live.Keys + {e.Key()})
      modifies this
      ensures Booked()
      ensures live == old(live)[e.Key() := old(nextInfo)] && loads == old(loads)[e.Key() := 0]
      ensures infos == old(infos)[old(nextInfo) := EndpointInfo(e, 0)] && nextInfo == old(nextInfo) + 1
      ensures KeepsCells(old(infos), infos)
      ensures numEndpoints == old(numEndpoints) + 1 && totalLoad == old(totalLoad) && inFlight == old(inFlight)
      ensures old(Balanced()) ==> Balanced()
    {
      hide RingShape, NoCollision, ReplicaHash, Cells, Counted, TokensMatch, SumMap, Size;
      var key := e.Key();
      RegisterKeepsBooks(live, infos, nextInfo, loads, e);
      if Balanced() {
        RegisterKeepsTokens(live, loads, inFlight, nextInfo, key);
      }
      infos := infos[nextInfo := EndpointInfo(e, 0)];
      AddReplicas(key, nextInfo);
      live, loads := live[key := nextInfo], loads[key := 0];
      nextInfo := nextInfo + 1;
      numEndpoints := numEndpoints + 1;
    }

    method AddUnsorted(es: seq<Endpoint>)
      requires Booked()
      requires CanRegister(hash, replicas, live.Keys, es)
      modifies this
      ensures Booked()
      ensures live.Keys == old(live.Keys) + KeySet(es)
      ensures OnlyNewcomers(old(live), old(loads), old(nextInfo), live, loads)
      ensures KeepsCells(old(infos), infos)
      ensures numEndpoints == old(numEndpoints) + |es| && totalLoad == old(totalLoad) && inFlight == old(inFlight)
      ensures old(Balanced()) ==> Balanced()
    {
      hide RingShape, NoCollision, Cells, Counted, TokensMatch, SumMap, CanRegister, RegisteredSoFar, Size;
      hide OnlyNewcomers;
      LoadsFollowLive();
      NoneRegistered(live, loads, nextInfo, es);
      for n := 0 to |es|
        invariant Booked()
        invariant RegisteredSoFar(old(live), old(loads), old(nextInfo), es, n, live, loads, nextInfo)
        invariant KeepsCells(old(infos), infos)
        invariant numEndpoints == old(numEndpoints) + n && totalLoad == old(totalLoad) && inFlight == old(inFlight)
        invariant old(Balanced()) ==> Balanced()
      {
        OneMoreRegistered(hash, replicas, old(live), old(loads), old(nextInfo), es, n, live, loads, nextInfo);
        AddOne(es[n]);
      }
      AllRegistered(old(live), old(loads), old(nextInfo), es, live, loads, nextInfo);
    }

    lemma LoadsFollowLive()
      requires Booked()
      ensures loads.Keys == live.Keys
    { }

    method AddSorted(es: seq<Endpoint>)
      requires Valid()
      requires CanRegister(hash, replicas, live.Keys, es)
      modifies this
      ensures Valid()
      ensures live.Keys == old(live.Keys) + KeySet(es)
      ensures OnlyNewcomers(old(live), old(loads), old(nextInfo), live, loads)
      ensures KeepsCells(old(infos), infos)
      ensures numEndpoints == old(numEndpoints) + |es| && totalLoad == old(totalLoad) && inFlight == old(inFlight)
      ensures old(Balanced()) ==> Balanced()
      ensures MovesOnlyToNew(old(keys), old(endpoints), keys, endpoints, old(nextInfo))
    {
      hide RingShape, NoCollision, Cells, Counted, TokensMatch, SumMap, KeySet, CanRegister, MovesOnlyToNew;
      hide StrictlySorted, Size, KeepsCells;
      AddUnsorted(es);
      SortKeepsShape(hash, replicas, keys, endpoints, live);
      keys := SortInts(keys);
      AddMovesOnlyToNew(hash, replicas, old(keys), old(endpoints), old(live), keys, endpoints, live, old(nextInfo));
    }

    /** Registers new endpoints. A hash keeps its registration or moves to a new one. */
    method AddEndpoints(es: seq<Endpoint>)
      requires Valid()
      requires CanRegister(hash, replicas, live.Keys, es)
      modifies this
      ensures Valid()
      ensures live.Keys == old(live.Keys) + KeySet(es)
      ensures OnlyNewcomers(old(live), old(loads), old(nextInfo), live, loads)
      ensures KeepsCells(old(infos), infos)
      ensures numEndpoints == old(numEndpoints) + |es| && totalLoad == old(totalLoad) && inFlight == old(inFlight)
      ensures old(Balanced()) ==> Balanced()
      ensures MovesOnlyToNew(old(keys), old(endpoints), keys, endpoints, old(nextInfo))
      // The documented bound holds afterwards exactly when the old loads are within the lower limit.
      ensures Enrolled(old(loads), loads)
      ensures numEndpoints > 0 ==>
        (WithinBound(loads, loadFactor) <==>
           && AllWithin(old(loads), Limit(loadFactor, old(totalLoad), numEndpoints))
           && (es != [] ==> 0 <= Limit(loadFactor, old(totalLoad), numEndpoints)))
    {
      hide RingShape, NoCollision, Cells, Counted, TokensMatch, SumMap, KeySet, CanRegister, MovesOnlyToNew;
      hide OnlyNewcomers, StrictlySorted, Size, WithinBound, AllWithin, Limit, KeepsCells, DistinctEndpoints, Enrolled;
      EndpointsAreCounted();
      LoadsFollowLive();
      CanDropAgain(hash, replicas, live.Keys, es);
      AddSorted(es);
      EndpointsAreCounted();
      LoadsFollowLive();
      BoundAfterAdding(live, loads, old(live), old(loads), old(nextInfo), es, loadFactor, numEndpoints);
    }

    method RemoveReplicas(key: string)
      requires RingShape(hash, replicas, keys, endpoints, live) && key in live
      modifies this`keys, this`endpoints
      ensures RingShape(hash, replicas, keys, endpoints, live - {key})
    {
      hide RingShape, NoCollision, PartlyRemoved, ReplicaHash;
      NothingRemoved(hash, replicas, keys, endpoints, live, key);
      for i := 0 to replicas
        invariant PartlyRemoved(hash, old(endpoints), keys, endpoints, key, i)
      {
        var h := ReplicaHash(hash, key, i);
        ReplicaStillThere(hash, replicas, old(keys), old(endpoints), live, keys, endpoints, key, i);
        var fewer := DeleteFromSlice(keys, h);
        RemoveReplica(hash, replicas, old(keys), old(endpoints), live, keys, endpoints, fewer, key, i);
        keys := fewer;
        endpoints := endpoints - {h};
      }
      AllReplicasRemoved(hash, replicas, old(keys), old(endpoints), live, keys, endpoints, key);
    }
  
    /** The registration that `info(key)` finds, by the hash of the endpoint's first replica. */
    method Info(key: string) returns (id: Option<nat>)
      requires Booked() && NoCollision(hash, replicas, live.Keys + {key})
      ensures id == if key in live then Some(live[key]) else None
    {
      hide NoCollision, Cells, Counted, SumMap, Size;
      var h := ReplicaHash(hash, key, 0);
      if key !in live {
        NewReplicaIsFree(hash, replicas, endpoints, live, key, 0);
      }
      return if h in endpoints then Some(endpoints[h]) else None;
    }

    method RemoveOne(e: Endpoint)
      requires Booked()
      requires NoCollision(hash, replicas, live.Keys + {e.Key()})
      modifies this
      ensures Booked()
      ensures live == old(live) - {e.Key()} && loads == old(loads) - {e.Key()}
      ensures infos == old(infos) && nextInfo == old(nextInfo) && inFlight == old(inFlight)
      ensures old(Balanced()) ==> Balanced()
    {
      hide RingShape, NoCollision, ReplicaHash, Cells, Counted, TokensMatch, SumMap, Size;
      var key := e.Key();
      var found := Info(key);
      if found.None? {
        LoadsFollowLive();
        assert live - {key} == live && loads - {key} == loads;
        return;
      }
      CellOf(key);
      DropKeepsBooks(live, infos, nextInfo, loads, key);
      if Balanced() {
        DropKeepsTokens(live, loads, inFlight, nextInfo, key);
      }
      totalLoad := totalLoad - infos[found.value].load;
      RemoveReplicas(key);
      live, loads := live - {key}, loads - {key};
      numEndpoints := numEndpoints - 1;
    }

    lemma CellOf(key: string)
      requires Booked() && key in live
      ensures live[key] in infos && infos[live[key]].endpoint.Key() == key
      ensures key in loads && infos[live[key]].load == loads[key]
    { }

    method RemoveUnsorted(es: seq<Endpoint>)
      requires Booked()
      requires NoCollision(hash, replicas, live.Keys + KeySet(es))
      modifies this
      ensures Booked()
      ensures live == old(live) - KeySet(es) && loads == old(loads) - KeySet(es)
      ensures infos == old(infos) && nextInfo == old(nextInfo) && inFlight == old(inFlight)
      ensures old(Balanced()) ==> Balanced()
    {
      hide RingShape, NoCollision, Cells, Counted, TokensMatch, SumMap, Size, DroppedSoFar;
      NoneDropped(live, loads, es);
      for n := 0 to |es|
        invariant Booked()
        invariant DroppedSoFar(old(live), old(loads), es, n, live, loads)
        invariant infos == old(infos) && nextInfo == old(nextInfo) && inFlight == old(inFlight)
        invariant old(Balanced()) ==> Balanced()
      {
        OneMoreDropped(hash, replicas, old(live), old(loads), es, n, live, loads);
        RemoveOne(es[n]);
      }
      AllDropped(old(live), old(loads), es, live, loads);
    }

    /** Drops endpoints, skipping unknown ones. A hash that was with a staying endpoint stays. */
    method RemoveEndpoints(es: seq<Endpoint>)
      requires Valid()
      requires NoCollision(hash, replicas, live.Keys + KeySet(es))
      modifies this
      ensures Valid()
      ensures live == old(live) - KeySet(es) && loads == old(loads) - KeySet(es)
      ensures infos == old(infos) && nextInfo == old(nextInfo) && inFlight == old(inFlight)
      ensures old(Balanced()) ==> Balanced()
      ensures StaysWith(old(keys), old(endpoints), keys, endpoints, live)
      // The documented bound holds afterwards exactly when the loads that stay are within the new limit.
      ensures Retired(old(loads), loads)
      ensures totalLoad == old(totalLoad) - SumMap(Share(old(loads), KeySet(es)))
      ensures numEndpoints == old(numEndpoints) - |Share(old(loads), KeySet(es))|
      ensures numEndpoints > 0 ==>
        (WithinBound(loads, loadFactor) <==> forall l :: l in old(loads) && l !in KeySet(es) ==>
           old(loads)[l] <= Limit(loadFactor, totalLoad, numEndpoints))
    {
      hide RingShape, NoCollision, Cells, Counted, TokensMatch, SumMap, KeySet, StaysWith, StrictlySorted, Size;
      hide WithinBound, Limit, Share;
      EndpointsAreCounted();
      BoundAfterDropping(loads, KeySet(es), loadFactor);
      RemoveUnsorted(es);
      EndpointsAreCounted();
      SortKeepsShape(hash, replicas, keys, endpoints, live);
      keys := SortInts(keys);
      assert forall k :: k in live ==> k in old(live) && old(live)[k] == live[k];
      RemoveStaysWith(hash, replicas, old(keys), old(endpoints), old(live), keys, endpoints, live, infos, nextInfo);
    }

    /** Walks the ring from `start` to the first node whose endpoint admits a request. It passes
        over `steps` nodes, less than one lap. */
    method FindAdmitting(start: nat, ghost h: int) returns (idx: nat, ghost steps: nat)
      requires Valid() && loadFactor != 0.0 && SomeoneAdmits(loads, loadFactor)
      requires keys != [] && start == StartIndex(keys, h)
      ensures FirstToAdmit(keys, endpoints, infos, totalLoad, numEndpoints, loadFactor, start, steps)
      ensures idx < |keys| && keys[idx] == NodeAt(keys, start, steps)
      ensures ClockwiseNext(RoomyNodes(endpoints, infos, totalLoad, numEndpoints, loadFactor), h, keys[idx])
    {
      hide RingShape, Cells, Counted, SumMap, Size, StrictlySorted, LoadOK, SomeoneAdmits;
      hide RoomyNodes, ClockwiseNext, StartIndex;
      idx, steps := start, 0;
      NodeHasCell(hash, replicas, keys, endpoints, live, infos, nextInfo, idx);
      var info := endpoints[keys[idx]];
      ghost var lap := SomeNodeAdmits(hash, replicas, keys, endpoints, live, infos, nextInfo, loads, loadFactor, start);
      while !LoadOK(totalLoad, numEndpoints, infos[info].load, loadFactor)
        invariant idx < |keys| && steps <= lap && idx == Wrap(start + steps, |keys|)
        invariant keys[idx] in endpoints && info == endpoints[keys[idx]] && info in infos
        invariant forall j :: 0 <= j < steps ==>
          !AdmitsAt(endpoints, infos, totalLoad, numEndpoints, loadFactor, NodeAt(keys, start, j))
        decreases lap - steps
      {
        idx := idx + 1;
        if idx >= |keys| {
          idx := 0;
        }
        steps := steps + 1;
        NodeHasCell(hash, replicas, keys, endpoints, live, infos, nextInfo, idx);
        info := endpoints[keys[idx]];
      }
      NodesAreKeys(hash, replicas, keys, endpoints, live);
      FirstToAdmitIsClockwiseNext(keys, endpoints, infos, totalLoad, numEndpoints, loadFactor, h, steps);
    }

    /** Counts a request to the endpoint that owns node `keys[idx]`. */
    method Admit(idx: nat) returns (r: Option<Endpoint>)
      requires Valid() && loadFactor != 0.0 && idx < |keys| && keys[idx] in endpoints && endpoints[keys[idx]] in infos
      modifies this`infos, this`totalLoad, this`loads, this`inFlight
      ensures Valid()
      ensures var id := endpoints[keys[idx]];
              && r == Some(old(infos)[id].endpoint) && r.value.Key() in live
              && infos == old(infos)[id := old(infos)[id].(load := old(infos)[id].load + 1)]
              && totalLoad == old(totalLoad) + 1 && inFlight == old(inFlight) + multiset{id}
              && r.value.Key() in old(loads) && old(infos)[id].load == old(loads)[r.value.Key()]
              && loads == old(loads)[r.value.Key() := old(loads)[r.value.Key()] + 1]
      ensures old(Balanced()) ==> Balanced()
    {
      hide RingShape, Cells, Counted, SumMap, Size, StrictlySorted, TokensMatch;
      var info := endpoints[keys[idx]];
      ghost var k := LiveKeyOfNode(hash, replicas, keys, endpoints, live, infos, nextInfo, idx);
      CellOf(k);
      LoadChangeKeepsBooks(live, infos, nextInfo, loads, k, 1);
      if Balanced() {
        AdmitKeepsTokens(live, infos, loads, inFlight, nextInfo, k);
      }
      r := Some(infos[info].endpoint);
      infos := infos[info := infos[info].(load := infos[info].load + 1)];
      totalLoad := totalLoad + 1;
      loads := loads[k := loads[k] + 1];
      inFlight := inFlight + multiset{info};
    }

    /** Finds the endpoint for a key and, with bounded loads, counts the request; `token` then names
        the registration it is made to. The endpoint owns the node `chosen`: going clockwise from the
        key's hash the first node of all, or with bounded loads the first whose endpoint has room. */
    method Get(key: string)
      returns (r: Option<Endpoint>, ghost steps: nat, ghost chosen: int, ghost token: Option<nat>)
      requires Valid()
      requires CanServe()
      modifies this`infos, this`totalLoad, this`loads, this`inFlight
      ensures Valid()
      ensures r.None? <==> keys == []
      ensures r.None? <==> live == map[]
      ensures r.Some? ==> r.value.Key() in live
      ensures r.Some? ==>
        && chosen in endpoints && endpoints[chosen] in old(infos) && r.value == old(infos)[endpoints[chosen]].endpoint
        && ClockwiseNext(
             if loadFactor == 0.0 then endpoints.Keys
             else RoomyNodes(endpoints, old(infos), old(totalLoad), numEndpoints, loadFactor),
             hash(key), chosen)
        && (loadFactor != 0.0 ==> token == Some(endpoints[chosen]))
      ensures keys == [] || loadFactor == 0.0 ==>
        infos == old(infos) && totalLoad == old(totalLoad) && loads == old(loads) && inFlight == old(inFlight)
      ensures keys != [] && loadFactor == 0.0 ==>
        var id := RouteOf(keys, endpoints, hash(key));
        id.Some? && id.value in infos && r == Some(infos[id.value].endpoint)
      ensures keys != [] && loadFactor != 0.0 ==>
        var start := StartIndex(keys, hash(key));
        && FirstToAdmit(keys, endpoints, old(infos), old(totalLoad), numEndpoints, loadFactor, start, steps)
        && var id := endpoints[NodeAt(keys, start, steps)];
        && r == Some(old(infos)[id].endpoint)
        && infos == old(infos)[id := old(infos)[id].(load := old(infos)[id].load + 1)]
        && totalLoad == old(totalLoad) + 1 && inFlight == old(inFlight) + multiset{id} && token == Some(id)
        && infos[id].load <= Limit(loadFactor, totalLoad, numEndpoints)
      ensures token.Some? <==> r.Some? && loadFactor != 0.0
      ensures token.Some? ==>
        token.value in inFlight && token.value in infos && infos[token.value].endpoint == r.value
      ensures old(Balanced()) ==> Balanced()
      // The documented bound survives; it holds afterwards exactly when no load was above the new limit.
      ensures r.Some? && loadFactor != 0.0 ==>
        && Admitted(old(loads), loads, loadFactor, r.value.Key())
        && (WithinBound(loads, loadFactor) <==> AllWithin(old(loads), Limit(loadFactor, totalLoad, numEndpoints)))
      ensures old(WithinBound(loads, loadFactor)) ==> WithinBound(loads, loadFactor)
    {
      hide RingShape, Cells, Counted, SumMap, Size, StrictlySorted, TokensMatch, Limit, NodeAt;
      hide SomeoneAdmits, WithinBound, AllWithin, RoomyNodes, ClockwiseNext;
      EndpointsAreCounted();
      steps, chosen := 0, 0;
      NoNodesNoEndpoints(hash, replicas, keys, endpoints, live);
      if keys == [] {
        return None, 0, 0, None;
      }
      KeysAreSorted(keys);
      var start := Search(keys, hash(key));
      NodeHasCell(hash, replicas, keys, endpoints, live, infos, nextInfo, start);
      if loadFactor == 0.0 {
        ghost var k := LiveKeyOfNode(hash, replicas, keys, endpoints, live, infos, nextInfo, start);
        NodesAreKeys(hash, replicas, keys, endpoints, live);
        StartIndexIsClockwiseNext(keys, endpoints.Keys, hash(key));
        return Some(infos[endpoints[keys[start]]].endpoint), 0, keys[start], None;
      }
      var idx: nat;
      idx, steps := FindAdmitting(start, hash(key));
      chosen, token := keys[idx], Some(endpoints[keys[idx]]);
      r := Admit(idx);
      EndpointsAreCounted();
      AdmissionAndBound(old(loads), loads, loadFactor, r.value.Key(), totalLoad);
    }

    /** Counts one request less to the live endpoint `key`. */
    method Discharge(id: nat, ghost key: string)
      requires Valid() && key in live && live[key] == id
      modifies this`infos, this`totalLoad, this`loads
      ensures Valid() && Released(old(loads), loads, key)
      ensures id in old(infos) && infos == old(infos)[id := old(infos)[id].(load := old(infos)[id].load - 1)]
      ensures totalLoad == old(totalLoad) - 1
    {
      hide RingShape, Cells, Counted, SumMap, Size, StrictlySorted;
      CellOf(key);
      LoadChangeKeepsBooks(live, infos, nextInfo, loads, key, -1);
      infos := infos[id := infos[id].(load := infos[id].load - 1)];
      totalLoad := totalLoad - 1;
      loads := loads[key := loads[key] - 1];
    }

    /** Takes a request back. `token` stands for the request: the registration it was made to, or
        nothing when no counted request belongs to this call. The record is found by key, so a request
        to an earlier registration of the address is charged to the current one: loads and requests
        stay in step exactly when nothing is charged or the request was made to the registration that
        is charged. */
    method Put(e: Endpoint, ghost token: Option<nat>)
      requires Valid() && NoCollision(hash, replicas, live.Keys + {e.Key()})
      requires token.Some? ==>
        && loadFactor != 0.0 && token.value in inFlight
        && token.value in infos && infos[token.value].endpoint == e
      modifies this`infos, this`totalLoad, this`loads, this`inFlight
      ensures Valid() && inFlight == Returned(old(inFlight), token)
      ensures loadFactor == 0.0 || e.Key() !in live ==>
        infos == old(infos) && totalLoad == old(totalLoad) && loads == old(loads)
      ensures loadFactor != 0.0 && e.Key() in live ==>
        var id := live[e.Key()];
        && id in old(infos) && infos == old(infos)[id := old(infos)[id].(load := old(infos)[id].load - 1)]
        && totalLoad == old(totalLoad) - 1 && Released(old(loads), loads, e.Key())
      ensures old(Balanced()) ==>
        (Balanced() <==> loadFactor == 0.0 || e.Key() !in live || token == Some(live[e.Key()]))
      // The documented bound afterwards, in terms of the loads before.
      ensures loadFactor != 0.0 && e.Key() in live ==>
        var k, limit := e.Key(), Limit(loadFactor, totalLoad, numEndpoints);
        && k in old(loads)
        && (WithinBound(loads, loadFactor) <==>
              old(loads)[k] - 1 <= limit && forall l :: l in old(loads) && l != k ==> old(loads)[l] <= limit)
      // A matched release breaks the bound exactly when it lowers the limit while another endpoint is full.
      ensures old(Balanced()) && old(WithinBound(loads, loadFactor)) && token.Some? && e.Key() in live
              && token.value == live[e.Key()] ==>
        var full := Limit(loadFactor, old(totalLoad), numEndpoints);
        (WithinBound(loads, loadFactor) <==>
           || Limit(loadFactor, totalLoad, numEndpoints) >= full
           || forall l :: l in old(loads) && l != e.Key() ==> old(loads)[l] < full)
    {
      hide RingShape, NoCollision, Cells, Counted, SumMap, Size, StrictlySorted, TokensMatch, Limit, WithinBound;
      if loadFactor == 0.0 {
        return;
      }
      EndpointsAreCounted();
      inFlight := Returned(inFlight, token);
      var found := Info(e.Key());
      if found.None? {
        if old(Balanced()) {
          UnchargedReturn(live, infos, loads, old(inFlight), nextInfo, token);
        }
        return;
      }
      if old(Balanced()) {
        ChargedReturn(live, infos, loads, old(inFlight), nextInfo, e.Key(), token);
      }
      Discharge(found.value, e.Key());
      ReleaseAndBound(old(loads), loads, loadFactor, e.Key(), totalLoad);
      if old(Balanced()) && old(WithinBound(loads, loadFactor)) && token == Some(found.value) {
        MatchedLoads(live, old(loads), old(inFlight), nextInfo, e.Key());
        ReleaseKeepsBoundIff(old(loads), loads, loadFactor, e.Key(), totalLoad);
      }
    }

    /** Registering endpoints and dropping them again restores the ring. */
    method AddThenRemove(es: seq<Endpoint>)
      requires Valid() && CanRegister(hash, replicas, live.Keys, es)
      modifies this
      ensures Valid()
      ensures keys == old(keys) && endpoints == old(endpoints) && live == old(live) && loads == old(loads)
      ensures numEndpoints == old(numEndpoints) && totalLoad == old(totalLoad)
    {
      hide RingShape, NoCollision, Cells, Counted, TokensMatch, SumMap, KeySet, StaysWith, StrictlySorted, Size;
      hide MovesOnlyToNew, OnlyNewcomers;
      ghost var live0, loads0, next0 := live, loads, nextInfo;
      LoadsFollowLive();
      CanDropAgain(hash, replicas, live.Keys, es);
      AddEndpoints(es);
      LoadsFollowLive();
      assert (live.Keys + KeySet(es)) == live.Keys;
      DroppingRestores(live0, loads0, next0, live, loads, KeySet(es));
      RemoveEndpoints(es);
      SameRing(hash, replicas, old(keys), old(endpoints), keys, endpoints, live);
    }
  }

  lemma BoundAfterDropping(loads: Loads, keys: set<string>, factor: real)
    ensures SumMap(loads - keys) == SumMap(loads) - SumMap(Share(loads, keys))
    ensures |loads - keys| == |loads| - |Share(loads, keys)|
    ensures var n := |loads - keys|;
            n > 0 ==>
              (WithinBound(loads - keys, factor) <==>
                 forall l :: l in loads && l !in keys ==> loads[l] <= Limit(factor, SumMap(loads - keys), n))
  {
    hide WithinBound, Limit, SumMap, Share;
    SumSplit(loads, keys);
    CountSplit(loads, keys);
    RetirementAndBound(loads, keys, factor, SumMap(loads - keys), |loads - keys|);
  }

  ghost predicate DroppedSoFar(
      live: Live, loads: Loads, es: seq<Endpoint>, n: nat, live': Live, loads': Loads)
  {
    n <= |es| && live' == live - KeySet(es[..n]) && loads' == loads - KeySet(es[..n])
  }

  lemma NoneDropped(live: Live, loads: Loads, es: seq<Endpoint>)
    ensures DroppedSoFar(live, loads, es, 0, live, loads)
  { }

  lemma OneMoreDropped(
      hash: Hash, replicas: nat, live: Live, loads: Loads, es: seq<Endpoint>, n: nat,
      live': Live, loads': Loads)
    requires NoCollision(hash, replicas, live.Keys + KeySet(es))
    requires DroppedSoFar(live, loads, es, n, live', loads') && n < |es|
    ensures NoCollision(hash, replicas, live'.Keys + {es[n].Key()})
    ensures DroppedSoFar(live, loads, es, n + 1, live' - {es[n].Key()}, loads' - {es[n].Key()})
  {
    hide KeySet, NoCollision;
    KeySetStep(es, n);
    assert live'.Keys <= live.Keys;
    NoCollisionSubset(hash, replicas, live'.Keys + {es[n].Key()}, live.Keys + KeySet(es));
    assert live' - {es[n].Key()} == live - KeySet(es[..n + 1]);
    assert loads' - {es[n].Key()} == loads - KeySet(es[..n + 1]);
  }

  lemma AllDropped(
      live: Live, loads: Loads, es: seq<Endpoint>, live': Live, loads': Loads)
    requires DroppedSoFar(live, loads, es, |es|, live', loads')
    ensures live' == live - KeySet(es) && loads' == loads - KeySet(es)
  {
    assert es[..|es|] == es;
  }

  lemma CanDropAgain(hash: Hash, replicas: nat, liveKeys: set<string>, es: seq<Endpoint>)
    requires CanRegister(hash, replicas, liveKeys, es)
    ensures NoCollision(hash, replicas, liveKeys + KeySet(es)) && KeySet(es) !! liveKeys
  { }

  lemma DroppingRestores(
      live: Live, loads: Loads, next: nat, live': Live, loads': Loads, keys: set<string>)
    requires OnlyNewcomers(live, loads, next, live', loads')
    requires loads.Keys == live.Keys && loads'.Keys == live'.Keys && live'.Keys == live.Keys + keys && keys !! live.Keys
    ensures live' - keys == live && loads' - keys == loads
  { }

  /** Sorted keys and owners are determined by the live registrations. */
  lemma SameRing(
      hash: Hash, replicas: nat, keys: seq<int>, owner: Owners, keys': seq<int>, owner': Owners, live: Live)
    requires RingShape(hash, replicas, keys, owner, live) && StrictlySorted(keys)
    requires RingShape(hash, replicas, keys', owner', live) && StrictlySorted(keys')
    ensures owner == owner' && keys == keys'
  {
    hide Owned, NoCollision, Distinct, StrictlySorted;
    OwnedUnique(hash, replicas, owner, owner', live);
    assert forall x :: x in keys <==> x in keys';
    StrictlySortedUnique(keys, keys');
  }

  /** `NewConsistent`: there is no balancer for a load factor between 0 and 1. */
  method NewConsistent(hash: Hash, replicationCount: nat, loadFactor: real) returns (c: Option<Consistent>)
    ensures c.None? <==> loadFactor != 0.0 && loadFactor <= 1.0
    ensures c.Some? ==> fresh(c.value) && c.value.Valid() && c.value.Balanced() && c.value.live == map[]
  {
    if loadFactor != 0.0 && loadFactor <= 1.0 {
      return None;
    }
    var ring := new Consistent(hash, replicationCount, loadFactor);
    return Some(ring);
  }

  /** The failing input, on any ring: a request is handed out, its endpoint is removed and registered
      again, and the request comes back. The new registration is charged for it and goes below zero. */
  method LeftOverPut(c: Consistent, key: string) returns (e: Endpoint)
    requires c.Valid() && c.Balanced() && c.loadFactor != 0.0 && c.live != map[]
    modifies c
    ensures c.Valid() && !c.Balanced()
    ensures e.Key() in c.live && c.live.Keys == old(c.live.Keys)
    ensures e.Key() in c.loads && c.loads[e.Key()] == -1
  {
    hide NoCollision, StaysWith, MovesOnlyToNew, Cells, Counted, SumMap, Size, StrictlySorted, KeepsCells;
    hide WithinBound, AllWithin, Limit, FirstToAdmit, NodeAt, RingShape, SomeoneAdmits, TokensMatch, Admitted;
    hide ClockwiseNext, RoomyNodes;
    c.MatchedRingServes();
    var r, steps, chosen, token := c.Get(key);
    e := r.value;
    Reregister(c, e);
    c.LoadsFollowLive();
    assert c.live.Keys + {e.Key()} == c.live.Keys;
    NoCollisionAmongLive(c);
    c.Put(e, token);
    NegativeIsUnmatched(c.live, c.loads, c.inFlight, c.nextInfo, e.Key());
  }

  method Reregister(c: Consistent, e: Endpoint)
    requires c.Valid() && e.Key() in c.live
    modifies c
    ensures c.Valid() && c.live.Keys == old(c.live.Keys) && e.Key() in c.loads && c.loads[e.Key()] == 0
    ensures c.inFlight == old(c.inFlight) && (old(c.Balanced()) ==> c.Balanced())
    ensures forall id :: id in old(c.infos) ==> id in c.infos && c.infos[id] == old(c.infos)[id]
  {
    hide NoCollision, StaysWith, MovesOnlyToNew, Cells, Counted, SumMap, Size, StrictlySorted, RingShape, TokensMatch;
    hide WithinBound, AllWithin, Limit, Share, Enrolled, Retired;
    NoCollisionAmongLive(c);
    assert KeySet([e]) == {e.Key()};
    assert c.live.Keys + KeySet([e]) == c.live.Keys;
    c.RemoveEndpoints([e]);
    assert c.live.Keys + KeySet([e]) == old(c.live.Keys);
    c.AddEndpoints([e]);
    c.LoadsFollowLive();
  }

  lemma NoCollisionAmongLive(c: Consistent)
    requires c.Booked()
    ensures NoCollision(c.hash, c.replicas, c.live.Keys)
  {
    hide NoCollision;
  }

  lemma NegativeIsUnmatched(live: Live, loads: Loads, inFlight: multiset<nat>, next: nat, k: string)
    requires k in live && k in loads && loads[k] < 0
    ensures !TokensMatch(live, loads, inFlight, next)
  { }
}
