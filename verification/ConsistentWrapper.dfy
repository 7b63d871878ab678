/** Service discovery drives the balancer: each event lists the instances that exist now. */
module ServiceDiscovery {
  import opened Wrappers
  import opened FiniteSums
  import opened BoundedLoads
  import opened HashRing
  import opened Balance

  /** Either a list of instances or an error. */
  datatype Event = Instances(instances: seq<string>) | Error

  function Names(instances: seq<string>): set<string> { set i | i in instances }

  class ConsistentWrapper {
    var cache: map<string, Endpoint>
    const c: Consistent

    ghost predicate Valid()
      reads this, c
    {
      c.Valid() && Cached(cache, c.live)
    }

    constructor (hash: Hash, loadFactor: real)
      requires loadFactor == 0.0 || loadFactor > 1.0
      ensures Valid() && fresh(c) && cache == map[] && c.Balanced()
    {
      cache := map[];
      c := new Consistent(hash, 0, loadFactor);
    }

    /** Takes the instances that disappeared out of the cache, in any order. */
    method Removals(instances: seq<string>) returns (removals: seq<Endpoint>)
      requires forall k :: k in cache ==> cache[k] == Endpoint(k)
      modifies this`cache
      ensures KeySet(removals) == old(cache).Keys - Names(instances)
      ensures cache == old(cache) - KeySet(removals)
    {
      removals := [];
      var todo := cache.Keys;
      while todo != {}
        invariant todo <= old(cache).Keys
        invariant cache == old(cache) - KeySet(removals)
        invariant KeySet(removals) == (old(cache).Keys - todo) - Names(instances)
        decreases todo
      {
        var key :| key in todo;
        todo := todo - {key};
        if key !in instances {
          ghost var before := removals;
          removals := removals + [cache[key]];
          KeySetAppend(before, cache[key]);
          cache := cache - {key};
        }
      }
    }

    /** Puts the instances that are not cached into the cache; repeated instances count once. */
    method Additions(instances: seq<string>) returns (additions: seq<Endpoint>)
      requires forall k :: k in cache ==> cache[k] == Endpoint(k)
      modifies this`cache
      ensures DistinctEndpoints(additions)
      ensures KeySet(additions) == Names(instances) - old(cache).Keys
      ensures cache.Keys == old(cache).Keys + KeySet(additions)
      ensures forall k :: k in cache ==> cache[k] == Endpoint(k)
    {
      additions := [];
      for n := 0 to |instances|
        invariant DistinctEndpoints(additions)
        invariant KeySet(additions) == Names(instances[..n]) - old(cache).Keys
        invariant cache.Keys == old(cache).Keys + KeySet(additions)
        invariant forall k :: k in cache ==> cache[k] == Endpoint(k)
      {
        var instance := instances[n];
        assert instances[..n + 1] == instances[..n] + [instance];
        assert Names(instances[..n + 1]) == Names(instances[..n]) + {instance};
        if instance !in cache {
          var endpoint := Endpoint(instance);
          KeySetAppend(additions, endpoint);
          DistinctAppend(additions, endpoint);
          cache := cache[instance := endpoint];
          additions := additions + [endpoint];
        }
      }
      assert instances[..|instances|] == instances;
    }

    /** Drops the endpoints that are not listed. */
    method Retire(instances: seq<string>)
      requires Valid() && NoCollision(c.hash, c.replicas, cache.Keys + Names(instances))
      modifies this`cache, c
      ensures Valid() && cache.Keys == old(cache).Keys * Names(instances)
      ensures Kept(old(c.live), old(c.loads), c.live, c.loads) && c.nextInfo == old(c.nextInfo)
      ensures c.infos == old(c.infos) && c.inFlight == old(c.inFlight)
      ensures old(c.Balanced()) ==> c.Balanced()
    {
      hide NoCollision, StaysWith, KeySet, Names, RingShape, Cells, Counted, TokensMatch, StrictlySorted, Size, SumMap;
      hide WithinBound, AllWithin, Limit, Share, Retired;
      var removals := Removals(instances);
      assert old(cache).Keys + KeySet(removals) == old(cache).Keys;
      NoCollisionSubset(c.hash, c.replicas, c.live.Keys + KeySet(removals), old(cache).Keys + Names(instances));
      c.RemoveEndpoints(removals);
    }

    /** Registers the listed endpoints that are not live yet. */
    method Enroll(instances: seq<string>)
      requires Valid() && NoCollision(c.hash, c.replicas, cache.Keys + Names(instances))
      modifies this`cache, c
      ensures Valid() && cache.Keys == old(cache).Keys + Names(instances)
      ensures OnlyNewcomers(old(c.live), old(c.loads), old(c.nextInfo), c.live, c.loads)
      ensures KeepsCells(old(c.infos), c.infos) && c.inFlight == old(c.inFlight)
      ensures old(c.Balanced()) ==> c.Balanced()
    {
      hide NoCollision, CanRegister, OnlyNewcomers, MovesOnlyToNew, KeySet, Names, DistinctEndpoints, RingShape;
      hide Cells, Counted, TokensMatch, StrictlySorted, Size, SumMap, WithinBound, AllWithin, Limit, Enrolled;
      hide KeepsCells;
      var additions := Additions(instances);
      MayRegister(c.hash, c.replicas, c.live.Keys, additions, old(cache).Keys + Names(instances));
      c.AddEndpoints(additions);
    }

    /** Makes the listed instances the live endpoints. An instance that was there before keeps its
        registration and its load; a new or returning one starts a fresh registration, idle. */
    method Update(event: Event)
      requires Valid()
      requires event.Instances? ==> NoCollision(c.hash, c.replicas, cache.Keys + Names(event.instances))
      modifies this`cache, c
      ensures Valid()
      ensures event.Error? ==> cache == old(cache) && c.live == old(c.live) && c.loads == old(c.loads)
      ensures event.Instances? ==> cache.Keys == Names(event.instances)
      ensures event.Instances? ==> Carried(old(c.live), old(c.loads), old(c.nextInfo), c.live, c.loads)
      ensures KeepsCells(old(c.infos), c.infos) && c.inFlight == old(c.inFlight)
      ensures old(c.Balanced()) ==> c.Balanced()
    {
      hide NoCollision, OnlyNewcomers, Kept, Carried, Names, RingShape, Cells, Counted, TokensMatch, StrictlySorted;
      hide Size, SumMap;
      if event.Error? {
        return;
      }
      ghost var names := Names(event.instances);
      c.LoadsFollowLive();
      Retire(event.instances);
      c.LoadsFollowLive();
      ghost var live1, loads1 := c.live, c.loads;
      assert cache.Keys + names <= old(cache).Keys + names;
      NoCollisionSubset(c.hash, c.replicas, cache.Keys + names, old(cache).Keys + names);
      Enroll(event.instances);
      assert old(cache).Keys * names + names == names;
      CarryOver(old(c.live), old(c.loads), old(c.nextInfo), live1, loads1, c.live, c.loads);
    }

    method Get(key: string) returns (r: Result<Endpoint>, ghost chosen: int, ghost token: Option<nat>)
      requires Valid() && c.CanServe()
      modifies c`infos, c`totalLoad, c`loads, c`inFlight
      ensures Valid()
      ensures r.Failure? <==> cache == map[]
      ensures r.Success? ==> r.value.Key() in cache
      ensures r.Success? ==>
        && chosen in c.endpoints && c.endpoints[chosen] in old(c.infos)
        && r.value == old(c.infos)[c.endpoints[chosen]].endpoint
        && ClockwiseNext(
             if c.loadFactor == 0.0 then c.endpoints.Keys
             else RoomyNodes(c.endpoints, old(c.infos), old(c.totalLoad), c.numEndpoints, c.loadFactor),
             c.hash(key), chosen)
        && (c.loadFactor != 0.0 ==> token == Some(c.endpoints[chosen]))
      ensures token.Some? <==> r.Success? && c.loadFactor != 0.0
      ensures token.Some? ==>
        token.value in c.inFlight && token.value in c.infos && c.infos[token.value].endpoint == r.value
      ensures old(c.Balanced()) ==> c.Balanced()
    {
      hide RingShape, Cells, Counted, TokensMatch, StrictlySorted, Size, FirstToAdmit, RouteOf;
      hide WithinBound, AllWithin, Admitted, SomeoneAdmits, ClockwiseNext, RoomyNodes;
      var found, steps, node, handle := c.Get(key);
      chosen, token := node, handle;
      if found.None? {
        return Failure("no endpoints"), chosen, token;
      }
      return Success(found.value), chosen, token;
    }

    /** Takes back the request that `token` stands for; see `Consistent.Put`. */
    method Put(endpoint: Endpoint, ghost token: Option<nat>)
      requires Valid() && NoCollision(c.hash, c.replicas, cache.Keys + {endpoint.Key()})
      requires token.Some? ==>
        && c.loadFactor != 0.0 && token.value in c.inFlight
        && token.value in c.infos && c.infos[token.value].endpoint == endpoint
      modifies c`infos, c`totalLoad, c`loads, c`inFlight
      ensures Valid() && cache == old(cache) && c.inFlight == Returned(old(c.inFlight), token)
      ensures old(c.Balanced()) ==>
        (c.Balanced() <==>
           c.loadFactor == 0.0 || endpoint.Key() !in cache || token == Some(c.live[endpoint.Key()]))
    {
      hide RingShape, NoCollision, Cells, Counted, TokensMatch, StrictlySorted, Size, SumMap, WithinBound, Limit;
      c.Put(endpoint, token);
    }
  }

  /** Registrations that stay keep their identity and load; all others are new and idle. */
  ghost predicate Carried(
      live: Live, loads: Loads, next: nat, live': Live, loads': Loads)
  {
    && (forall k :: k in live && k in live' ==>
          live'[k] == live[k] && k in loads && k in loads' && loads'[k] == loads[k])
    && (forall k :: k in live' && k !in live ==> live'[k] >= next && k in loads' && loads'[k] == 0)
  }

  lemma MayRegister(hash: Hash, replicas: nat, liveKeys: set<string>, es: seq<Endpoint>, all: set<string>)
    requires NoCollision(hash, replicas, all) && liveKeys <= all && KeySet(es) <= all
    requires DistinctEndpoints(es) && KeySet(es) !! liveKeys
    ensures CanRegister(hash, replicas, liveKeys, es)
  { }

  /** What is left of the registrations is as before. */
  ghost predicate Kept(live: Live, loads: Loads, live': Live, loads': Loads) {
    && (forall k :: k in live' ==> k in live && live'[k] == live[k])
    && (forall k :: k in loads' ==> k in loads && loads'[k] == loads[k])
  }

  lemma CarryOver(
      live: Live, loads: Loads, next: nat,
      live1: Live, loads1: Loads, live2: Live, loads2: Loads)
    requires loads.Keys == live.Keys && loads1.Keys == live1.Keys
    requires Kept(live, loads, live1, loads1) && OnlyNewcomers(live1, loads1, next, live2, loads2)
    requires forall k :: k in live && k in live2 ==> k in live1
    ensures Carried(live, loads, next, live2, loads2)
  { }

  /** The cache holds exactly the live endpoints. */
  ghost predicate Cached(cache: map<string, Endpoint>, live: Live) {
    cache.Keys == live.Keys && forall k :: k in cache ==> cache[k] == Endpoint(k)
  }

  lemma KeySetAppend(es: seq<Endpoint>, e: Endpoint)
    ensures KeySet(es + [e]) == KeySet(es) + {e.Key()}
  { }

  lemma DistinctAppend(es: seq<Endpoint>, e: Endpoint)
    requires DistinctEndpoints(es) && e.Key() !in KeySet(es)
    ensures DistinctEndpoints(es + [e])
  {
    assert forall i :: 0 <= i < |es| ==> es[i].Key() in KeySet(es);
  }
}
