/** The test scheduler's endpoint: look a schedule up, else compute one and insert it unless
    another request was faster. Requests run concurrently; only the store's operations are atomic. */
module ScheduleStore {
  import opened Wrappers
  import opened Decimal
  import opened Sharding

  datatype Request = Request(testRun: string, shardCount: nat, shard: nat, tests: seq<string>)

  function ScheduleId(r: Request): string { r.testRun + "-" + Itoa(r.shardCount) }

  /** A test nobody has timed yet costs 1. */
  function CostOf(times: map<string, real>): Costs {
    (t: string) => if t in times then times[t] else 1.0
  }

  function Answer(shards: Shards, shard: nat): Result<seq<string>> {
    if shard < |shards| then Success(shards[shard]) else Failure("KeyError")
  }

  /** Zero shards can hold no test: taking the minimum of no shards raises an exception. */
  function Compute(times: map<string, real>, r: Request): Result<Shards> {
    if r.shardCount > 0 then Success(GreedySchedule(CostOf(times), r.tests, r.shardCount))
    else if r.tests == [] then Success([])
    else Failure("ValueError")
  }

  function GetOrInsert(store: map<string, Shards>, id: string, shards: Shards): map<string, Shards> {
    if id in store then store else store[id := shards]
  }

  // ---------------------------------------------------------------- interleaved requests

  datatype Phase =
    | Arrived
    | Missed
    | Computed(shards: Shards)
    | Answered(answer: Result<seq<string>>)

  datatype State = State(times: map<string, real>, store: map<string, Shards>, phases: seq<Phase>)

  /** One atomic action. `Record` stands for any change of the recorded run times. */
  datatype Event =
    | Record(times: map<string, real>)
    | Lookup(i: nat)
    | Plan(i: nat)
    | Insert(i: nat)

  function Next(reqs: seq<Request>, s: State, e: Event): State
    requires |s.phases| == |reqs|
  {
    match e
    case Record(times) => s.(times := times)
    case Lookup(i) =>
      if i < |reqs| && s.phases[i].Arrived? then
        var id := ScheduleId(reqs[i]);
        s.(phases := s.phases[i := if id in s.store then Answered(Answer(s.store[id], reqs[i].shard)) else Missed])
      else s
    case Plan(i) =>
      if i < |reqs| && s.phases[i].Missed? then
        s.(phases := s.phases[i :=
          match Compute(s.times, reqs[i])
          case Success(shards) => Computed(shards)
          case Failure(error) => Answered(Failure(error))])
      else s
    case Insert(i) =>
      if i < |reqs| && s.phases[i].Computed? then
        var id := ScheduleId(reqs[i]);
        var store := GetOrInsert(s.store, id, s.phases[i].shards);
        s.(store := store, phases := s.phases[i := Answered(Answer(store[id], reqs[i].shard))])
      else s
  }

  function Run(reqs: seq<Request>, s: State, events: seq<Event>): (r: State)
    requires |s.phases| == |reqs|
    ensures |r.phases| == |reqs|
    decreases |events|
  {
    if events == [] then s else Next(reqs, Run(reqs, s, events[..|events| - 1]), events[|events| - 1])
  }

  function Initial(reqs: seq<Request>, times: map<string, real>): State {
    State(times, map[], seq(|reqs|, _ => Arrived))
  }

  ghost predicate Planned(r: Request, shards: Shards) { Partitions(shards, r.shardCount, r.tests) }

  /** A stored schedule partitions the tests of a request that used its id. */
  ghost predicate StoredFor(reqs: seq<Request>, id: string, shards: Shards) {
    exists i :: 0 <= i < |reqs| && ScheduleId(reqs[i]) == id && Planned(reqs[i], shards)
  }

  ghost predicate AnswerFromStore(s: State, r: Request, answer: Result<seq<string>>) {
    answer.Success? ==> ScheduleId(r) in s.store && answer == Answer(s.store[ScheduleId(r)], r.shard)
  }

  ghost predicate Inv(reqs: seq<Request>, s: State) {
    && |s.phases| == |reqs|
    && (forall i :: 0 <= i < |reqs| && s.phases[i].Computed? ==> Planned(reqs[i], s.phases[i].shards))
    && (forall id :: id in s.store ==> StoredFor(reqs, id, s.store[id]))
    && (forall i :: 0 <= i < |reqs| && s.phases[i].Answered? ==> AnswerFromStore(s, reqs[i], s.phases[i].answer))
  }

  /** Entries of the store are written once and never changed. */
  ghost predicate Extends(before: map<string, Shards>, after: map<string, Shards>) {
    forall id :: id in before ==> id in after && after[id] == before[id]
  }

  lemma ComputePlans(times: map<string, real>, r: Request)
    ensures Compute(times, r).Success? ==> Planned(r, Compute(times, r).value)
  {
    if r.shardCount > 0 {
      GreedyPartitions(CostOf(times), r.tests, r.shardCount);
    }
  }

  lemma NextKeepsInv(reqs: seq<Request>, s: State, e: Event)
    requires Inv(reqs, s)
    ensures Inv(reqs, Next(reqs, s, e))
    ensures Extends(s.store, Next(reqs, s, e).store)
  {
    hide Planned, ScheduleId, GreedySchedule;
    match e
    case Record(_) =>
    case Lookup(i) =>
    case Plan(i) =>
      if i < |reqs| {
        ComputePlans(s.times, reqs[i]);
      }
    case Insert(i) =>
      if i < |reqs| && s.phases[i].Computed? {
        InsertKeepsInv(reqs, s, i);
      }
  }

  lemma InsertKeepsInv(reqs: seq<Request>, s: State, i: nat)
    requires Inv(reqs, s) && i < |reqs| && s.phases[i].Computed?
    ensures Inv(reqs, Next(reqs, s, Insert(i)))
  {
    hide Planned, ScheduleId;
    var s' := Next(reqs, s, Insert(i));
    assert forall id :: id in s'.store ==> StoredFor(reqs, id, s'.store[id]);
    assert Extends(s.store, s'.store);
    forall j | 0 <= j < |reqs| && s'.phases[j].Answered?
      ensures AnswerFromStore(s', reqs[j], s'.phases[j].answer)
    {
      if j != i {
        assert AnswerFromStore(s, reqs[j], s.phases[j].answer);
      }
    }
  }

  lemma {:induction false} RunKeepsInv(reqs: seq<Request>, times: map<string, real>, events: seq<Event>)
    ensures Inv(reqs, Run(reqs, Initial(reqs, times), events))
    decreases |events|
  {
    if events != [] {
      RunKeepsInv(reqs, times, events[..|events| - 1]);
      NextKeepsInv(reqs, Run(reqs, Initial(reqs, times), events[..|events| - 1]), events[|events| - 1]);
    }
  }

  // ---------------------------------------------------------------- what callers can rely on

  /** Over every interleaving, with run times changing in between, all successful answers to
      requests with one schedule id are slices of one and the same partition, of as many shards
      as every one of them asked for, and of the tests that one of them sent. */
  lemma AnswersAreSlicesOfOnePartition(reqs: seq<Request>, times: map<string, real>, events: seq<Event>, i: nat)
    returns (shards: Shards, j: nat)
    requires i < |reqs|
    requires var p := Run(reqs, Initial(reqs, times), events).phases[i]; p.Answered? && p.answer.Success?
    ensures Run(reqs, Initial(reqs, times), events).store.Keys >= {ScheduleId(reqs[i])}
    ensures shards == Run(reqs, Initial(reqs, times), events).store[ScheduleId(reqs[i])]
    ensures j < |reqs| && ScheduleId(reqs[j]) == ScheduleId(reqs[i])
    ensures Partitions(shards, reqs[i].shardCount, reqs[j].tests)
    ensures reqs[i].shard < reqs[i].shardCount
    ensures Run(reqs, Initial(reqs, times), events).phases[i].answer.value == shards[reqs[i].shard]
  {
    var s := Run(reqs, Initial(reqs, times), events);
    RunKeepsInv(reqs, times, events);
    var id := ScheduleId(reqs[i]);
    assert AnswerFromStore(s, reqs[i], s.phases[i].answer);
    shards := s.store[id];
    assert StoredFor(reqs, id, shards);
    j :| 0 <= j < |reqs| && ScheduleId(reqs[j]) == id && Planned(reqs[j], shards);
    DashedNumeralInjective(reqs[i].testRun, reqs[i].shardCount, reqs[j].testRun, reqs[j].shardCount);
  }

  /** `who[k]` is a request for shard `k` of one schedule, and it has been answered. */
  ghost predicate AllShardsAnswered(reqs: seq<Request>, s: State, who: seq<nat>, id: string) {
    forall k :: 0 <= k < |who| ==>
      && who[k] < |reqs| && who[k] < |s.phases|
      && ScheduleId(reqs[who[k]]) == id && reqs[who[k]].shard == k && reqs[who[k]].shardCount == |who|
      && s.phases[who[k]].Answered? && s.phases[who[k]].answer.Success?
  }

  ghost function Answers(s: State, who: seq<nat>): Shards
    requires forall k :: 0 <= k < |who| ==>
      who[k] < |s.phases| && s.phases[who[k]].Answered? && s.phases[who[k]].answer.Success?
  {
    seq(|who|, k requires 0 <= k < |who| => s.phases[who[k]].answer.value)
  }

  /** If all requests of a schedule send the same tests, then the answers for its shards
      together hand out every test exactly as often as it was sent. */
  lemma AnswersPartitionTests(
      reqs: seq<Request>, times: map<string, real>, events: seq<Event>, who: seq<nat>, id: string, tests: seq<string>)
    requires who != []
    requires AllShardsAnswered(reqs, Run(reqs, Initial(reqs, times), events), who, id)
    requires forall i :: 0 <= i < |reqs| && ScheduleId(reqs[i]) == id ==> multiset(reqs[i].tests) == multiset(tests)
    ensures Partitions(Answers(Run(reqs, Initial(reqs, times), events), who), |who|, tests)
  {
    hide ScheduleId, Run, Next;
    var s := Run(reqs, Initial(reqs, times), events);
    var shards, j := AnswersAreSlicesOfOnePartition(reqs, times, events, who[0]);
    forall k | 0 <= k < |who|
      ensures Answers(s, who)[k] == shards[k]
    {
      var shards', j' := AnswersAreSlicesOfOnePartition(reqs, times, events, who[k]);
    }
    assert Answers(s, who) == shards;
  }

  /** In a partition of distinct tests each test sits on one and only one shard. */
  lemma {:induction false} OneShardPerTest(shards: Shards, t: string, a: nat, b: nat)
    requires a < b < |shards| && t in shards[a] && t in shards[b]
    ensures multiset(Flatten(shards))[t] >= 2
  {
    var n := |shards| - 1;
    assert multiset(shards[b])[t] >= 1;
    if b < n {
      OneShardPerTest(shards[..n], t, a, b);
    } else {
      HeldTestIsCounted(shards[..n], t, a);
    }
  }

  lemma {:induction false} HeldTestIsCounted(shards: Shards, t: string, a: nat)
    requires a < |shards| && t in shards[a]
    ensures multiset(Flatten(shards))[t] >= 1
  {
    var n := |shards| - 1;
    if a < n {
      HeldTestIsCounted(shards[..n], t, a);
    } else {
      assert multiset(shards[a])[t] >= 1;
    }
  }

  lemma DistinctTestsLandOnce(shards: Shards, m: nat, tests: seq<string>, t: string)
    requires Partitions(shards, m, tests)
    requires multiset(tests)[t] == 1
    ensures exists k :: 0 <= k < m && t in shards[k] && forall l :: 0 <= l < m && t in shards[l] ==> l == k
  {
    assert t in multiset(Flatten(shards));
    var k := SomeShardHolds(shards, t);
    forall l | 0 <= l < m && t in shards[l]
      ensures l == k
    {
      if l < k {
        OneShardPerTest(shards, t, l, k);
      } else if k < l {
        OneShardPerTest(shards, t, k, l);
      }
    }
  }

  // ---------------------------------------------------------------- the request handler

  function Who(e: Event): Option<nat> {
    match e
    case Record(_) => None
    case Lookup(i) => Some(i)
    case Plan(i) => Some(i)
    case Insert(i) => Some(i)
  }

  /** The events of request `i`, in order. */
  function Own(events: seq<Event>, i: nat): seq<Event> {
    if events == [] then []
    else
      var n := |events| - 1;
      if Who(events[n]) == Some(i) then Own(events[..n], i) + [events[n]] else Own(events[..n], i)
  }

  lemma {:induction false} RunConcat(reqs: seq<Request>, s: State, a: seq<Event>, b: seq<Event>, i: nat)
    requires |s.phases| == |reqs|
    ensures Run(reqs, s, a + b) == Run(reqs, Run(reqs, s, a), b)
    ensures Own(a + b, i) == Own(a, i) + Own(b, i)
    decreases |b|
  {
    hide Next;
    if b == [] {
      assert a + b == a;
    } else {
      var n := |b| - 1;
      assert (a + b)[..|a + b| - 1] == a + b[..n];
      RunConcat(reqs, s, a, b[..n], i);
    }
  }

  lemma NoEvents(reqs: seq<Request>, s: State, i: nat)
    requires Inv(reqs, s)
    ensures Run(reqs, s, []) == s && Own([], i) == []
  { }

  lemma {:induction false} RunExtendsStore(reqs: seq<Request>, s: State, events: seq<Event>)
    requires Inv(reqs, s)
    ensures Inv(reqs, Run(reqs, s, events)) && Extends(s.store, Run(reqs, s, events).store)
    decreases |events|
  {
    hide Next;
    if events != [] {
      RunExtendsStore(reqs, s, events[..|events| - 1]);
      NextKeepsInv(reqs, Run(reqs, s, events[..|events| - 1]), events[|events| - 1]);
    }
  }

  /** Events of other requests leave request `i` where it is. */
  lemma {:induction false} OthersLeavePhase(reqs: seq<Request>, s: State, events: seq<Event>, i: nat)
    requires |s.phases| == |reqs| && i < |reqs| && Own(events, i) == []
    ensures Run(reqs, s, events).phases[i] == s.phases[i]
    decreases |events|
  {
    if events != [] {
      OthersLeavePhase(reqs, s, events[..|events| - 1], i);
    }
  }

  /** A stored schedule has as many shards as every request that uses its ID asks for. */
  lemma StoredShardCount(reqs: seq<Request>, s: State, i: nat)
    requires Inv(reqs, s) && i < |reqs| && ScheduleId(reqs[i]) in s.store
    ensures |s.store[ScheduleId(reqs[i])]| == reqs[i].shardCount
  {
    var id := ScheduleId(reqs[i]);
    assert StoredFor(reqs, id, s.store[id]);
    var j :| 0 <= j < |reqs| && ScheduleId(reqs[j]) == id && Planned(reqs[j], s.store[id]);
    DashedNumeralInjective(reqs[i].testRun, reqs[i].shardCount, reqs[j].testRun, reqs[j].shardCount);
  }

  /** Event `k` is the one with which request `i` puts its schedule into the store. */
  ghost predicate Inserts(reqs: seq<Request>, s: State, events: seq<Event>, k: nat, i: nat)
    requires |s.phases| == |reqs|
  {
    && k < |events| && i < |reqs| && events[k] == Insert(i)
    && ScheduleId(reqs[i]) !in Run(reqs, s, events[..k]).store
    && ScheduleId(reqs[i]) in Run(reqs, s, events[..k + 1]).store
  }

  /** What a request inserts partitions its own tests, and is there to stay. */
  lemma InsertedForGood(reqs: seq<Request>, s: State, events: seq<Event>, k: nat, i: nat)
    requires Inv(reqs, s) && Inserts(reqs, s, events, k, i)
    ensures ScheduleId(reqs[i]) in Run(reqs, s, events).store
    ensures Planned(reqs[i], Run(reqs, s, events).store[ScheduleId(reqs[i])])
  {
    hide ScheduleId, Planned;
    var before, after := Run(reqs, s, events[..k]), Run(reqs, s, events[..k + 1]);
    RunExtendsStore(reqs, s, events[..k]);
    assert events[..k + 1][..k] == events[..k];
    assert after == Next(reqs, before, Insert(i));
    NextKeepsInv(reqs, before, Insert(i));
    assert events == events[..k + 1] + events[k + 1..];
    RunConcat(reqs, s, events[..k + 1], events[k + 1..], i);
    RunExtendsStore(reqs, after, events[k + 1..]);
  }

  // ---------------------------------------------------------------- how good the schedules are

  /** `f` charges a test its recorded time, and 1 when there is none. */
  ghost predicate ChargesTimes(f: Costs, times: map<string, real>) {
    forall t :: f(t) == if t in times then times[t] else 1.0
  }

  /** Measured by `times`, no shard takes more than (4m - 1) / 3m of the longest shard of any other
      distribution of the request's tests over its `m` shards. */
  ghost predicate NearlyOptimal(times: map<string, real>, r: Request, shards: Shards) {
    forall f: Costs, other: Shards, O: real, shard ::
      ChargesTimes(f, times) && NonNegative(f) && shard in shards
      && Partitions(other, r.shardCount, r.tests) && Within(f, other, O) ==>
        3.0 * r.shardCount as real * Load(f, shard) <= (4.0 * r.shardCount as real - 1.0) * O
  }

  lemma {:induction false} SameLoad(f: Costs, g: Costs, tests: seq<string>)
    requires forall t :: f(t) == g(t)
    ensures Load(f, tests) == Load(g, tests)
  {
    if tests != [] {
      SameLoad(f, g, tests[..|tests| - 1]);
    }
  }

  lemma ComputeIsNearlyOptimal(times: map<string, real>, r: Request)
    ensures Compute(times, r).Success? ==> NearlyOptimal(times, r, Compute(times, r).value)
  {
    hide GreedySchedule, Partitions, Load;
    if Compute(times, r).Success? && r.shardCount > 0 {
      var g, shards := CostOf(times), Compute(times, r).value;
      forall f: Costs, other: Shards, O: real, shard |
        ChargesTimes(f, times) && NonNegative(f) && shard in shards
        && Partitions(other, r.shardCount, r.tests) && Within(f, other, O)
        ensures 3.0 * r.shardCount as real * Load(f, shard) <= (4.0 * r.shardCount as real - 1.0) * O
      {
        forall tests: seq<string>
          ensures Load(f, tests) == Load(g, tests)
        {
          SameLoad(f, g, tests);
        }
        GreedyIsNearlyOptimal(g, r.tests, r.shardCount, other, O);
      }
    }
  }

  /** Event `p` is the one with which request `i` computed `shards`. */
  ghost predicate Plans(reqs: seq<Request>, s: State, events: seq<Event>, p: nat, i: nat, shards: Shards)
    requires |s.phases| == |reqs|
  {
    && p < |events| && i < |reqs| && events[p] == Plan(i)
    && Compute(Run(reqs, s, events[..p]).times, reqs[i]) == Success(shards)
  }

  lemma {:induction false} ComputedByPlan(reqs: seq<Request>, s: State, events: seq<Event>, i: nat) returns (p: nat)
    requires |s.phases| == |reqs| && i < |reqs|
    requires !s.phases[i].Computed? && Run(reqs, s, events).phases[i].Computed?
    ensures Plans(reqs, s, events, p, i, Run(reqs, s, events).phases[i].shards)
    decreases |events|
  {
    hide Compute, ScheduleId;
    var n := |events| - 1;
    if Run(reqs, s, events[..n]).phases[i].Computed? {
      p := ComputedByPlan(reqs, s, events[..n], i);
      assert events[..n][..p] == events[..p];
    } else {
      p := n;
    }
  }

  /** What a request inserts is nearly optimal by the times recorded when it computed it. */
  lemma InsertedIsNearlyOptimal(reqs: seq<Request>, s: State, events: seq<Event>, k: nat, i: nat) returns (p: nat)
    requires Inv(reqs, s) && Inserts(reqs, s, events, k, i) && !s.phases[i].Computed?
    ensures p < k && events[p] == Plan(i)
    ensures ScheduleId(reqs[i]) in Run(reqs, s, events).store
    ensures NearlyOptimal(Run(reqs, s, events[..p]).times, reqs[i], Run(reqs, s, events).store[ScheduleId(reqs[i])])
  {
    hide ScheduleId, Planned, Compute, NearlyOptimal;
    var before, after := Run(reqs, s, events[..k]), Run(reqs, s, events[..k + 1]);
    RunExtendsStore(reqs, s, events[..k]);
    assert events[..k + 1][..k] == events[..k];
    assert after == Next(reqs, before, Insert(i));
    p := ComputedByPlan(reqs, s, events[..k], i);
    assert events[..k][..p] == events[..p];
    ComputeIsNearlyOptimal(Run(reqs, s, events[..p]).times, reqs[i]);
    NextKeepsInv(reqs, before, Insert(i));
    assert events == events[..k + 1] + events[k + 1..];
    RunConcat(reqs, s, events[..k + 1], events[k + 1..], i);
    RunExtendsStore(reqs, after, events[k + 1..]);
  }

  /** An entry of the store was inserted by a request. */
  lemma {:induction false} InsertedBySomeone(reqs: seq<Request>, s: State, events: seq<Event>, id: string)
    returns (k: nat, j: nat)
    requires |s.phases| == |reqs| && id !in s.store && id in Run(reqs, s, events).store
    ensures Inserts(reqs, s, events, k, j) && ScheduleId(reqs[j]) == id
    decreases |events|
  {
    hide ScheduleId, Compute;
    var n := |events| - 1;
    if id in Run(reqs, s, events[..n]).store {
      k, j := InsertedBySomeone(reqs, s, events[..n], id);
      assert events[..n][..k] == events[..k] && events[..n][..k + 1] == events[..k + 1];
    } else {
      assert events[..n + 1] == events;
      k, j := n, events[n].i;
    }
  }

  /** Over every interleaving, with run times changing in between, a successful answer is nearly
      optimal: by the times recorded when some request with the same schedule ID computed the
      schedule, and for the tests that it sent. */
  lemma AnswersAreNearlyOptimal(reqs: seq<Request>, times: map<string, real>, events: seq<Event>, i: nat)
    returns (j: nat, p: nat)
    requires i < |reqs|
    requires var a := Run(reqs, Initial(reqs, times), events).phases[i]; a.Answered? && a.answer.Success?
    ensures j < |reqs| && ScheduleId(reqs[j]) == ScheduleId(reqs[i]) && p < |events| && events[p] == Plan(j)
    ensures NearlyOptimal(Run(reqs, Initial(reqs, times), events[..p]).times, reqs[j],
                          [Run(reqs, Initial(reqs, times), events).phases[i].answer.value])
  {
    hide ScheduleId, Run;
    var s := Initial(reqs, times);
    var k: nat;
    var shards, j' := AnswersAreSlicesOfOnePartition(reqs, times, events, i);
    k, j := InsertedBySomeone(reqs, s, events, ScheduleId(reqs[i]));
    p := InsertedIsNearlyOptimal(reqs, s, events, k, j);
  }

  /** All requests and the store they share. */
  class Scheduler {
    const reqs: seq<Request>
    var now: State

    ghost predicate Valid()
      reads this
    {
      Inv(reqs, now)
    }

    constructor (reqs: seq<Request>, times: map<string, real>)
      ensures Valid() && this.reqs == reqs && now == Initial(reqs, times)
    {
      this.reqs := reqs;
      now := Initial(reqs, times);
    }

    /** Whatever happens while request `i` is between two of its own actions. */
    method OthersRun(i: nat, ghost before: State, ghost past: seq<Event>) returns (ghost events: seq<Event>)
      requires Valid() && i < |reqs| && Inv(reqs, before) && now == Run(reqs, before, past)
      modifies this
      ensures Valid() && now == Run(reqs, before, events) && Own(events, i) == Own(past, i)
      ensures now.phases[i] == old(now.phases[i]) && Extends(old(now.store), now.store)
    {
      hide Next, Run, Extends;
      var theirs: seq<Event> := *;
      if Own(theirs, i) != [] {
        theirs := [];
      }
      RunExtendsStore(reqs, now, theirs);
      OthersLeavePhase(reqs, now, theirs, i);
      RunConcat(reqs, before, past, theirs, i);
      events := past + theirs;
      now := Run(reqs, now, theirs);
    }

    /** An action of request `i` that takes the system to `next`. */
    method Act(i: nat, next: State, ghost e: Event, ghost before: State, ghost past: seq<Event>)
      returns (ghost events: seq<Event>)
      requires Valid() && i < |reqs| && Inv(reqs, before) && now == Run(reqs, before, past)
      requires Who(e) == Some(i) && next == Next(reqs, now, e)
      modifies this
      ensures Valid() && now == next && Extends(old(now.store), now.store)
      ensures now == Run(reqs, before, events) && Own(events, i) == Own(past, i) + [e]
    {
      hide Next;
      NextKeepsInv(reqs, now, e);
      events := past + [e];
      assert events[..|past|] == past;
      now := next;
    }

    /** Serves request `i`, with any events of other requests in between: a run of the machine in
        which the request's own events are its program, and after which it is answered. */
    method Schedule(i: nat) returns (answer: Result<seq<string>>, ghost events: seq<Event>)
      requires Valid() && i < |reqs| && now.phases[i].Arrived?
      modifies this
      ensures Valid() && now == Run(reqs, old(now), events)
      ensures Own(events, i) <= [Lookup(i), Plan(i), Insert(i)] && now.phases[i] == Answered(answer)
      ensures Extends(old(now.store), now.store)
      ensures answer.Success? ==>
        && ScheduleId(reqs[i]) in now.store && reqs[i].shard < |now.store[ScheduleId(reqs[i])]|
        && answer.value == now.store[ScheduleId(reqs[i])][reqs[i].shard]
      ensures answer.Success? <==> reqs[i].shard < reqs[i].shardCount
      ensures ScheduleId(reqs[i]) in old(now.store) ==>
        answer == Answer(old(now.store)[ScheduleId(reqs[i])], reqs[i].shard)
      ensures reqs[i].shardCount > 0 ==> ScheduleId(reqs[i]) in now.store
      // What it inserts partitions its tests, nearly optimally by the times recorded when it computed it.
      ensures forall k :: Inserts(reqs, old(now), events, k, i) ==>
        && ScheduleId(reqs[i]) in now.store && Planned(reqs[i], now.store[ScheduleId(reqs[i])])
        && exists p :: 0 <= p < k && events[p] == Plan(i)
                       && NearlyOptimal(Run(reqs, old(now), events[..p]).times, reqs[i],
                                        now.store[ScheduleId(reqs[i])])
    {
      hide ScheduleId, Planned, NearlyOptimal, Run;
      answer, events := Serve(i);
      if ScheduleId(reqs[i]) in now.store {
        StoredShardCount(reqs, now, i);
      }
      forall k | Inserts(reqs, old(now), events, k, i)
        ensures ScheduleId(reqs[i]) in now.store && Planned(reqs[i], now.store[ScheduleId(reqs[i])])
        ensures exists p :: 0 <= p < k && events[p] == Plan(i)
                            && NearlyOptimal(Run(reqs, old(now), events[..p]).times, reqs[i],
                                             now.store[ScheduleId(reqs[i])])
      {
        InsertedForGood(reqs, old(now), events, k, i);
        var p := InsertedIsNearlyOptimal(reqs, old(now), events, k, i);
      }
    }

    method Serve(i: nat) returns (answer: Result<seq<string>>, ghost events: seq<Event>)
      requires Valid() && i < |reqs| && now.phases[i].Arrived?
      modifies this
      ensures Valid() && now == Run(reqs, old(now), events)
      ensures Own(events, i) <= [Lookup(i), Plan(i), Insert(i)] && now.phases[i] == Answered(answer)
      ensures Extends(old(now.store), now.store)
      ensures ScheduleId(reqs[i]) in old(now.store) ==>
        answer == Answer(old(now.store)[ScheduleId(reqs[i])], reqs[i].shard)
      ensures reqs[i].shardCount > 0 ==>
        ScheduleId(reqs[i]) in now.store && answer == Answer(now.store[ScheduleId(reqs[i])], reqs[i].shard)
    {
      hide ScheduleId, Run, Inv, Own, Compute;
      ghost var before := now;
      var r, id := reqs[i], ScheduleId(reqs[i]);
      NoEvents(reqs, before, i);
      events := OthersRun(i, before, []);
      if id in now.store {
        answer := Answer(now.store[id], r.shard);
        events := Act(i, now.(phases := now.phases[i := Answered(answer)]), Lookup(i), before, events);
        events := OthersRun(i, before, events);
        return;
      }
      events := Act(i, now.(phases := now.phases[i := Missed]), Lookup(i), before, events);
      answer, events := ServeMissed(i, before, events);
    }

    method ServeMissed(i: nat, ghost before: State, ghost past: seq<Event>)
      returns (answer: Result<seq<string>>, ghost events: seq<Event>)
      requires Valid() && i < |reqs| && now.phases[i].Missed?
      requires Inv(reqs, before) && now == Run(reqs, before, past) && Own(past, i) == [Lookup(i)]
      modifies this
      ensures Valid() && now == Run(reqs, before, events) && Extends(old(now.store), now.store)
      ensures Own(events, i) == [Lookup(i), Plan(i)] || Own(events, i) == [Lookup(i), Plan(i), Insert(i)]
      ensures now.phases[i] == Answered(answer)
      ensures reqs[i].shardCount > 0 ==>
        ScheduleId(reqs[i]) in now.store && answer == Answer(now.store[ScheduleId(reqs[i])], reqs[i].shard)
    {
      hide ScheduleId, GreedySchedule, Partitions, CostOf, Run, Inv, Own;
      var r, id := reqs[i], ScheduleId(reqs[i]);
      events := OthersRun(i, before, past);
      var shards: Shards := [];
      if r.shardCount > 0 {
        shards := ComputeShards(CostOf(now.times), r.tests, r.shardCount);
      } else if r.tests != [] {
        answer := Failure("ValueError");
        events := Act(i, now.(phases := now.phases[i := Answered(answer)]), Plan(i), before, events);
        return;
      }
      events := Act(i, now.(phases := now.phases[i := Computed(shards)]), Plan(i), before, events);
      events := OthersRun(i, before, events);
      var store := GetOrInsert(now.store, id, shards);
      answer := Answer(store[id], r.shard);
      events := Act(i, now.(store := store, phases := now.phases[i := Answered(answer)]), Insert(i), before, events);
      events := OthersRun(i, before, events);
    }
  }
}
