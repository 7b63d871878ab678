/** The parallel test runner: a pool of hosts lent to tests that finish in any order. */
module Runner {
  import opened Wrappers
  import opened Seqs

  type Host = string
  datatype Test = Test(name: string, hosts: int)
  datatype Job = Job(test: Test, hosts: seq<Host>)

  /** What a test sends when it is done. */
  datatype Report = Report(test: Test, errored: bool)

  // ---------------------------------------------------------------- the order of tests

  predicate StringLess(a: string, b: string) {
    if b == [] then false
    else if a == [] then true
    else a[0] < b[0] || (a[0] == b[0] && StringLess(a[1..], b[1..]))
  }

  predicate Less(a: Test, b: Test) {
    if a.hosts != b.hosts then a.hosts < b.hosts else StringLess(a.name, b.name)
  }

  lemma {:induction false} StringLessTransitive(a: string, b: string, c: string)
    requires !StringLess(a, b) && !StringLess(b, c)
    ensures !StringLess(a, c)
  {
    if a != [] && b != [] && c != [] && a[0] == b[0] == c[0] {
      StringLessTransitive(a[1..], b[1..], c[1..]);
    }
  }

  lemma {:induction false} StringLessAsymmetric(a: string, b: string)
    requires StringLess(a, b)
    ensures !StringLess(b, a)
  {
    if a != [] && a[0] == b[0] {
      StringLessAsymmetric(a[1..], b[1..]);
    }
  }

  lemma NotLessTransitive(a: Test, b: Test, c: Test)
    requires !Less(a, b) && !Less(b, c)
    ensures !Less(a, c)
  {
    if a.hosts == b.hosts == c.hosts {
      StringLessTransitive(a.name, b.name, c.name);
    }
  }

  /** The order `sort.Sort(sort.Reverse(ts))` establishes. */
  predicate Descending(ts: seq<Test>) {
    forall i, j :: 0 <= i < j < |ts| ==> !Less(ts[i], ts[j])
  }

  lemma NotLessIsPreorder()
    ensures TotalPreorder((a: Test, b: Test) => !Less(a, b))
  {
    forall a: Test, b: Test
      ensures !Less(a, b) || !Less(b, a)
    {
      if a.hosts == b.hosts && StringLess(a.name, b.name) {
        StringLessAsymmetric(a.name, b.name);
      }
    }
    forall a: Test, b: Test, c: Test | !Less(a, b) && !Less(b, c)
      ensures !Less(a, c)
    {
      NotLessTransitive(a, b, c);
    }
  }

  function SortDescending(ts: seq<Test>): (r: seq<Test>)
    ensures Descending(r) && multiset(r) == multiset(ts)
  {
    NotLessIsPreorder();
    SortBy((a: Test, b: Test) => !Less(a, b), ts)
  }

  // ---------------------------------------------------------------- picking a test

  /** The first test that fits in the available hosts. */
  function FirstFit(ts: seq<Test>, available: nat): (r: Option<nat>)
    ensures r.Some? ==> r.value < |ts| && ts[r.value].hosts <= available
    ensures r.Some? ==> forall i :: 0 <= i < r.value ==> ts[i].hosts > available
    ensures r.None? ==> forall t :: t in ts ==> t.hosts > available
  {
    if ts == [] then None
    else if ts[0].hosts <= available then Some(0)
    else match FirstFit(ts[1..], available)
      case None => assert ts == [ts[0]] + ts[1..]; None
      case Some(i) => Some(i + 1)
  }

  function Without<T>(s: seq<T>, i: nat): (r: seq<T>)
    requires i < |s|
    ensures |r| == |s| - 1
  {
    s[..i] + s[i + 1..]
  }

  method Pick(ts: seq<Test>, available: nat) returns (picked: Option<Test>, rest: seq<Test>)
    ensures match FirstFit(ts, available)
            case None => picked == None && rest == ts
            case Some(i) => picked == Some(ts[i]) && rest == Without(ts, i)
  {
    for i := 0 to |ts|
      invariant forall j :: 0 <= j < i ==> ts[j].hosts > available
    {
      if ts[i].hosts <= available {
        return Some(ts[i]), ts[..i] + ts[i + 1..];
      }
    }
    return None, ts;
  }

  // ---------------------------------------------------------------- runs of the runner

  /** `started` and `reports` record the history; `running` holds the tests that have not reported yet. */
  datatype State = State(
    pending: seq<Test>, free: seq<Host>, running: seq<Job>, started: seq<Job>, reports: seq<Report>,
    failed: seq<Test>)

  function Begin(ts: seq<Test>, hosts: seq<Host>): State {
    State(SortDescending(ts), hosts, [], [], [], [])
  }

  predicate CanStart(s: State) {
    s.free != [] && FirstFit(s.pending, |s.free|).Some?
  }

  function NextTest(s: State): Test
    requires CanStart(s)
  {
    s.pending[FirstFit(s.pending, |s.free|).value]
  }

  /** A negative host count makes the slice expression panic, so such a test never starts. */
  function Start(s: State): State
    requires CanStart(s) && NextTest(s).hosts >= 0
  {
    var n := NextTest(s).hosts;
    var job := Job(NextTest(s), s.free[..n]);
    State(Without(s.pending, FirstFit(s.pending, |s.free|).value), s.free[n..],
          s.running + [job], s.started + [job], s.reports, s.failed)
  }

  function Finish(s: State, i: nat, errored: bool): State
    requires i < |s.running|
  {
    State(s.pending, s.free + s.running[i].hosts, Without(s.running, i), s.started,
          s.reports + [Report(s.running[i].test, errored)],
          if errored then s.failed + [s.running[i].test] else s.failed)
  }

  /** The loop starts tests while it can and only then waits for one to report. */
  ghost predicate Next(s: State, s': State) {
    if CanStart(s) then NextTest(s).hosts >= 0 && s' == Start(s)
    else exists i, errored :: 0 <= i < |s.running| && s' == Finish(s, i, errored)
  }

  ghost predicate IsRun(run: seq<State>, ts: seq<Test>, hosts: seq<Host>) {
    && run != [] && run[0] == Begin(ts, hosts)
    && forall k :: 0 <= k < |run| - 1 ==> Next(run[k], run[k + 1])
  }

  function HostsOf(jobs: seq<Job>): seq<Host> {
    if jobs == [] then [] else HostsOf(jobs[..|jobs| - 1]) + jobs[|jobs| - 1].hosts
  }

  function TestsOf(jobs: seq<Job>): seq<Test> {
    if jobs == [] then [] else TestsOf(jobs[..|jobs| - 1]) + [jobs[|jobs| - 1].test]
  }

  function Reported(reports: seq<Report>): seq<Test> {
    if reports == [] then [] else Reported(reports[..|reports| - 1]) + [reports[|reports| - 1].test]
  }

  /** Every test that has reported or is running was started, and `failed` has those that errored. */
  ghost predicate ReportsInv(running: seq<Job>, started: seq<Job>, reports: seq<Report>, failed: seq<Test>) {
    && multiset(Reported(reports)) + multiset(TestsOf(running)) == multiset(TestsOf(started))
    && (forall t :: t in failed <==> Report(t, true) in reports)
    && |failed| == |set i | 0 <= i < |reports| && reports[i].errored|
  }

  ghost predicate Inv(s: State, ts: seq<Test>, hosts: seq<Host>) {
    && Descending(s.pending)
    && multiset(s.pending) + multiset(TestsOf(s.started)) == multiset(ts)
    && multiset(s.free) + multiset(HostsOf(s.running)) == multiset(hosts)
    && (forall j :: j in s.started ==> 0 <= j.test.hosts == |j.hosts| <= |hosts|)
    && (s.started != [] ==> hosts != [])
    && (forall j :: j in s.running ==> j in s.started)
  }

  lemma {:induction false} HostsOfWithout(jobs: seq<Job>, i: nat)
    requires i < |jobs|
    ensures multiset(HostsOf(jobs)) == multiset(HostsOf(Without(jobs, i))) + multiset(jobs[i].hosts)
  {
    hide HostsOf;
    var n := |jobs| - 1;
    assert jobs == jobs[..n] + [jobs[n]];
    AppendJob(jobs[..n], jobs[n]);
    if i == n {
      assert Without(jobs, i) == jobs[..n];
    } else {
      HostsOfWithout(jobs[..n], i);
      assert Without(jobs, i) == Without(jobs[..n], i) + [jobs[n]];
      AppendJob(Without(jobs[..n], i), jobs[n]);
    }
  }

  lemma WithoutMultiset<T>(s: seq<T>, i: nat)
    requires i < |s|
    ensures multiset(s) == multiset(Without(s, i)) + multiset{s[i]}
  {
    assert s == s[..i] + [s[i]] + s[i + 1..];
  }

  lemma AppendJob(jobs: seq<Job>, job: Job)
    ensures HostsOf(jobs + [job]) == HostsOf(jobs) + job.hosts
    ensures TestsOf(jobs + [job]) == TestsOf(jobs) + [job.test]
  {
    assert (jobs + [job])[..|jobs|] == jobs;
  }

  lemma DescendingWithout(ts: seq<Test>, i: nat)
    requires Descending(ts) && i < |ts|
    ensures Descending(Without(ts, i))
  {
    hide Less;
  }

  lemma LendHosts(free: seq<Host>, running: seq<Job>, job: Job, n: nat)
    requires n <= |free| && job.hosts == free[..n]
    ensures multiset(free[n..]) + multiset(HostsOf(running + [job])) == multiset(free) + multiset(HostsOf(running))
  {
    hide HostsOf;
    AppendJob(running, job);
    assert free == free[..n] + free[n..];
  }

  lemma StartTest(pending: seq<Test>, i: nat, started: seq<Job>, job: Job)
    requires i < |pending| && job.test == pending[i]
    ensures multiset(Without(pending, i)) + multiset(TestsOf(started + [job]))
            == multiset(pending) + multiset(TestsOf(started))
  {
    hide TestsOf, Without;
    AppendJob(started, job);
    WithoutMultiset(pending, i);
  }

  lemma StartKeepsInv(s: State, ts: seq<Test>, hosts: seq<Host>)
    requires Inv(s, ts, hosts) && CanStart(s) && NextTest(s).hosts >= 0
    ensures Inv(Start(s), ts, hosts)
  {
    hide HostsOf, TestsOf, Descending, Without;
    var i := FirstFit(s.pending, |s.free|).value;
    var n := NextTest(s).hosts;
    var job := Job(NextTest(s), s.free[..n]);
    DescendingWithout(s.pending, i);
    StartTest(s.pending, i, s.started, job);
    LendHosts(s.free, s.running, job, n);
    assert |multiset(hosts)| == |multiset(s.free)| + |multiset(HostsOf(s.running))|;
  }

  lemma FinishKeepsInv(s: State, i: nat, errored: bool, ts: seq<Test>, hosts: seq<Host>)
    requires Inv(s, ts, hosts) && i < |s.running|
    ensures Inv(Finish(s, i, errored), ts, hosts)
  {
    hide HostsOf, TestsOf, Less;
    HostsOfWithout(s.running, i);
    WithoutMultiset(s.running, i);
    forall j | j in Without(s.running, i)
      ensures j in s.running
    { }
  }

  lemma {:induction false} RunKeepsInv(run: seq<State>, ts: seq<Test>, hosts: seq<Host>, k: nat)
    requires IsRun(run, ts, hosts) && k < |run|
    ensures Inv(run[k], ts, hosts)
  {
    if k > 0 {
      RunKeepsInv(run, ts, hosts, k - 1);
      var s := run[k - 1];
      assert Next(run[k - 1], run[k - 1 + 1]);
      if CanStart(s) {
        StartKeepsInv(s, ts, hosts);
      } else {
        var i, errored :| 0 <= i < |s.running| && run[k] == Finish(s, i, errored);
        FinishKeepsInv(s, i, errored, ts, hosts);
      }
    }
  }

  lemma {:induction false} TestsOfConcat(a: seq<Job>, b: seq<Job>)
    ensures TestsOf(a + b) == TestsOf(a) + TestsOf(b)
  {
    if b == [] {
      assert a + b == a;
    } else {
      assert (a + b)[..|a + b| - 1] == a + b[..|b| - 1];
      TestsOfConcat(a, b[..|b| - 1]);
    }
  }

  lemma TestsOfInside(a: seq<Job>, job: Job, b: seq<Job>)
    ensures multiset(TestsOf(a + [job] + b)) == multiset(TestsOf(a + b)) + multiset{job.test}
  {
    hide TestsOf;
    AppendJob(a, job);
    TestsOfConcat(a + [job], b);
    TestsOfConcat(a, b);
  }

  lemma TestsOfWithout(jobs: seq<Job>, i: nat)
    requires i < |jobs|
    ensures multiset(TestsOf(jobs)) == multiset(TestsOf(Without(jobs, i))) + multiset{jobs[i].test}
  {
    hide TestsOf;
    assert jobs == jobs[..i] + [jobs[i]] + jobs[i + 1..];
    TestsOfInside(jobs[..i], jobs[i], jobs[i + 1..]);
  }

  lemma StartKeepsReports(running: seq<Job>, started: seq<Job>, reports: seq<Report>, failed: seq<Test>, job: Job)
    requires ReportsInv(running, started, reports, failed)
    ensures ReportsInv(running + [job], started + [job], reports, failed)
  {
    hide TestsOf, Reported;
    AppendJob(running, job);
    AppendJob(started, job);
  }

  lemma ErroredCount(reports: seq<Report>, report: Report)
    ensures var more := reports + [report];
            |set i | 0 <= i < |more| && more[i].errored|
            == |set i | 0 <= i < |reports| && reports[i].errored| + if report.errored then 1 else 0
  {
    var more := reports + [report];
    var old', new' := set i | 0 <= i < |reports| && reports[i].errored, set i | 0 <= i < |more| && more[i].errored;
    assert new' == if report.errored then old' + {|reports|} else old';
  }

  lemma FinishKeepsReports(
      running: seq<Job>, started: seq<Job>, reports: seq<Report>, failed: seq<Test>, i: nat, errored: bool)
    requires ReportsInv(running, started, reports, failed) && i < |running|
    ensures var test := running[i].test;
            ReportsInv(Without(running, i), started, reports + [Report(test, errored)],
                       if errored then failed + [test] else failed)
  {
    hide TestsOf, Without;
    var report := Report(running[i].test, errored);
    TestsOfWithout(running, i);
    assert (reports + [report])[..|reports|] == reports;
    ErroredCount(reports, report);
  }

  lemma {:induction false} RunKeepsReports(run: seq<State>, ts: seq<Test>, hosts: seq<Host>, k: nat)
    requires IsRun(run, ts, hosts) && k < |run|
    ensures ReportsInv(run[k].running, run[k].started, run[k].reports, run[k].failed)
  {
    hide ReportsInv, TestsOf, Reported, FirstFit, Without;
    if k == 0 {
      NoReports();
    } else {
      RunKeepsReports(run, ts, hosts, k - 1);
      var s := run[k - 1];
      assert Next(run[k - 1], run[k - 1 + 1]);
      if CanStart(s) {
        StartKeepsReports(s.running, s.started, s.reports, s.failed, Job(NextTest(s), s.free[..NextTest(s).hosts]));
      } else {
        var i, errored :| 0 <= i < |s.running| && run[k] == Finish(s, i, errored);
        FinishKeepsReports(s.running, s.started, s.reports, s.failed, i, errored);
      }
    }
  }

  lemma NoReports()
    ensures ReportsInv([], [], [], [])
  {
    var none: seq<Report> := [];
    assert (set i | 0 <= i < |none| && none[i].errored) == {};
  }

  // ---------------------------------------------------------------- what every run keeps

  /** At every moment the tests that were started are those that are running and those that have
      reported, and the failed ones are exactly those that reported an error. */
  lemma ReportsAreConserved(run: seq<State>, ts: seq<Test>, hosts: seq<Host>, k: nat)
    requires IsRun(run, ts, hosts) && k < |run|
    ensures multiset(Reported(run[k].reports) + TestsOf(run[k].running)) == multiset(TestsOf(run[k].started))
    ensures forall t :: t in run[k].failed <==> Report(t, true) in run[k].reports
    ensures |run[k].failed| == |set i | 0 <= i < |run[k].reports| && run[k].reports[i].errored|
  {
    hide TestsOf, Reported;
    RunKeepsReports(run, ts, hosts, k);
  }

  /** At every moment free and held hosts together are exactly the initial hosts, and every
      started test holds as many hosts as it asked for. */
  lemma HostsAreConserved(run: seq<State>, ts: seq<Test>, hosts: seq<Host>, k: nat)
    requires IsRun(run, ts, hosts) && k < |run|
    ensures multiset(run[k].free + HostsOf(run[k].running)) == multiset(hosts)
    ensures multiset(run[k].pending + TestsOf(run[k].started)) == multiset(ts)
    ensures forall j :: j in run[k].running ==> |j.hosts| == j.test.hosts
  {
    RunKeepsInv(run, ts, hosts, k);
  }

  /** With distinct hosts, no host is ever held by two tests, or held and free. */
  lemma NoHostIsShared(run: seq<State>, ts: seq<Test>, hosts: seq<Host>, k: nat, a: nat, b: nat, h: Host)
    requires IsRun(run, ts, hosts) && k < |run|
    requires Distinct(hosts)
    requires a < |run[k].running| && h in run[k].running[a].hosts
    ensures h !in run[k].free
    ensures b < |run[k].running| && b != a ==> h !in run[k].running[b].hosts
  {
    var s := run[k];
    RunKeepsInv(run, ts, hosts, k);
    DistinctCounts(hosts, h);
    HeldHostCounts(s.running, a, h);
    if b < |s.running| && b != a && h in s.running[b].hosts {
      TwiceHeldCounts(s.running, if a < b then a else b, if a < b then b else a, h);
    }
    assert h in s.free ==> multiset(s.free)[h] >= 1;
  }

  lemma {:induction false} HeldHostCounts(jobs: seq<Job>, a: nat, h: Host)
    requires a < |jobs| && h in jobs[a].hosts
    ensures multiset(HostsOf(jobs))[h] >= 1
  {
    HostsOfWithout(jobs, a);
    assert multiset(jobs[a].hosts)[h] >= 1;
  }

  lemma {:induction false} TwiceHeldCounts(jobs: seq<Job>, a: nat, b: nat, h: Host)
    requires a < b < |jobs| && h in jobs[a].hosts && h in jobs[b].hosts
    ensures multiset(HostsOf(jobs))[h] >= 2
  {
    HostsOfWithout(jobs, b);
    assert Without(jobs, b)[a] == jobs[a];
    HeldHostCounts(Without(jobs, b), a, h);
    assert multiset(jobs[b].hosts)[h] >= 1;
  }

  /** The test started next is the greatest of the pending tests that fit. */
  lemma LargestFitFirst(run: seq<State>, ts: seq<Test>, hosts: seq<Host>, k: nat, t: Test)
    requires IsRun(run, ts, hosts) && k < |run| && CanStart(run[k])
    requires t in run[k].pending && t.hosts <= |run[k].free|
    ensures !Less(NextTest(run[k]), t)
    ensures t.hosts <= NextTest(run[k]).hosts <= |run[k].free|
  {
    hide Next;
    RunKeepsInv(run, ts, hosts, k);
    var s := run[k];
    var i := FirstFit(s.pending, |s.free|).value;
    var j :| 0 <= j < |s.pending| && s.pending[j] == t;
    if j == i {
      NotLessItself(t);
    }
  }

  lemma NotLessItself(t: Test)
    ensures !Less(t, t)
  {
    if StringLess(t.name, t.name) {
      StringLessAsymmetric(t.name, t.name);
    }
  }

  /** Every step starts a pending test or retires a running one, so a run of `n` tests takes
      at most `2n` steps. */
  lemma {:induction false} RunsAreShort(run: seq<State>, ts: seq<Test>, hosts: seq<Host>, k: nat)
    requires IsRun(run, ts, hosts) && k < |run|
    ensures k + 2 * |run[k].pending| + |run[k].running| == 2 * |ts|
  {
    if k == 0 {
      assert |multiset(SortDescending(ts))| == |multiset(ts)|;
    } else {
      RunsAreShort(run, ts, hosts, k - 1);
      assert Next(run[k - 1], run[k - 1 + 1]);
    }
  }

  // ---------------------------------------------------------------- the loop itself

  datatype Outcome =
    | Completed(anyFailed: bool)
    | Deadlock   // every goroutine asleep: the loop waits and nothing is outstanding
    | Panic      // slice bounds out of range

  predicate Expected(ts: seq<Test>, hosts: seq<Host>, o: Outcome) {
    if hosts != [] && exists t :: t in ts && t.hosts < 0 then o == Panic
    else if ts != [] && (hosts == [] || exists t :: t in ts && t.hosts > |hosts|) then o == Deadlock
    else o.Completed?
  }

  lemma ExtendRun(run: seq<State>, ts: seq<Test>, hosts: seq<Host>, s: State)
    requires IsRun(run, ts, hosts) && Next(run[|run| - 1], s)
    ensures IsRun(run + [s], ts, hosts)
  { }

  /** Nothing outstanding and nothing startable: either all is done or some test is too big. */
  lemma StuckMeansTooBig(s: State, ts: seq<Test>, hosts: seq<Host>)
    requires Inv(s, ts, hosts) && !CanStart(s) && s.running == [] && s.pending != []
    ensures Expected(ts, hosts, Deadlock)
  {
    hide Less, TestsOf, FirstFit;
    assert multiset(s.free) == multiset(hosts);
    assert |s.free| == |multiset(s.free)| && |hosts| == |multiset(hosts)|;
    assert s.pending[0] in multiset(s.pending);
    assert s.pending[0] in multiset(ts);
    assert s.pending[0] in ts;
    if hosts != [] {
      NothingFits(s);
      forall t | t in ts
        ensures t.hosts >= 0
      {
        PendingOrStarted(s, ts, hosts, t);
      }
    }
  }

  /** When every test needs between 0 and all of the hosts, the loop never waits with nothing
      outstanding, in any run. */
  lemma NeverStuck(run: seq<State>, ts: seq<Test>, hosts: seq<Host>, k: nat)
    requires IsRun(run, ts, hosts) && k < |run| && hosts != []
    requires forall t :: t in ts ==> 0 <= t.hosts <= |hosts|
    requires run[k].pending != [] || run[k].running != []
    ensures (CanStart(run[k]) && NextTest(run[k]).hosts >= 0) || run[k].running != []
  {
    hide Next, Less;
    var s := run[k];
    RunKeepsInv(run, ts, hosts, k);
    if CanStart(s) {
      PendingIsTest(s, ts, hosts, NextTest(s));
    } else if s.running == [] {
      StuckMeansTooBig(s, ts, hosts);
    }
  }

  lemma PendingIsTest(s: State, ts: seq<Test>, hosts: seq<Host>, t: Test)
    requires Inv(s, ts, hosts) && t in s.pending
    ensures t in ts
  {
    hide Less, TestsOf;
    assert t in multiset(s.pending);
    assert t in multiset(ts);
  }

  lemma NothingFits(s: State)
    requires !CanStart(s) && s.free != []
    ensures forall t :: t in s.pending ==> t.hosts > |s.free|
  { }

  lemma PendingOrStarted(s: State, ts: seq<Test>, hosts: seq<Host>, t: Test)
    requires Inv(s, ts, hosts) && t in ts
    ensures t in s.pending || exists j :: j in s.started && j.test == t
  {
    hide Less;
    assert t in multiset(ts);
    if t !in s.pending {
      assert t in multiset(TestsOf(s.started));
      var i := StartedAs(s.started, t);
      assert s.started[i] in s.started;
    }
  }

  lemma {:induction false} StartedAs(jobs: seq<Job>, t: Test) returns (i: nat)
    requires t in TestsOf(jobs)
    ensures i < |jobs| && jobs[i].test == t
  {
    var n := |jobs| - 1;
    if jobs[n].test == t {
      i := n;
    } else {
      i := StartedAs(jobs[..n], t);
    }
  }

  lemma AllStartedMeansAllFit(s: State, ts: seq<Test>, hosts: seq<Host>, anyFailed: bool)
    requires Inv(s, ts, hosts) && s.pending == [] && s.running == []
    ensures Expected(ts, hosts, Completed(anyFailed))
    ensures multiset(s.free) == multiset(hosts)
    ensures multiset(TestsOf(s.started)) == multiset(ts)
  {
    hide Less;
    forall t | t in ts
      ensures 0 <= t.hosts <= |hosts| && hosts != []
    {
      PendingOrStarted(s, ts, hosts, t);
    }
    assert ts != [] ==> ts[0] in ts;
  }

  /** `which` and `errored` say which of the outstanding tests is the n-th to report, and with what
      result: whatever they are. */
  method Parallel(ts: seq<Test>, hosts: seq<Host>, which: nat -> nat, errored: nat -> bool)
    returns (outcome: Outcome, ghost run: seq<State>)
    ensures IsRun(run, ts, hosts)
    ensures var reports := run[|run| - 1].reports;
            forall n :: 0 <= n < |reports| ==> reports[n].errored == errored(n)
    // Exactly which inputs complete, deadlock or panic, however the tests are timed.
    ensures Expected(ts, hosts, outcome)
    ensures outcome.Completed? ==>
      var end := run[|run| - 1];
      && end.pending == [] && end.running == []
      && multiset(end.free) == multiset(hosts)
      && multiset(TestsOf(end.started)) == multiset(ts)
      // Every test has reported once; the run fails exactly when one of them errored.
      && multiset(Reported(end.reports)) == multiset(ts)
      && (outcome.anyFailed <==> exists n :: 0 <= n < |ts| && errored(n))
      && (forall t :: t in end.failed <==> Report(t, true) in end.reports)
  {
    hide Next, Expected, TestsOf, HostsOf, Inv, IsRun, SortDescending, Without, Reported, FirstFit;
    var pending, free := SortDescending(ts), hosts;
    var running: seq<Job> := [];
    var failed: seq<Test> := [];
    var reported := 0;
    ghost var started: seq<Job> := [];
    ghost var reports: seq<Report> := [];
    run := [Begin(ts, hosts)];
    RunBegins(ts, hosts);
    while |pending| > 0 || |running| > 0
      invariant run != [] && IsRun(run, ts, hosts)
      invariant run[|run| - 1] == State(pending, free, running, started, reports, failed)
      invariant reported == |reports| && forall n :: 0 <= n < |reports| ==> reports[n].errored == errored(n)
      decreases 2 * |pending| + |running|
    {
      ghost var left := 2 * |pending| + |running|;
      while |free| > 0
        invariant run != [] && IsRun(run, ts, hosts)
        invariant run[|run| - 1] == State(pending, free, running, started, reports, failed)
        invariant 2 * |pending| + |running| <= left
        invariant |pending| > 0 || |running| > 0
        decreases |pending|
      {
        ghost var s := run[|run| - 1];
        var picked, rest := Pick(pending, |free|);
        if picked.None? {
          break;
        }
        var test := picked.value;
        if test.hosts < 0 {
          NegativeTestPanics(run, ts, hosts);
          return Panic, run;
        }
        var testHosts := free[..test.hosts];
        StartIsNext(s);
        ExtendRun(run, ts, hosts, Start(s));
        pending, free := rest, free[test.hosts..];
        running, started := running + [Job(test, testHosts)], started + [Job(test, testHosts)];
        run := run + [Start(s)];
      }

      ghost var s := run[|run| - 1];
      assert !CanStart(s);
      if |running| == 0 {
        RunKeepsInv(run, ts, hosts, |run| - 1);
        StuckMeansTooBig(s, ts, hosts);
        return Deadlock, run;
      }
      // Whichever of the outstanding tests reports first, with whatever result.
      var i := which(reported) % |running|;
      var result := Report(running[i].test, errored(reported));
      FinishIsNext(s, i, result.errored);
      ExtendRun(run, ts, hosts, Finish(s, i, result.errored));
      free := free + running[i].hosts;
      if result.errored {
        failed := failed + [result.test];
      }
      running := Without(running, i);
      reported, reports := reported + 1, reports + [result];
      run := run + [Finish(s, i, result.errored)];
    }
    RunKeepsInv(run, ts, hosts, |run| - 1);
    outcome := Completed(|failed| > 0);
    AllStartedMeansAllFit(run[|run| - 1], ts, hosts, outcome.anyFailed);
    ReportsAtTheEnd(run, ts, hosts, errored);
  }

  /** When nothing is outstanding, every test has reported once. */
  lemma ReportsAtTheEnd(run: seq<State>, ts: seq<Test>, hosts: seq<Host>, errored: nat -> bool)
    requires IsRun(run, ts, hosts)
    requires var end := run[|run| - 1];
             end.running == [] && multiset(TestsOf(end.started)) == multiset(ts)
             && forall n :: 0 <= n < |end.reports| ==> end.reports[n].errored == errored(n)
    ensures var end := run[|run| - 1];
            && multiset(Reported(end.reports)) == multiset(ts)
            && (end.failed != [] <==> exists n :: 0 <= n < |ts| && errored(n))
            && (forall t :: t in end.failed <==> Report(t, true) in end.reports)
  {
    hide Next, ReportsInv, TestsOf, Reported;
    var end := run[|run| - 1];
    RunKeepsReports(run, ts, hosts, |run| - 1);
    AllReported(end.started, end.reports, end.failed, ts);
    FailedMeansErrored(end.started, end.reports, end.failed, errored);
  }

  lemma AllReported(started: seq<Job>, reports: seq<Report>, failed: seq<Test>, ts: seq<Test>)
    requires ReportsInv([], started, reports, failed) && multiset(TestsOf(started)) == multiset(ts)
    ensures multiset(Reported(reports)) == multiset(ts) && |reports| == |ts|
  {
    assert multiset(Reported(reports)) == multiset(ts);
    ReportedLength(reports);
    hide Reported;
    assert |multiset(Reported(reports))| == |multiset(ts)|;
  }

  lemma FailedMeansErrored(started: seq<Job>, reports: seq<Report>, failed: seq<Test>, errored: nat -> bool)
    requires ReportsInv([], started, reports, failed)
    requires forall n :: 0 <= n < |reports| ==> reports[n].errored == errored(n)
    ensures failed != [] <==> exists n :: 0 <= n < |reports| && errored(n)
    ensures forall t :: t in failed <==> Report(t, true) in reports
  {
    hide TestsOf, Reported;
    if failed != [] {
      assert failed[0] in failed;
      var n :| 0 <= n < |reports| && reports[n] == Report(failed[0], true);
    }
    if n :| 0 <= n < |reports| && errored(n) {
      assert reports[n] == Report(reports[n].test, true);
      assert reports[n].test in failed;
    }
  }

  lemma {:induction false} ReportedLength(reports: seq<Report>)
    ensures |Reported(reports)| == |reports|
  {
    if reports != [] {
      ReportedLength(reports[..|reports| - 1]);
    }
  }

  lemma RunBegins(ts: seq<Test>, hosts: seq<Host>)
    ensures IsRun([Begin(ts, hosts)], ts, hosts)
  { }

  lemma StartIsNext(s: State)
    requires CanStart(s) && NextTest(s).hosts >= 0
    ensures Next(s, Start(s))
  { }

  lemma FinishIsNext(s: State, i: nat, errored: bool)
    requires !CanStart(s) && i < |s.running|
    ensures Next(s, Finish(s, i, errored))
  { }

  lemma NegativeTestPanics(run: seq<State>, ts: seq<Test>, hosts: seq<Host>)
    requires IsRun(run, ts, hosts)
    requires CanStart(run[|run| - 1]) && NextTest(run[|run| - 1]).hosts < 0
    ensures Expected(ts, hosts, Panic)
  {
    hide Next, Less, TestsOf;
    var s := run[|run| - 1];
    RunKeepsInv(run, ts, hosts, |run| - 1);
    assert NextTest(s) in multiset(s.pending);
    assert NextTest(s) in ts;
    assert |multiset(hosts)| >= |multiset(s.free)| >= 1;
  }
}
