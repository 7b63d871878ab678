/** The job that sends stored usage to a billing provider: mark the rows, upload, and unmark them
    again when the upload fails. */
module UsageUploader {
  import opened Wrappers
  import opened Calendar
  import opened Aggregates
  import opened UsageTable

  datatype Organization = Organization(id: string, externalID: string, trialExpiresAt: Time, supported: bool)

  predicate InTrialPeriod(org: Organization, now: Time) { org.trialExpiresAt > now }

  predicate Billable(org: Organization, through: Time) {
    org.supported && !InTrialPeriod(org, through) && org.id != ""
  }

  /** Usage is looked for from the end of the trial, but at most one week back. */
  function BillFrom(org: Organization, through: Time): Time {
    MaxTime(through - 7 * NS_PER_DAY, org.trialExpiresAt)
  }

  predicate DistinctOrganizations(orgs: seq<Organization>) {
    forall i, j :: 0 <= i < j < |orgs| ==> orgs[i].id != orgs[j].id
  }

  /** The rows a run has to upload. */
  ghost predicate Due(rows: Rows, orgs: seq<Organization>, through: Time, id: nat) {
    exists org :: org in orgs && Billable(org, through) && id in ToUpload(rows, org.id, BillFrom(org, through), through)
  }

  ghost function DueIDs(rows: Rows, orgs: seq<Organization>, through: Time): set<nat> {
    set id | id in rows && Due(rows, orgs, through, id)
  }

  // ---------------------------------------------------------------- statistics of a run

  function CountOf(aggs: seq<Aggregate>, amountType: string): nat {
    if aggs == [] then 0
    else CountOf(aggs[..|aggs| - 1], amountType) + if aggs[|aggs| - 1].amountType == amountType then 1 else 0
  }

  function AmountOf(aggs: seq<Aggregate>, amountType: string): int {
    if aggs == [] then 0
    else AmountOf(aggs[..|aggs| - 1], amountType)
         + if aggs[|aggs| - 1].amountType == amountType then aggs[|aggs| - 1].amountValue else 0
  }

  /** Count and sum of a kind of usage start from nothing, and every aggregate adds to its own kind. */
  lemma {:induction false} TalliesAdd(a: seq<Aggregate>, b: seq<Aggregate>, amountType: string)
    ensures CountOf(a + b, amountType) == CountOf(a, amountType) + CountOf(b, amountType)
    ensures AmountOf(a + b, amountType) == AmountOf(a, amountType) + AmountOf(b, amountType)
    ensures |b| == 1 ==> CountOf(b, amountType) == (if b[0].amountType == amountType then 1 else 0)
    ensures |b| == 1 ==> AmountOf(b, amountType) == (if b[0].amountType == amountType then b[0].amountValue else 0)
  {
    if b == [] {
      assert a + b == a;
    } else {
      assert (a + b)[..|a + b| - 1] == a + b[..|b| - 1];
      TalliesAdd(a, b[..|b| - 1], amountType);
    }
  }

  function IDList(aggs: seq<Aggregate>): seq<nat> {
    seq(|aggs|, i requires 0 <= i < |aggs| => aggs[i].id)
  }

  class UploadStats {
    var count: map<string, nat>
    var sum: map<string, int>
    var instances: nat
    var aggregateIDs: seq<nat>
    ghost var recorded: seq<Aggregate>

    ghost predicate Valid()
      reads this
    {
      aggregateIDs == IDList(recorded) && Tallied(recorded, count, sum)
    }

    constructor ()
      ensures Valid() && recorded == [] && instances == 0
    {
      count, sum, instances, aggregateIDs, recorded := map[], map[], 0, [], [];
    }

    method Record(aggs: seq<Aggregate>)
      requires Valid()
      modifies this
      ensures Valid() && recorded == old(recorded) + aggs && instances == old(instances) + 1
    {
      hide Tallied, IDList;
      assert old(recorded) + aggs[..0] == recorded;
      for n := 0 to |aggs|
        invariant Valid() && recorded == old(recorded) + aggs[..n] && instances == old(instances)
      {
        var agg := aggs[n];
        var t := agg.amountType;
        TallyOne(recorded, count, sum, agg);
        assert recorded + [agg] == old(recorded) + aggs[..n + 1];
        recorded := recorded + [agg];
        aggregateIDs := aggregateIDs + [agg.id];
        count := count[t := (if t in count then count[t] else 0) + 1];
        sum := sum[t := (if t in sum then sum[t] else 0) + agg.amountValue];
      }
      assert aggs[..|aggs|] == aggs;
      instances := instances + 1;
    }
  }

  /** Counts and sums by amount type are those of the recorded aggregates. */
  ghost predicate Tallied(recorded: seq<Aggregate>, count: map<string, nat>, sum: map<string, int>) {
    && count.Keys == sum.Keys
    && (forall t :: t in count ==> count[t] == CountOf(recorded, t) && sum[t] == AmountOf(recorded, t))
    && (forall t :: t !in count ==> CountOf(recorded, t) == 0 && AmountOf(recorded, t) == 0)
  }

  lemma TallyOne(recorded: seq<Aggregate>, count: map<string, nat>, sum: map<string, int>, agg: Aggregate)
    requires Tallied(recorded, count, sum)
    ensures var t := agg.amountType;
            Tallied(recorded + [agg], count[t := (if t in count then count[t] else 0) + 1],
                    sum[t := (if t in sum then sum[t] else 0) + agg.amountValue])
    ensures IDList(recorded + [agg]) == IDList(recorded) + [agg.id]
  {
    assert (recorded + [agg])[..|recorded|] == recorded;
  }

  // ---------------------------------------------------------------- the billing provider

  /** A successful upload, as the provider received it. */
  datatype Sent = Sent(uploadID: nat, aggs: seq<Aggregate>)

  /** Which of the remote calls of a run fail: the list of organizations, the query for the rows of
      the n-th one and adding them to the report, inserting the upload, the upload, its rollback. */
  datatype Faults = Faults(
    users: bool, query: nat -> bool, add: nat -> bool, insert: bool, upload: bool, rollback: bool)

  class Uploader {
    const id: string
    var report: seq<Aggregate>
    /** The reports that the provider accepted. */
    var delivered: seq<seq<Aggregate>>

    constructor (id: string)
      ensures this.id == id && report == [] && delivered == []
    {
      this.id := id;
      report, delivered := [], [];
    }

    method Reset()
      modifies this`report
      ensures report == []
    {
      report := [];
    }

    method Add(aggs: seq<Aggregate>, fails: bool) returns (err: bool)
      modifies this`report
      ensures err == fails && report == if err then old(report) else old(report) + aggs
    {
      if !fails {
        report := report + aggs;
      }
      return fails;
    }

    /** Sends the report; only a success counts as delivered. */
    method Upload(fails: bool) returns (err: bool)
      modifies this`delivered
      ensures err == fails && delivered == if err then old(delivered) else old(delivered) + [report]
    {
      if !fails {
        delivered := delivered + [report];
      }
      return fails;
    }
  }

  // ---------------------------------------------------------------- a run

  datatype Outcome =
    | NotUploaded   // nothing due, or an error before any row was marked
    | Uploaded
    | RolledBack    // the upload failed and the rows were unmarked
    | Stuck         // the upload failed and so did unmarking the rows

  /** What a run that reported `aggs` did to rows and uploads. */
  ghost predicate RunEffect(
      rows: Rows, uploads: seq<Option<string>>, uploader: string, aggs: seq<Aggregate>, outcome: Outcome,
      rows': Rows, uploads': seq<Option<string>>)
  {
    var uploadID := |uploads| + 1;
    match outcome
    case NotUploaded => rows' == rows && uploads' == uploads
    case Uploaded => rows' == Mark(rows, IDs(aggs), uploadID) && uploads' == uploads + [Some(uploader)]
    case RolledBack => rows' == Unmark(Mark(rows, IDs(aggs), uploadID), uploadID) && uploads' == uploads + [None]
    case Stuck => rows' == Mark(rows, IDs(aggs), uploadID) && uploads' == uploads + [Some(uploader)]
  }

  lemma IDListElements(aggs: seq<Aggregate>)
    ensures Elements(IDList(aggs)) == IDs(aggs)
  {
    forall id
      ensures id in Elements(IDList(aggs)) <==> id in IDs(aggs)
    {
      if id in IDs(aggs) {
        var a :| a in aggs && a.id == id;
        var i :| 0 <= i < |aggs| && aggs[i] == a;
        assert IDList(aggs)[i] == id;
      }
      if id in IDList(aggs) {
        var i :| 0 <= i < |aggs| && IDList(aggs)[i] == id;
        assert aggs[i] in aggs;
      }
    }
  }

  /** How the upload of a report ends. */
  function Conclusion(faults: Faults): Outcome {
    if faults.insert then NotUploaded
    else if !faults.upload then Uploaded
    else if faults.rollback then Stuck
    else RolledBack
  }

  method UploadReport(db: MemoryDB, up: Uploader, aggregateIDs: seq<nat>, faults: Faults)
    returns (err: bool, ghost outcome: Outcome)
    requires db.Valid() && aggregateIDs == IDList(up.report) && RowsOf(up.report, db.aggregatesSet)
    modifies db, up`delivered
    ensures db.Valid() && outcome == Conclusion(faults)
    ensures up.delivered == if outcome == Uploaded then old(up.delivered) + [up.report] else old(up.delivered)
    ensures RunEffect(old(db.aggregatesSet), old(db.uploads), up.id, up.report, outcome, db.aggregatesSet, db.uploads)
    ensures outcome == Uploaded <==> !err
  {
    hide Mark, Unmark, IDList, IDs;
    IDListElements(up.report);
    IDsAreRows(up.report, db.aggregatesSet);
    if faults.insert {
      return true, NotUploaded;
    }
    var uploadID := db.InsertUsageUpload(up.id, aggregateIDs);
    err := up.Upload(faults.upload);
    if !err {
      return false, Uploaded;
    }
    if faults.rollback {
      return true, Stuck;
    }
    db.DeleteUsageUpload(uploadID);
    return true, RolledBack;
  }

  lemma IDsAreRows(aggs: seq<Aggregate>, rows: Rows)
    requires RowsOf(aggs, rows)
    ensures forall id :: id in IDList(aggs) ==> id in rows
  { }

  lemma ListsConcat(a: seq<Aggregate>, b: seq<Aggregate>, rows: Rows, ids: set<nat>, more: set<nat>)
    requires Lists(a, rows, ids) && Lists(b, rows, more) && ids !! more
    ensures Lists(a + b, rows, ids + more)
  {
    var all := a + b;
    forall i, j | 0 <= i < j < |all|
      ensures all[i].id != all[j].id
    {
      if i < |a| && j >= |a| {
        assert a[i] in a && b[j - |a|] in b;
        assert Listed(a, a[i].id) && Listed(b, b[j - |a|].id);
      }
    }
    forall id
      ensures id in ids + more <==> Listed(all, id)
    {
      if Listed(a, id) {
        var x :| x in a && x.id == id;
        assert x in all;
      }
      if Listed(b, id) {
        var x :| x in b && x.id == id;
        assert x in all;
      }
    }
  }

  /** One more organization adds its own rows, which no other organization has. */
  lemma DueStep(rows: Rows, orgs: seq<Organization>, n: nat, through: Time)
    requires n < |orgs| && DistinctOrganizations(orgs)
    ensures var ids := ToUpload(rows, orgs[n].id, BillFrom(orgs[n], through), through);
            && (Billable(orgs[n], through) ==>
                  DueIDs(rows, orgs[..n + 1], through) == DueIDs(rows, orgs[..n], through) + ids
                  && DueIDs(rows, orgs[..n], through) !! ids)
            && (!Billable(orgs[n], through) ==>
                  DueIDs(rows, orgs[..n + 1], through) == DueIDs(rows, orgs[..n], through))
  { }

  lemma NoRowsDue(aggs: seq<Aggregate>, rows: Rows, ids: set<nat>)
    requires Lists(aggs, rows, ids)
    ensures aggs == [] <==> ids == {}
  {
    if aggs != [] {
      assert aggs[0] in aggs;
      assert Listed(aggs, aggs[0].id);
    }
  }

  lemma NothingDue(rows: Rows, orgs: seq<Organization>, through: Time)
    ensures Lists([], rows, DueIDs(rows, orgs[..0], through))
  { }

  /** A fault ends the run before it gets to uploading. */
  ghost predicate Interrupted(rows: Rows, orgs: seq<Organization>, through: Time, faults: Faults) {
    faults.users || exists n :: 0 <= n < |orgs| && InterruptedAt(rows, orgs[n], n, through, faults)
  }

  ghost predicate InterruptedAt(rows: Rows, org: Organization, n: nat, through: Time, faults: Faults) {
    Billable(org, through)
    && (faults.query(n) || (faults.add(n) && ToUpload(rows, org.id, BillFrom(org, through), through) != {}))
  }

  /** A whole run. Every remote call and every database call may fail. */
  method Do(db: MemoryDB, up: Uploader, orgs: seq<Organization>, throughTime: Time, faults: Faults)
    returns (err: bool, ghost outcome: Outcome)
    requires db.Valid() && DistinctOrganizations(orgs)
    modifies db, up`report, up`delivered
    ensures db.Valid()
    // How the run ends: an interrupted one does nothing, and a complete report that is not empty is uploaded.
    ensures Interrupted(old(db.aggregatesSet), orgs, TruncateToHour(throughTime), faults) ==>
      err && outcome == NotUploaded
    ensures !Interrupted(old(db.aggregatesSet), orgs, TruncateToHour(throughTime), faults) ==>
      outcome == if up.report == [] then NotUploaded else Conclusion(faults)
    ensures !Interrupted(old(db.aggregatesSet), orgs, TruncateToHour(throughTime), faults) ==>
      (err <==> up.report != [] && outcome != Uploaded)
    ensures up.delivered == if outcome == Uploaded then old(up.delivered) + [up.report] else old(up.delivered)
    ensures RunEffect(old(db.aggregatesSet), old(db.uploads), up.id, up.report, outcome, db.aggregatesSet, db.uploads)
    ensures RowsOf(up.report, old(db.aggregatesSet)) && forall a :: a in up.report ==> a.uploadID == 0
    // A run that gets as far as uploading reports exactly the rows that are due.
    ensures outcome != NotUploaded || !err ==>
      Lists(up.report, old(db.aggregatesSet), DueIDs(old(db.aggregatesSet), orgs, TruncateToHour(throughTime)))
    // Which rows these are: free ones of a supported organization, from the last seven days and after
    // its trial, which must be over.
    ensures outcome != NotUploaded || !err ==>
      var through := TruncateToHour(throughTime);
      forall id :: id in old(db.aggregatesSet) ==>
        var row := old(db.aggregatesSet)[id];
        (row in up.report <==>
           && row.uploadID == 0
           && exists org :: org in orgs && org.supported && org.id != "" && org.id == row.instanceID
                            && org.trialExpiresAt <= through && org.trialExpiresAt <= row.bucketStart
                            && through - 7 * NS_PER_DAY <= row.bucketStart < through)
    ensures outcome == Uploaded ==> !err && up.report != []
    ensures !err ==> outcome == Uploaded || (outcome == NotUploaded && up.report == [])
  {
    hide DueIDs, Lists, Mark, Unmark, IDs, IDList, BillFrom, DistinctOrganizations, ToUpload, TruncateToHour, Keyed;
    ghost var rows := db.aggregatesSet;
    var through := TruncateToHour(throughTime);
    up.Reset();
    EmptyReport(rows);
    if faults.users {
      return true, NotUploaded;
    }
    var stats := new UploadStats();
    NothingDue(rows, orgs, through);
    for n := 0 to |orgs|
      invariant db.aggregatesSet == rows && db.uploads == old(db.uploads) && db.Valid()
      invariant stats.Valid() && stats.recorded == up.report
      invariant stats.instances > 0 <==> up.report != []
      invariant Lists(up.report, rows, DueIDs(rows, orgs[..n], through))
      invariant forall m :: 0 <= m < n ==> !InterruptedAt(rows, orgs[m], m, through, faults)
      invariant up.delivered == old(up.delivered)
    {
      DueStep(rows, orgs, n, through);
      var org := orgs[n];
      if !org.supported {
        continue;
      }
      if InTrialPeriod(org, through) {
        continue;
      }
      if org.id == "" {
        continue;
      }
      var orgFrom := BillFrom(org, through);
      if faults.query(n) {
        assert InterruptedAt(rows, orgs[n], n, through, faults);
        DueRows(up.report, rows, orgs[..n], through);
        return true, NotUploaded;
      }
      var aggs := db.GetAggregatesToUpload(org.id, orgFrom, through);
      ListsConcat(up.report, aggs, rows, DueIDs(rows, orgs[..n], through), ToUpload(rows, org.id, orgFrom, through));
      NoRowsDue(aggs, rows, ToUpload(rows, org.id, orgFrom, through));
      if |aggs| == 0 {
        assert up.report + aggs == up.report;
        continue;
      }
      var addErr := up.Add(aggs, faults.add(n));
      if addErr {
        assert InterruptedAt(rows, orgs[n], n, through, faults);
        DueRows(up.report, rows, orgs[..n], through);
        return true, NotUploaded;
      }
      stats.Record(aggs);
    }
    assert orgs[..|orgs|] == orgs;
    DueRows(up.report, rows, orgs, through);
    DueMeaning(up.report, rows, orgs, through);
    if stats.instances > 0 {
      err, outcome := UploadReport(db, up, stats.aggregateIDs, faults);
    } else {
      err, outcome := false, NotUploaded;
    }
  }

  /** The report in terms of the organizations, their trials and the rows. */
  lemma DueMeaning(aggs: seq<Aggregate>, rows: Rows, orgs: seq<Organization>, through: Time)
    requires Keyed(rows) && Lists(aggs, rows, DueIDs(rows, orgs, through))
    ensures forall id :: id in rows ==>
      (rows[id] in aggs <==>
         && rows[id].uploadID == 0
         && exists org :: org in orgs && org.supported && org.id != "" && org.id == rows[id].instanceID
                          && org.trialExpiresAt <= through && org.trialExpiresAt <= rows[id].bucketStart
                          && through - 7 * NS_PER_DAY <= rows[id].bucketStart < through)
  {
    forall id | id in rows
      ensures rows[id] in aggs <==> id in DueIDs(rows, orgs, through)
    {
      assert id in DueIDs(rows, orgs, through) <==> Listed(aggs, id);
      assert rows[id] in aggs ==> Listed(aggs, rows[id].id);
    }
  }

  lemma EmptyReport(rows: Rows)
    ensures RowsOf([], rows)
  { }

  lemma DueRows(aggs: seq<Aggregate>, rows: Rows, orgs: seq<Organization>, through: Time)
    requires Lists(aggs, rows, DueIDs(rows, orgs, through))
    ensures RowsOf(aggs, rows) && forall a :: a in aggs ==> a.uploadID == 0
  {
    forall a | a in aggs
      ensures a.uploadID == 0
    {
      assert Listed(aggs, a.id);
      assert a.id in DueIDs(rows, orgs, through);
    }
  }
}
