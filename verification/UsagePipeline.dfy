/** Aggregator and uploader runs over one table, in any order: what is delivered to the billing
    provider against what BigQuery reported. */
module UsagePipeline {
  import opened Wrappers
  import opened Calendar
  import opened FiniteSums
  import opened Aggregates
  import opened UsageTable
  import Aggregator
  import opened UsageUploader

  /** `sent` are the successful uploads so far; `reports` are the parts of BigQuery's reports that
      aggregator runs worked through before they ended or crashed. */
  datatype System = System(
    rows: Rows, uploads: seq<Option<string>>, sent: seq<Sent>, reports: seq<seq<Aggregate>>)

  const START := System(map[], [], [], [])

  /** A whole or interrupted aggregator run. */
  ghost predicate AggregatorRun(s: System, s': System, worked: seq<Aggregate>) {
    && Aggregator.DistinctKeys(worked)
    && Aggregator.Reconciled(s.rows, s'.rows, worked) && Keyed(s'.rows)
    && s'.uploads == s.uploads && s'.sent == s.sent && s'.reports == s.reports + [worked]
  }

  /** A whole uploader run that reported `aggs`. */
  ghost predicate UploaderRun(s: System, s': System, uploader: string, aggs: seq<Aggregate>, outcome: Outcome) {
    && RowsOf(aggs, s.rows) && (forall a :: a in aggs ==> a.uploadID == 0)
    && RunEffect(s.rows, s.uploads, uploader, aggs, outcome, s'.rows, s'.uploads)
    && s'.sent == (if outcome == Uploaded then s.sent + [Sent(|s.uploads| + 1, aggs)] else s.sent)
    && s'.reports == s.reports
  }

  ghost predicate Step(s: System, s': System) {
    || (exists worked :: AggregatorRun(s, s', worked))
    || (exists uploader, aggs, outcome :: UploaderRun(s, s', uploader, aggs, outcome))
  }

  ghost predicate IsRun(run: seq<System>) {
    && run != [] && run[0] == START
    && forall k :: 0 <= k < |run| - 1 ==> Step(run[k], run[k + 1])
  }

  /** The jobs as they run on a database take the system from one state to the next. */
  method RunAggregator(
      db: MemoryDB, ghost s: System, aggs: seq<Aggregate>, since: Option<Time>, now: Time,
      queryFails: bool, fails: nat -> bool)
    returns (err: bool, ghost s': System)
    requires db.Valid() && s.rows == db.aggregatesSet && s.uploads == db.uploads
    requires Aggregator.DistinctKeys(aggs)
    requires forall a :: a in aggs ==> a.bucketStart >= Aggregator.StartTime(since, now) && a.uploadID == 0
    modifies db`aggregatesSet
    ensures db.Valid() && s'.rows == db.aggregatesSet && s'.uploads == db.uploads
    ensures Step(s, s')
    ensures !err ==> AggregatorRun(s, s', aggs)
    ensures !queryFails && (forall n :: !fails(n)) ==> !err
  {
    hide Aggregator.Reconciled, Keyed;
    ghost var done: nat;
    err, done := Aggregator.Do(db, aggs, since, now, queryFails, fails);
    Aggregator.PartsAreDistinct(aggs, 0, done);
    assert aggs[0..done] == aggs[..done] && (!err ==> aggs[..done] == aggs);
    s' := s.(rows := db.aggregatesSet, reports := s.reports + [aggs[..done]]);
    assert AggregatorRun(s, s', aggs[..done]);
  }

  method RunUploader(
      db: MemoryDB, up: Uploader, ghost s: System, orgs: seq<Organization>, throughTime: Time, faults: Faults)
    returns (err: bool, ghost s': System)
    requires db.Valid() && s.rows == db.aggregatesSet && s.uploads == db.uploads
    requires DistinctOrganizations(orgs)
    modifies db, up`report, up`delivered
    ensures db.Valid() && s'.rows == db.aggregatesSet && s'.uploads == db.uploads
    ensures Step(s, s')
    // A failed run delivers nothing; a successful one delivers exactly the rows that are due.
    ensures err ==> s'.sent == s.sent && up.delivered == old(up.delivered)
    ensures !err ==> up.delivered == old(up.delivered) + if up.report == [] then [] else [up.report]
    ensures !Interrupted(s.rows, orgs, TruncateToHour(throughTime), faults) && !faults.insert && !faults.upload ==> !err
    ensures !err ==>
      s'.sent == if up.report == [] then s.sent else s.sent + [Sent(|s.uploads| + 1, up.report)]
    ensures !err ==> Lists(up.report, s.rows, DueIDs(s.rows, orgs, TruncateToHour(throughTime)))
    ensures !err ==>
      var through := TruncateToHour(throughTime);
      forall id :: id in s.rows ==>
        var row := s.rows[id];
        (row in up.report <==>
           && row.uploadID == 0
           && exists org :: org in orgs && org.supported && org.id != "" && org.id == row.instanceID
                            && org.trialExpiresAt <= through && org.trialExpiresAt <= row.bucketStart
                            && through - 7 * NS_PER_DAY <= row.bucketStart < through)
  {
    hide RunEffect, Keyed, DueIDs, RowsOf, Lists, Interrupted;
    ghost var outcome: Outcome;
    err, outcome := Do(db, up, orgs, throughTime, faults);
    s' := System(db.aggregatesSet, db.uploads,
                 if outcome == Uploaded then s.sent + [Sent(|s.uploads| + 1, up.report)] else s.sent, s.reports);
    assert UploaderRun(s, s', up.id, up.report, outcome);
  }

  // ---------------------------------------------------------------- the ledger

  /** A row is free, or belongs to an upload whose record is still there. */
  predicate InLiveUpload(a: Aggregate, uploads: seq<Option<string>>) {
    a.uploadID == 0 || (a.uploadID <= |uploads| && uploads[a.uploadID - 1].Some?)
  }

  /** What was sent are rows of that upload, each once, exactly as they are stored. */
  ghost predicate SentFrom(s: Sent, rows: Rows) {
    && s.uploadID > 0 && DistinctIDs(s.aggs)
    && forall a :: a in s.aggs ==> a.id in rows && rows[a.id].uploadID == s.uploadID && rows[a.id].(uploadID := 0) == a
  }

  ghost predicate Ledger(s: System) {
    && Keyed(s.rows)
    && (forall id :: id in s.rows ==> s.rows[id].amountValue > 0 && InLiveUpload(s.rows[id], s.uploads))
    && (forall i :: 0 <= i < |s.sent| ==> SentFrom(s.sent[i], s.rows) && s.sent[i].uploadID <= |s.uploads|)
    && (forall i, j :: 0 <= i < j < |s.sent| ==> s.sent[i].uploadID < s.sent[j].uploadID)
    && (forall key :: StoredSum(s.rows, key) == LargestTotal(s.reports, key))
  }

  /** The largest total BigQuery reported for a key, at least 0. */
  function LargestTotal(reports: seq<seq<Aggregate>>, key: Key): int {
    if reports == [] then 0
    else
      var n := |reports| - 1;
      var earlier := LargestTotal(reports[..n], key);
      if Aggregator.Reports(reports[n], key) then Max(earlier, ListSum(reports[n], key)) else earlier
  }

  /** No report had more for the key, and if it is not 0 some report had just that. */
  lemma {:induction false} LargestTotalIsLargest(reports: seq<seq<Aggregate>>, key: Key)
    ensures forall i :: 0 <= i < |reports| && Aggregator.Reports(reports[i], key) ==>
      ListSum(reports[i], key) <= LargestTotal(reports, key)
    ensures || LargestTotal(reports, key) == 0
            || exists i :: 0 <= i < |reports| && Aggregator.Reports(reports[i], key)
                           && ListSum(reports[i], key) == LargestTotal(reports, key)
    ensures LargestTotal(reports, key) >= 0
  {
    hide ListSum, Aggregator.Reports;
    if reports != [] {
      var n := |reports| - 1;
      LargestTotalIsLargest(reports[..n], key);
      assert forall i :: 0 <= i < n ==> reports[..n][i] == reports[i];
    }
  }

  lemma AggregatorKeepsLedger(s: System, s': System, worked: seq<Aggregate>)
    requires Ledger(s) && AggregatorRun(s, s', worked)
    ensures Ledger(s')
  {
    hide StoredSum, ListSum, Aggregator.Reports, Aggregator.DistinctKeys;
    assert s'.reports[..|s.reports|] == s.reports;
    forall id | id in s'.rows
      ensures s'.rows[id].amountValue > 0 && InLiveUpload(s'.rows[id], s'.uploads)
    {
      if id !in s.rows {
        assert Aggregator.NewRow(s'.rows[id], worked);
      }
    }
    forall key
      ensures StoredSum(s'.rows, key) == LargestTotal(s'.reports, key)
    { }
  }

  /** Marking changes neither keys nor amounts. */
  lemma MarkKeepsSums(rows: Rows, ids: set<nat>, uploadID: nat, key: Key)
    ensures StoredSum(Mark(rows, ids, uploadID), key) == StoredSum(rows, key)
  {
    StoredSumDependsOnAmounts(rows, Mark(rows, ids, uploadID), key);
  }

  /** A failed upload whose rollback works leaves the rows exactly as they were. */
  lemma RollbackRestoresRows(s: System, s': System, uploader: string, aggs: seq<Aggregate>)
    requires Ledger(s) && UploaderRun(s, s', uploader, aggs, RolledBack)
    ensures s'.rows == s.rows
  {
    hide StoredSum, Mark, Unmark, LargestTotal;
    FreeIDs(s.rows, aggs);
    UnmarkUndoesMark(s.rows, IDs(aggs), |s.uploads| + 1);
  }

  lemma FreeIDs(rows: Rows, aggs: seq<Aggregate>)
    requires RowsOf(aggs, rows) && forall a :: a in aggs ==> a.uploadID == 0
    ensures forall id :: id in IDs(aggs) ==> id in rows && rows[id].uploadID == 0
  { }

  lemma UploaderKeepsLedger(s: System, s': System, uploader: string, aggs: seq<Aggregate>, outcome: Outcome)
    requires Ledger(s) && UploaderRun(s, s', uploader, aggs, outcome)
    ensures Ledger(s')
  {
    hide StoredSum, LargestTotal, IDs;
    match outcome
    case NotUploaded =>
    case RolledBack =>
      RollbackRestoresRows(s, s', uploader, aggs);
      assert forall id :: id in s.rows ==> InLiveUpload(s.rows[id], s'.uploads);
    case Uploaded =>
      MarkingKeepsLedger(s, s', aggs, Some(uploader));
    case Stuck =>
      MarkingKeepsLedger(s, s', aggs, Some(uploader));
  }

  lemma MarkingKeepsLedger(s: System, s': System, aggs: seq<Aggregate>, record: Option<string>)
    requires Ledger(s) && RowsOf(aggs, s.rows) && (forall a :: a in aggs ==> a.uploadID == 0)
    requires record.Some? && s'.rows == Mark(s.rows, IDs(aggs), |s.uploads| + 1) && s'.uploads == s.uploads + [record]
    requires s'.reports == s.reports
    requires s'.sent == s.sent || s'.sent == s.sent + [Sent(|s.uploads| + 1, aggs)]
    ensures Ledger(s')
  {
    hide StoredSum, LargestTotal;
    FreeIDs(s.rows, aggs);
    forall id | id in s'.rows
      ensures s'.rows[id].amountValue > 0 && InLiveUpload(s'.rows[id], s'.uploads)
    {
      assert InLiveUpload(s.rows[id], s.uploads);
    }
    forall i | 0 <= i < |s'.sent|
      ensures SentFrom(s'.sent[i], s'.rows) && s'.sent[i].uploadID <= |s'.uploads|
    {
      if i < |s.sent| {
        assert SentFrom(s.sent[i], s.rows);
        SentStaysSent(s.sent[i], s.rows, IDs(aggs), |s.uploads| + 1);
      } else {
        NewlySent(aggs, s.rows, |s.uploads| + 1);
      }
    }
    forall key
      ensures StoredSum(s'.rows, key) == LargestTotal(s'.reports, key)
    {
      MarkKeepsSums(s.rows, IDs(aggs), |s.uploads| + 1, key);
    }
  }

  /** Rows of an earlier upload are not touched, because only free rows are marked. */
  lemma SentStaysSent(sent: Sent, rows: Rows, ids: set<nat>, uploadID: nat)
    requires SentFrom(sent, rows) && forall id :: id in ids ==> id in rows && rows[id].uploadID == 0
    ensures SentFrom(sent, Mark(rows, ids, uploadID))
  { }

  lemma NewlySent(aggs: seq<Aggregate>, rows: Rows, uploadID: nat)
    requires RowsOf(aggs, rows) && uploadID > 0 && forall a :: a in aggs ==> a.uploadID == 0
    ensures SentFrom(Sent(uploadID, aggs), Mark(rows, IDs(aggs), uploadID))
  { }

  lemma LedgerAtStart()
    ensures Ledger(START)
  { }

  /** The ledger is in order after every run, whatever failed. */
  lemma {:induction false} LedgerAlways(run: seq<System>, k: nat)
    requires IsRun(run) && k < |run|
    ensures Ledger(run[k])
  {
    hide Ledger, AggregatorRun, UploaderRun;
    if k == 0 {
      LedgerAtStart();
    } else {
      LedgerAlways(run, k - 1);
      var s, s' := run[k - 1], run[k];
      assert Step(run[k - 1], run[k - 1 + 1]);
      if worked :| AggregatorRun(s, s', worked) {
        AggregatorKeepsLedger(s, s', worked);
      } else {
        var uploader, aggs, outcome :| UploaderRun(s, s', uploader, aggs, outcome);
        UploaderKeepsLedger(s, s', uploader, aggs, outcome);
      }
    }
  }

  // ---------------------------------------------------------------- at most once

  /** A row is in at most one successful upload, and only once in it; a row that belongs to no
      upload is in none; a row that belongs to one names a recorded upload. */
  lemma AtMostOnce(run: seq<System>, k: nat, id: nat, i: nat, j: nat, a: Aggregate, b: Aggregate)
    requires IsRun(run) && k < |run| && id in run[k].rows
    requires i < |run[k].sent| && a in run[k].sent[i].aggs && a.id == id
    requires j < |run[k].sent| && b in run[k].sent[j].aggs && b.id == id
    ensures i == j && a == b
    ensures run[k].rows[id].uploadID == run[k].sent[i].uploadID != 0
    ensures InLiveUpload(run[k].rows[id], run[k].uploads)
  {
    hide StoredSum, LargestTotal;
    LedgerAlways(run, k);
  }

  // ---------------------------------------------------------------- end to end

  /** Everything delivered, upload by upload. */
  function Delivered(sent: seq<Sent>): seq<Aggregate> {
    if sent == [] then [] else Delivered(sent[..|sent| - 1]) + sent[|sent| - 1].aggs
  }

  function Free(rows: Rows): Rows { map id | id in rows :: rows[id].(uploadID := 0) }

  /** What was delivered is a list of rows without repetition. */
  lemma {:induction false} DeliveredAreRows(rows: Rows, sent: seq<Sent>)
    requires forall i :: 0 <= i < |sent| ==> SentFrom(sent[i], rows)
    requires forall i, j :: 0 <= i < j < |sent| ==> sent[i].uploadID < sent[j].uploadID
    ensures RowsOf(Delivered(sent), Free(rows))
    ensures forall a :: a in Delivered(sent) ==>
      a.id in rows && exists i :: 0 <= i < |sent| && rows[a.id].uploadID == sent[i].uploadID && a in sent[i].aggs
  {
    if sent != [] {
      var n := |sent| - 1;
      DeliveredAreRows(rows, sent[..n]);
      var d, last := Delivered(sent[..n]), sent[n];
      assert SentFrom(last, rows);
      forall x, y | 0 <= x < |d| && 0 <= y < |last.aggs|
        ensures d[x].id != last.aggs[y].id
      {
        assert d[x] in d && last.aggs[y] in last.aggs;
        var i :| 0 <= i < n && rows[d[x].id].uploadID == sent[..n][i].uploadID;
      }
      forall a | a in Delivered(sent)
        ensures a.id in rows
        ensures exists i :: 0 <= i < |sent| && rows[a.id].uploadID == sent[i].uploadID && a in sent[i].aggs
      {
        if a in d {
          var i :| 0 <= i < n && rows[a.id].uploadID == sent[..n][i].uploadID && a in sent[..n][i].aggs;
          assert sent[i] == sent[..n][i];
        } else {
          assert a in last.aggs;
        }
      }
    }
  }

  /** Over every interleaving of runs, with failures and crashes, what was delivered for a key
      never exceeds the largest total BigQuery reported for it, and equals it once every row of
      the key is in a successful upload. */
  lemma DeliveredNeverExceedsReported(run: seq<System>, k: nat, key: Key)
    requires IsRun(run) && k < |run|
    ensures var s := run[k];
            && ListSum(Delivered(s.sent), key) <= LargestTotal(s.reports, key)
            && ((forall id :: id in s.rows && AsKey(s.rows[id]) == key ==> Listed(Delivered(s.sent), id)) ==>
                  ListSum(Delivered(s.sent), key) == LargestTotal(s.reports, key))
  {
    hide StoredSum, LargestTotal, ListSum, Delivered, RowsOf, Listed;
    var s := run[k];
    LedgerAlways(run, k);
    DeliveredAreRows(s.rows, s.sent);
    StoredSumDependsOnAmounts(s.rows, Free(s.rows), key);
    ListedSum(Delivered(s.sent), Free(s.rows), key);
    assert forall id :: id in Free(s.rows) ==> AsKey(Free(s.rows)[id]) == AsKey(s.rows[id]);
  }
}
