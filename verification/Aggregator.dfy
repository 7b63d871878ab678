/** The job that brings the table up to the totals that BigQuery reports. */
module Aggregator {
  import opened Wrappers
  import opened Calendar
  import opened FiniteSums
  import opened Aggregates
  import opened UsageTable

  const BATCH_SIZE := 100

  /** The query groups by key, so a key is reported at most once. */
  predicate DistinctKeys(aggs: seq<Aggregate>) {
    forall i, j :: 0 <= i < j < |aggs| ==> AsKey(aggs[i]) != AsKey(aggs[j])
  }

  predicate Reports(aggs: seq<Aggregate>, key: Key) {
    exists a :: a in aggs && AsKey(a) == key
  }

  /** What a run should leave stored for a key: the reported total where it is more. */
  ghost function Target(rows: Rows, reported: seq<Aggregate>, key: Key): int {
    if Reports(reported, key) then Max(StoredSum(rows, key), ListSum(reported, key)) else StoredSum(rows, key)
  }

  /** A row added by a run: it makes up a positive difference and belongs to no upload yet. */
  predicate NewRow(a: Aggregate, reported: seq<Aggregate>) {
    a.amountValue > 0 && a.uploadID == 0 && Reports(reported, AsKey(a))
  }

  /** `rows'` is `rows` with new rows that bring every reported key to its target. */
  ghost predicate Reconciled(rows: Rows, rows': Rows, reported: seq<Aggregate>) {
    && (forall id :: id in rows ==> id in rows' && rows'[id] == rows[id])
    && (forall id :: id in rows' && id !in rows ==> NewRow(rows'[id], reported))
    && (forall key :: StoredSum(rows', key) == Target(rows, reported, key))
  }

  // ---------------------------------------------------------------- one batch

  method SumByKey(aggs: seq<Aggregate>) returns (m: map<Key, int>)
    ensures forall k :: k in m ==> m[k] == ListSum(aggs, k)
    ensures forall k :: k !in m ==> ListSum(aggs, k) == 0
  {
    m := map[];
    for n := 0 to |aggs|
      invariant forall k :: k in m ==> m[k] == ListSum(aggs[..n], k)
      invariant forall k :: k !in m ==> ListSum(aggs[..n], k) == 0
    {
      var key := AsKey(aggs[n]);
      assert aggs[..n + 1][..n] == aggs[..n];
      m := m[key := (if key in m then m[key] else 0) + aggs[n].amountValue];
    }
    assert aggs[..|aggs|] == aggs;
  }

  /** The reported aggregates reduced by what is stored, where something is left. */
  function Differences(reported: seq<Aggregate>, stored: seq<Aggregate>): seq<Aggregate> {
    if reported == [] then []
    else
      var n := |reported| - 1;
      var left := reported[n].amountValue - ListSum(stored, AsKey(reported[n]));
      Differences(reported[..n], stored) + (if left > 0 then [reported[n].(amountValue := left)] else [])
  }

  method Subtract(bqAggs: seq<Aggregate>, dbAggs: seq<Aggregate>) returns (aggs: seq<Aggregate>)
    ensures aggs == Differences(bqAggs, dbAggs)
  {
    aggs := [];
    var sums := SumByKey(dbAggs);
    for n := 0 to |bqAggs|
      invariant aggs == Differences(bqAggs[..n], dbAggs)
    {
      assert bqAggs[..n + 1][..n] == bqAggs[..n];
      var key := AsKey(bqAggs[n]);
      var sum := if key in sums then sums[key] else 0;
      var left := bqAggs[n].amountValue - sum;
      if left > 0 {
        aggs := aggs + [bqAggs[n].(amountValue := left)];
      }
    }
    assert bqAggs[..|bqAggs|] == bqAggs;
  }

  /** The fetch also asks for the empty instance ID, once for every aggregate. */
  method InstanceIDs(aggs: seq<Aggregate>) returns (ids: seq<string>)
    ensures forall a :: a in aggs ==> a.instanceID in ids
    ensures forall i :: i in ids ==> i == "" || exists a :: a in aggs && a.instanceID == i
  {
    ids := seq(|aggs|, _ => "");
    for n := 0 to |aggs|
      invariant forall a :: a in aggs[..n] ==> a.instanceID in ids
      invariant forall i :: i in ids ==> i == "" || exists a :: a in aggs && a.instanceID == i
    {
      assert aggs[n] in aggs;
      assert aggs[..n + 1] == aggs[..n] + [aggs[n]];
      ids := ids + [aggs[n].instanceID];
    }
    assert aggs[..|aggs|] == aggs;
  }

  lemma {:induction false} ListSumOfUnreported(aggs: seq<Aggregate>, key: Key)
    requires !Reports(aggs, key)
    ensures ListSum(aggs, key) == 0
  {
    if aggs != [] {
      var n := |aggs| - 1;
      assert aggs[n] in aggs;
      assert forall a :: a in aggs[..n] ==> a in aggs;
      ListSumOfUnreported(aggs[..n], key);
    }
  }

  lemma ReportsStep(aggs: seq<Aggregate>, key: Key)
    requires aggs != [] && DistinctKeys(aggs)
    ensures var n := |aggs| - 1;
            && (Reports(aggs, key) <==> Reports(aggs[..n], key) || AsKey(aggs[n]) == key)
            && (Reports(aggs[..n], key) ==> AsKey(aggs[n]) != key)
            && DistinctKeys(aggs[..n])
  { }

  /** The differences of a key add up to what its total exceeds the stored sum by. */
  lemma {:induction false} DifferenceSum(reported: seq<Aggregate>, stored: seq<Aggregate>, key: Key)
    requires DistinctKeys(reported)
    ensures ListSum(Differences(reported, stored), key)
            == if Reports(reported, key) then Max(0, ListSum(reported, key) - ListSum(stored, key)) else 0
  {
    hide Reports, DistinctKeys, ListSum, Differences;
    if reported == [] {
      NothingReported(key);
      EmptySums(stored, key);
    } else {
      var n := |reported| - 1;
      var init := reported[..n];
      ReportsStep(reported, key);
      DifferenceSum(init, stored, key);
      UnreportedSums(init, key);
      ListSumStep(reported, key);
      DifferencesStep(reported, stored, key);
    }
  }

  lemma EmptySums(stored: seq<Aggregate>, key: Key)
    ensures ListSum(Differences([], stored), key) == 0
  { }

  lemma ListSumStep(aggs: seq<Aggregate>, key: Key)
    requires aggs != []
    ensures ListSum(aggs, key) == ListSum(aggs[..|aggs| - 1], key) + Share(aggs[|aggs| - 1], key)
  { }

  lemma DifferencesStep(reported: seq<Aggregate>, stored: seq<Aggregate>, key: Key)
    requires reported != []
    ensures var n := |reported| - 1;
            var left := reported[n].amountValue - ListSum(stored, AsKey(reported[n]));
            ListSum(Differences(reported, stored), key)
            == ListSum(Differences(reported[..n], stored), key) + if AsKey(reported[n]) == key then Max(0, left) else 0
  {
    hide ListSum;
    var n := |reported| - 1;
    var d := Differences(reported[..n], stored);
    var left := reported[n].amountValue - ListSum(stored, AsKey(reported[n]));
    ListSumAppend(d, reported[n].(amountValue := left), key);
    assert d + [] == d;
  }

  lemma NothingReported(key: Key)
    ensures !Reports([], key)
  { }

  lemma ListSumAppend(aggs: seq<Aggregate>, a: Aggregate, key: Key)
    ensures ListSum(aggs + [a], key) == ListSum(aggs, key) + Share(a, key)
  {
    assert (aggs + [a])[..|aggs|] == aggs;
  }

  lemma {:induction false} DifferencesAreNew(reported: seq<Aggregate>, stored: seq<Aggregate>)
    requires forall a :: a in reported ==> a.uploadID == 0
    ensures forall d :: d in Differences(reported, stored) ==> NewRow(d, reported)
  {
    if reported != [] {
      var n := |reported| - 1;
      DifferencesAreNew(reported[..n], stored);
      assert reported[n] in reported;
      forall d | d in Differences(reported[..n], stored)
        ensures NewRow(d, reported)
      {
        var a :| a in reported[..n] && AsKey(a) == AsKey(d);
        assert a in reported;
      }
    }
  }

  /** Inserting the differences of a batch reconciles the batch. */
  lemma BatchReconciles(rows: Rows, last: nat, reported: seq<Aggregate>, stored: seq<Aggregate>, now: Time)
    requires IsLast(rows, last) && DistinctKeys(reported)
    requires forall a :: a in reported ==> a.uploadID == 0
    requires forall a :: a in reported ==> ListSum(stored, AsKey(a)) == StoredSum(rows, AsKey(a))
    ensures Reconciled(rows, AppendRows(rows, last, Differences(reported, stored), now), reported)
  {
    hide StoredSum, AppendRows, Differences, DistinctKeys;
    var added := Differences(reported, stored);
    var rows' := AppendRows(rows, last, added, now);
    DifferencesAreNew(reported, stored);
    forall id: nat
      ensures id in rows ==> id in rows' && rows'[id] == rows[id]
      ensures id in rows' && id !in rows ==> NewRow(rows'[id], reported)
    {
      AppendedIDs(rows, last, added, now, id);
      if id in rows' && id !in rows {
        var d := added[id - last - 1];
        assert d in added;
        assert AsKey(rows'[id]) == AsKey(d);
      }
    }
    forall key
      ensures StoredSum(rows', key) == Target(rows, reported, key)
    {
      AppendSum(rows, last, added, now, key);
      DifferenceSum(reported, stored, key);
    }
  }

  /** The fetched rows hold everything stored under the keys of the batch. */
  lemma FetchedSums(fetched: seq<Aggregate>, rows: Rows, instanceIDs: seq<string>, since: Time, a: Aggregate)
    requires Lists(fetched, rows, StoredSince(rows, instanceIDs, since))
    requires a.instanceID in instanceIDs && a.bucketStart >= since
    ensures ListSum(fetched, AsKey(a)) == StoredSum(rows, AsKey(a))
  {
    hide StoredSum, ListSum;
    ListedSum(fetched, rows, AsKey(a));
  }

  // ---------------------------------------------------------------- the period of a run

  /** Totals are asked for from a full hour on: the given time, or six hours ago, rounded down. */
  function StartTime(since: Option<Time>, now: Time): Time {
    TruncateToHour(match since case Some(t) => t case None => now - 6 * NS_PER_HOUR)
  }

  /** The query takes usage received from `start` on and groups it by the hour. Each hour is then
      taken as a whole or not at all if and only if `start` is a full hour; otherwise the hour around
      `start` is reported with a partial total, in a bucket before `start`. */
  lemma WholeHoursIff(start: Time)
    ensures (forall received: Time :: received >= start <==> TruncateToHour(received) >= start)
            <==> TruncateToHour(start) == start
  {
    if TruncateToHour(start) != start {
      assert start >= start && !(TruncateToHour(start) >= start);
    }
  }

  lemma StartIsFullHour(since: Option<Time>, now: Time)
    ensures forall received: Time ::
      received >= StartTime(since, now) <==> TruncateToHour(received) >= StartTime(since, now)
    ensures since.None? ==> now - 7 * NS_PER_HOUR < StartTime(since, now) <= now - 6 * NS_PER_HOUR
    ensures since.Some? ==> since.value - NS_PER_HOUR < StartTime(since, now) <= since.value
  {
    WholeHoursIff(StartTime(since, now));
  }

  // ---------------------------------------------------------------- whole runs

  lemma {:induction false} ListSumConcat(a: seq<Aggregate>, b: seq<Aggregate>, key: Key)
    ensures ListSum(a + b, key) == ListSum(a, key) + ListSum(b, key)
  {
    if b == [] {
      assert a + b == a;
    } else {
      assert (a + b)[..|a + b| - 1] == a + b[..|b| - 1];
      ListSumConcat(a, b[..|b| - 1], key);
    }
  }

  lemma ReportsConcat(a: seq<Aggregate>, b: seq<Aggregate>, key: Key)
    ensures Reports(a + b, key) <==> Reports(a, key) || Reports(b, key)
    ensures DistinctKeys(a + b) ==> !(Reports(a, key) && Reports(b, key))
  {
    if Reports(a, key) {
      var x :| x in a && AsKey(x) == key;
      assert x in a + b;
    }
    if Reports(b, key) {
      var y :| y in b && AsKey(y) == key;
      assert y in a + b;
    }
    if Reports(a, key) && Reports(b, key) {
      var x :| x in a && AsKey(x) == key;
      var y :| y in b && AsKey(y) == key;
      var i :| 0 <= i < |a| && a[i] == x;
      var j :| 0 <= j < |b| && b[j] == y;
      assert (a + b)[i] == x && (a + b)[|a| + j] == y;
      assert !DistinctKeys(a + b);
    }
  }

  /** Reconciling one part of a report and then the rest reconciles the whole. */
  lemma ReconciledConcat(rows: Rows, rows1: Rows, rows2: Rows, a: seq<Aggregate>, b: seq<Aggregate>)
    requires Reconciled(rows, rows1, a) && Reconciled(rows1, rows2, b) && DistinctKeys(a + b)
    ensures Reconciled(rows, rows2, a + b)
  {
    hide StoredSum, ListSum, Reports, DistinctKeys;
    forall key
      ensures StoredSum(rows2, key) == Target(rows, a + b, key)
    {
      ListSumConcat(a, b, key);
      ReportsConcat(a, b, key);
      UnreportedSums(a, key);
      UnreportedSums(b, key);
    }
    forall id | id in rows2 && id !in rows
      ensures NewRow(rows2[id], a + b)
    {
      ReportsConcat(a, b, AsKey(rows2[id]));
    }
  }

  lemma UnreportedSums(aggs: seq<Aggregate>, key: Key)
    ensures !Reports(aggs, key) ==> ListSum(aggs, key) == 0
  { }

  lemma NothingToReconcile(rows: Rows)
    ensures Reconciled(rows, rows, [])
  { }

  method ReconcileBatch(db: MemoryDB, bqAggs: seq<Aggregate>, since: Time, now: Time)
    requires db.Valid() && DistinctKeys(bqAggs)
    requires forall a :: a in bqAggs ==> a.bucketStart >= since && a.uploadID == 0
    modifies db`aggregatesSet
    ensures db.Valid() && Reconciled(old(db.aggregatesSet), db.aggregatesSet, bqAggs)
  {
    hide StoredSum, ListSum, Reconciled, DistinctKeys, AppendRows, Lists, IsLast;
    var instanceIDs := InstanceIDs(bqAggs);
    var dbAggs := db.GetAggregatesFrom(instanceIDs, since);
    ghost var rows := db.aggregatesSet;
    forall a | a in bqAggs
      ensures ListSum(dbAggs, AsKey(a)) == StoredSum(rows, AsKey(a))
    {
      FetchedSums(dbAggs, rows, instanceIDs, since, a);
    }
    var batch := Subtract(bqAggs, dbAggs);
    var duplicate, last := db.InsertAggregates(batch, now);
    BatchReconciles(rows, last, bqAggs, dbAggs, now);
  }

  /** A run works through the report in batches. A database error, or a crash, may end it between
      two batches, after `done` aggregates: `queryFails` and `fails(b)`, for batch `b`, say when. */
  method Do(db: MemoryDB, aggs: seq<Aggregate>, since: Option<Time>, now: Time, queryFails: bool, fails: nat -> bool)
    returns (err: bool, ghost done: nat)
    requires db.Valid() && DistinctKeys(aggs)
    requires forall a :: a in aggs ==> a.bucketStart >= StartTime(since, now) && a.uploadID == 0
    modifies db`aggregatesSet
    ensures db.Valid()
    ensures done <= |aggs| && (!err ==> done == |aggs|)
    // It fails exactly when the query or a batch does, and then the batches before are done.
    ensures err <==> queryFails || exists b: nat :: b * BATCH_SIZE < |aggs| && fails(b)
    ensures err && !queryFails ==>
      exists b: nat :: done == b * BATCH_SIZE < |aggs| && fails(b) && forall c: nat :: c < b ==> !fails(c)
    ensures Reconciled(old(db.aggregatesSet), db.aggregatesSet, aggs[..done])
  {
    hide Reconciled, DistinctKeys, StartTime;
    var start := StartTime(since, now);
    NothingToReconcile(db.aggregatesSet);
    if queryFails {
      return true, 0;
    }
    var i := 0;
    var b: nat := 0;
    while i < |aggs|
      invariant i == (if b * BATCH_SIZE < |aggs| then b * BATCH_SIZE else |aggs|) && db.Valid()
      invariant forall c: nat :: c < b ==> !fails(c)
      invariant Reconciled(old(db.aggregatesSet), db.aggregatesSet, aggs[..i])
    {
      if fails(b) {
        return true, i;
      }
      var l := i + BATCH_SIZE;
      if l > |aggs| {
        l := |aggs|;
      }
      ghost var before := db.aggregatesSet;
      PartsAreDistinct(aggs, i, l);
      assert forall a :: a in aggs[i..l] ==> a in aggs;
      ReconcileBatch(db, aggs[i..l], start, now);
      ReconciledConcat(old(db.aggregatesSet), before, db.aggregatesSet, aggs[..i], aggs[i..l]);
      i, b := l, b + 1;
    }
    return false, i;
  }

  lemma PartsAreDistinct(aggs: seq<Aggregate>, i: nat, l: nat)
    requires DistinctKeys(aggs) && i <= l <= |aggs|
    ensures DistinctKeys(aggs[i..l]) && DistinctKeys(aggs[..l])
    ensures aggs[..i] + aggs[i..l] == aggs[..l]
  { }

  // ---------------------------------------------------------------- what reconciliation guarantees

  /** Running again on the same report changes nothing at all. */
  lemma RerunChangesNothing(rows: Rows, rows1: Rows, rows2: Rows, reported: seq<Aggregate>)
    requires Reconciled(rows, rows1, reported) && Reconciled(rows1, rows2, reported)
    ensures rows2 == rows1
  {
    hide StoredSum, ListSum, Reports;
    if id :| id in rows2 && id !in rows1 {
      var key := AsKey(rows2[id]);
      NewRowsRaiseSums(rows1, rows2, reported, id);
    }
    assert rows2.Keys == rows1.Keys;
  }

  /** Every new row raises the sum of its key. */
  lemma NewRowsRaiseSums(rows: Rows, rows': Rows, reported: seq<Aggregate>, id: nat)
    requires Reconciled(rows, rows', reported) && id in rows' && id !in rows
    ensures StoredSum(rows', AsKey(rows'[id])) > StoredSum(rows, AsKey(rows'[id]))
  {
    hide StoredSum, ListSum, Reports;
    var key := AsKey(rows'[id]);
    StoredSumRemove(rows', id, key);
    GrowthRaisesSums(rows, rows' - {id}, key);
  }

  /** Adding rows with positive amounts never lowers a sum. */
  lemma {:induction false} GrowthRaisesSums(rows: Rows, rows': Rows, key: Key)
    requires forall id :: id in rows ==> id in rows' && rows'[id] == rows[id]
    requires forall id :: id in rows' && id !in rows ==> rows'[id].amountValue > 0
    ensures StoredSum(rows', key) >= StoredSum(rows, key)
    decreases |rows'|
  {
    hide StoredSum;
    if id :| id in rows' && id !in rows {
      assert |(rows' - {id}).Keys| < |rows'.Keys| by {
        assert rows'.Keys == (rows' - {id}).Keys + {id};
      }
      GrowthRaisesSums(rows, rows' - {id}, key);
      StoredSumRemove(rows', id, key);
    } else {
      assert rows'.Keys == rows.Keys;
      assert rows' == rows;
    }
  }

  /** A run that stopped between batches, followed by a complete one, stores the same sums as one
      complete run. */
  lemma CrashThenRerun(rows: Rows, rows1: Rows, rows2: Rows, reported: seq<Aggregate>, done: nat, key: Key)
    requires DistinctKeys(reported) && done <= |reported|
    requires Reconciled(rows, rows1, reported[..done]) && Reconciled(rows1, rows2, reported)
    ensures StoredSum(rows2, key) == Target(rows, reported, key)
  {
    hide StoredSum, ListSum, Reports, DistinctKeys;
    var a, b := reported[..done], reported[done..];
    assert reported == a + b;
    ListSumConcat(a, b, key);
    ReportsConcat(a, b, key);
    UnreportedSums(a, key);
    UnreportedSums(b, key);
  }
}
