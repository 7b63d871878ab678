/** The table of usage aggregates and the record of uploads (the in-memory database). */
module UsageTable {
  import opened Wrappers
  import opened Calendar
  import opened Aggregates
  import opened FiniteSums

  type Rows = map<nat, Aggregate>

  /** What the aggregator reconciles by: one instance, one hour, one kind of usage. */
  datatype Key = Key(instanceID: string, bucketStart: Time, amountType: string)

  function AsKey(a: Aggregate): Key { Key(a.instanceID, a.bucketStart, a.amountType) }

  lemma SameKeyIff(a: Aggregate, b: Aggregate)
    ensures AsKey(a) == AsKey(b)
            <==> a.instanceID == b.instanceID && a.bucketStart == b.bucketStart && a.amountType == b.amountType
  { }

  // ---------------------------------------------------------------- amounts stored per key

  /** What a row contributes to a key. */
  function Share(a: Aggregate, key: Key): int { if AsKey(a) == key then a.amountValue else 0 }

  ghost function Shares(rows: Rows, key: Key): map<nat, int> {
    map id | id in rows :: Share(rows[id], key)
  }

  ghost function StoredSum(rows: Rows, key: Key): int { SumMap(Shares(rows, key)) }

  function ListSum(aggs: seq<Aggregate>, key: Key): int {
    if aggs == [] then 0 else ListSum(aggs[..|aggs| - 1], key) + Share(aggs[|aggs| - 1], key)
  }

  /** Rows are stored under their own ID, and IDs start at 1. */
  ghost predicate Keyed(rows: Rows) {
    forall id :: id in rows ==> rows[id].id == id && id >= 1
  }

  lemma StoredSumInsert(rows: Rows, id: nat, a: Aggregate, key: Key)
    requires id !in rows
    ensures StoredSum(rows[id := a], key) == StoredSum(rows, key) + Share(a, key)
  {
    hide SumMap;
    SumMapUpdate(Shares(rows, key), id, Share(a, key));
    assert Shares(rows[id := a], key) == Shares(rows, key)[id := Share(a, key)];
  }

  lemma StoredSumRemove(rows: Rows, id: nat, key: Key)
    requires id in rows
    ensures StoredSum(rows, key) == StoredSum(rows - {id}, key) + Share(rows[id], key)
  {
    hide SumMap;
    SumMapRemove(Shares(rows, key), id);
    assert Shares(rows - {id}, key) == Shares(rows, key) - {id};
  }

  /** Rows that agree on key and amount carry the same sums. */
  lemma StoredSumDependsOnAmounts(rows: Rows, rows': Rows, key: Key)
    requires rows.Keys == rows'.Keys
    requires forall id :: id in rows ==>
      AsKey(rows[id]) == AsKey(rows'[id]) && rows[id].amountValue == rows'[id].amountValue
    ensures StoredSum(rows, key) == StoredSum(rows', key)
  {
    assert Shares(rows, key) == Shares(rows', key);
  }

  // ---------------------------------------------------------------- listings of rows

  predicate DistinctIDs(aggs: seq<Aggregate>) {
    forall i, j :: 0 <= i < j < |aggs| ==> aggs[i].id != aggs[j].id
  }

  /** Every element is a row of the table, and no row is repeated. */
  ghost predicate RowsOf(aggs: seq<Aggregate>, rows: Rows) {
    DistinctIDs(aggs) && forall a :: a in aggs ==> a.id in rows && rows[a.id] == a
  }

  predicate Listed(aggs: seq<Aggregate>, id: nat) {
    exists a :: a in aggs && a.id == id
  }

  /** `aggs` are, in some order, exactly the rows whose ID is in `ids`. */
  ghost predicate Lists(aggs: seq<Aggregate>, rows: Rows, ids: set<nat>) {
    RowsOf(aggs, rows) && forall id :: id in ids <==> Listed(aggs, id)
  }

  /** Some rows of a table sum to no more than all of them, and to the same when the list has
      every row of the key. */
  lemma {:induction false} ListedSum(aggs: seq<Aggregate>, rows: Rows, key: Key)
    requires RowsOf(aggs, rows)
    ensures (forall id :: id in rows ==> rows[id].amountValue >= 0) ==> ListSum(aggs, key) <= StoredSum(rows, key)
    ensures (forall id :: id in rows && AsKey(rows[id]) == key ==> Listed(aggs, id)) ==>
      ListSum(aggs, key) == StoredSum(rows, key)
  {
    hide SumMap;
    if aggs == [] {
      NothingListed(rows, key);
    } else {
      var n := |aggs| - 1;
      var a := aggs[n];
      assert a in aggs;
      var fewer := rows - {a.id};
      assert RowsOf(aggs[..n], fewer) by {
        forall b | b in aggs[..n]
          ensures b.id in fewer && fewer[b.id] == b
        { }
      }
      ListedSum(aggs[..n], fewer, key);
      StoredSumRemove(rows, a.id, key);
      assert forall id :: Listed(aggs, id) && id != a.id ==> Listed(aggs[..n], id);
    }
  }

  lemma NothingListed(rows: Rows, key: Key)
    ensures (forall id :: id in rows ==> rows[id].amountValue >= 0) ==> StoredSum(rows, key) >= 0
    ensures (forall id :: id in rows && AsKey(rows[id]) == key ==> Listed([], id)) ==> StoredSum(rows, key) == 0
  {
    var shares := Shares(rows, key);
    if forall id :: id in rows ==> rows[id].amountValue >= 0 {
      SumMapNonNegative(shares);
    }
    if forall id :: id in rows && AsKey(rows[id]) == key ==> Listed([], id) {
      SumMapZero(shares);
    }
  }

  lemma ListsAppend(aggs: seq<Aggregate>, rows: Rows, ids: set<nat>, a: Aggregate)
    requires Lists(aggs, rows, ids) && a.id in rows && rows[a.id] == a && a.id !in ids
    ensures Lists(aggs + [a], rows, ids + {a.id})
  { }

  // ---------------------------------------------------------------- inserting rows

  ghost predicate IsLast(rows: Rows, last: nat) {
    && (forall id :: id in rows ==> id <= last)
    && (last == 0 || last in rows)
  }

  /** The rows after giving each new aggregate the next ID. */
  function AppendRows(rows: Rows, last: nat, aggs: seq<Aggregate>, now: Time): Rows {
    if aggs == [] then rows
    else
      var n := |aggs| - 1;
      AppendRows(rows, last, aggs[..n], now)[last + n + 1 := aggs[n].(id := last + n + 1, createdAt := now)]
  }

  lemma {:induction false} AppendedIDs(rows: Rows, last: nat, aggs: seq<Aggregate>, now: Time, id: nat)
    requires IsLast(rows, last)
    ensures var rows' := AppendRows(rows, last, aggs, now);
            && (id in rows' <==> id in rows || last < id <= last + |aggs|)
            && (id in rows ==> rows'[id] == rows[id])
            && (last < id <= last + |aggs| ==> rows'[id] == aggs[id - last - 1].(id := id, createdAt := now))
  {
    if aggs != [] {
      AppendedIDs(rows, last, aggs[..|aggs| - 1], now, id);
    }
  }

  lemma {:induction false} AppendSum(rows: Rows, last: nat, aggs: seq<Aggregate>, now: Time, key: Key)
    requires IsLast(rows, last)
    ensures StoredSum(AppendRows(rows, last, aggs, now), key) == StoredSum(rows, key) + ListSum(aggs, key)
  {
    hide StoredSum;
    if aggs != [] {
      var n := |aggs| - 1;
      AppendSum(rows, last, aggs[..n], now, key);
      AppendedIDs(rows, last, aggs[..n], now, last + n + 1);
      var row := aggs[n].(id := last + n + 1, createdAt := now);
      StoredSumInsert(AppendRows(rows, last, aggs[..n], now), last + n + 1, row, key);
    }
  }

  // ---------------------------------------------------------------- marking and unmarking uploads

  function Mark(rows: Rows, ids: set<nat>, uploadID: nat): Rows {
    map id | id in rows :: if id in ids then rows[id].(uploadID := uploadID) else rows[id]
  }

  /** The zero value of a row, at the zero time of January 1 of year 1. */
  const BLANK := Aggregate(0, "", 366 * NS_PER_DAY, "", 0, 366 * NS_PER_DAY, 0)

  /** Marking as the map of rows does it: an ID without a row gets a blank one. */
  function MarkOrCreate(rows: Rows, ids: set<nat>, uploadID: nat): Rows {
    map id | id in rows.Keys + ids ::
      if id in ids then (if id in rows then rows[id] else BLANK).(uploadID := uploadID) else rows[id]
  }

  lemma KnownIDsAreMarked(rows: Rows, ids: set<nat>, uploadID: nat)
    requires Keyed(rows)
    ensures Keyed(MarkOrCreate(rows, ids, uploadID)) <==> ids <= rows.Keys
    ensures ids <= rows.Keys ==> MarkOrCreate(rows, ids, uploadID) == Mark(rows, ids, uploadID)
  {
    if !(ids <= rows.Keys) {
      var id :| id in ids && id !in rows;
      assert id in rows.Keys + ids;
      assert MarkOrCreate(rows, ids, uploadID)[id].id == 0;
    }
  }

  function Unmark(rows: Rows, uploadID: nat): Rows {
    map id | id in rows :: if rows[id].uploadID == uploadID then rows[id].(uploadID := 0) else rows[id]
  }

  /** Unmarking an upload nobody else used restores rows that were unmarked before. */
  lemma UnmarkUndoesMark(rows: Rows, ids: set<nat>, uploadID: nat)
    requires forall id :: id in rows ==> rows[id].uploadID != uploadID
    requires forall id :: id in ids && id in rows ==> rows[id].uploadID == 0
    ensures Unmark(Mark(rows, ids, uploadID), uploadID) == rows
  { }

  function Elements(ids: seq<nat>): set<nat> { set id | id in ids }

  function IDs(aggs: seq<Aggregate>): set<nat> { set a | a in aggs :: a.id }

  /** The in-memory database. Upload number `n` is recorded at `uploads[n - 1]`. */
  class MemoryDB {
    var aggregatesSet: Rows
    var uploads: seq<Option<string>>

    ghost predicate Valid()
      reads this
    {
      Keyed(aggregatesSet)
    }

    constructor ()
      ensures Valid() && aggregatesSet == map[] && uploads == []
    {
      aggregatesSet, uploads := map[], [];
    }

    method LastID() returns (last: nat)
      requires Valid()
      ensures IsLast(aggregatesSet, last)
    {
      last := 0;
      var todo := aggregatesSet.Keys;
      while todo != {}
        invariant todo <= aggregatesSet.Keys
        invariant forall id :: id in aggregatesSet && id !in todo ==> id <= last
        invariant last == 0 || last in aggregatesSet
        decreases todo
      {
        var id :| id in todo;
        if aggregatesSet[id].id > last {
          last := aggregatesSet[id].id;
        }
        todo := todo - {id};
      }
    }

    /** The duplicate check never fires, because the new IDs are above all existing ones. */
    method InsertAggregates(aggregates: seq<Aggregate>, now: Time) returns (duplicate: bool, ghost last: nat)
      requires Valid()
      modifies this`aggregatesSet
      ensures Valid() && !duplicate
      ensures IsLast(old(aggregatesSet), last)
      ensures aggregatesSet == AppendRows(old(aggregatesSet), last, aggregates, now)
      ensures forall id: nat :: id in aggregatesSet <==> id in old(aggregatesSet) || last < id <= last + |aggregates|
      ensures forall id :: id in old(aggregatesSet) ==> aggregatesSet[id] == old(aggregatesSet)[id]
      ensures forall n :: 0 <= n < |aggregates| ==>
        aggregatesSet[last + 1 + n] == aggregates[n].(id := last + 1 + n, createdAt := now)
    {
      var lastid := LastID();
      last := lastid;
      for n := 0 to |aggregates|
        invariant lastid == last + n
        invariant aggregatesSet == AppendRows(old(aggregatesSet), last, aggregates[..n], now)
      {
        lastid := lastid + 1;
        AppendedIDs(old(aggregatesSet), last, aggregates[..n], now, lastid);
        assert aggregates[..n + 1][..n] == aggregates[..n];
        if lastid in aggregatesSet {
          return true, last;
        }
        aggregatesSet := aggregatesSet[lastid := aggregates[n].(id := lastid, createdAt := now)];
      }
      assert aggregates[..|aggregates|] == aggregates;
      forall id: nat
        ensures id in aggregatesSet <==> id in old(aggregatesSet) || last < id <= last + |aggregates|
        ensures id in old(aggregatesSet) ==> aggregatesSet[id] == old(aggregatesSet)[id]
      {
        AppendedIDs(old(aggregatesSet), last, aggregates, now, id);
      }
      forall n | 0 <= n < |aggregates|
        ensures aggregatesSet[last + 1 + n] == aggregates[n].(id := last + 1 + n, createdAt := now)
      {
        AppendedIDs(old(aggregatesSet), last, aggregates, now, last + 1 + n);
      }
      forall id | id in aggregatesSet
        ensures aggregatesSet[id].id == id && id >= 1
      {
        AppendedIDs(old(aggregatesSet), last, aggregates, now, id);
      }
      return false, last;
    }

    method GetAggregatesFrom(instanceIDs: seq<string>, from: Time) returns (r: seq<Aggregate>)
      requires Valid()
      ensures Lists(r, aggregatesSet, StoredSince(aggregatesSet, instanceIDs, from))
      ensures forall a :: a in r <==>
        a.id in aggregatesSet && aggregatesSet[a.id] == a && a.instanceID in instanceIDs && from <= a.bucketStart
    {
      r := [];
      var todo := aggregatesSet.Keys;
      ghost var ids: set<nat> := {};
      while todo != {}
        invariant todo <= aggregatesSet.Keys
        invariant Lists(r, aggregatesSet, ids)
        invariant ids == set id | id in aggregatesSet && id !in todo && aggregatesSet[id].instanceID in instanceIDs
                                  && aggregatesSet[id].bucketStart >= from
        decreases todo
      {
        var id :| id in todo;
        todo := todo - {id};
        var a := aggregatesSet[id];
        if a.instanceID in instanceIDs && !(a.bucketStart < from) {
          ListsAppend(r, aggregatesSet, ids, a);
          r := r + [a];
          ids := ids + {id};
        }
      }
      ListsMembers(r, aggregatesSet, ids);
    }

    /** Rows of one instance with a bucket in [from, through); the upper bound is exclusive. */
    method GetAggregates(instanceID: string, from: Time, through: Time) returns (r: seq<Aggregate>)
      requires Valid()
      ensures Lists(r, aggregatesSet, set id | id in aggregatesSet && aggregatesSet[id].instanceID == instanceID
                                               && from <= aggregatesSet[id].bucketStart < through)
    {
      r := [];
      var todo := aggregatesSet.Keys;
      ghost var ids: set<nat> := {};
      while todo != {}
        invariant todo <= aggregatesSet.Keys
        invariant Lists(r, aggregatesSet, ids)
        invariant ids == set id | id in aggregatesSet && id !in todo && aggregatesSet[id].instanceID == instanceID
                                  && from <= aggregatesSet[id].bucketStart < through
        decreases todo
      {
        var id :| id in todo;
        todo := todo - {id};
        var a := aggregatesSet[id];
        if !(a.bucketStart < from || a.bucketStart >= through) && a.instanceID == instanceID {
          ListsAppend(r, aggregatesSet, ids, a);
          r := r + [a];
          ids := ids + {id};
        }
      }
    }

    method GetAggregatesToUpload(instanceID: string, from: Time, through: Time) returns (r: seq<Aggregate>)
      requires Valid()
      ensures Lists(r, aggregatesSet, ToUpload(aggregatesSet, instanceID, from, through))
      ensures forall a :: a in r <==>
        && a.id in aggregatesSet && aggregatesSet[a.id] == a && a.instanceID == instanceID
        && from <= a.bucketStart < through && a.uploadID == 0
    {
      var all := GetAggregates(instanceID, from, through);
      r := [];
      ghost var ids: set<nat> := {};
      for n := 0 to |all|
        invariant Lists(r, aggregatesSet, ids)
        invariant forall id :: id in ids <==> exists i :: 0 <= i < n && all[i].id == id && all[i].uploadID == 0
      {
        assert all[n] in all;
        if all[n].uploadID == 0 {
          ListsAppend(r, aggregatesSet, ids, all[n]);
          r := r + [all[n]];
          ids := ids + {all[n].id};
        }
      }
      forall id
        ensures id in ids <==> id in ToUpload(aggregatesSet, instanceID, from, through)
      {
        if id in ToUpload(aggregatesSet, instanceID, from, through) {
          assert Listed(all, id);
          var a :| a in all && a.id == id;
          var i :| 0 <= i < |all| && all[i] == a;
        }
        if id in ids {
          var i :| 0 <= i < |all| && all[i].id == id && all[i].uploadID == 0;
          assert all[i] in all;
          assert Listed(all, id);
        }
      }
      assert ids == ToUpload(aggregatesSet, instanceID, from, through);
      ListsMembers(r, aggregatesSet, ids);
    }

    method InsertUsageUpload(uploader: string, aggregateIDs: seq<nat>) returns (uploadID: nat)
      requires Valid()
      modifies this
      ensures uploadID == |old(uploads)| + 1 && uploads == old(uploads) + [Some(uploader)]
      ensures aggregatesSet == MarkOrCreate(old(aggregatesSet), Elements(aggregateIDs), uploadID)
      // The table stays in order exactly when all rows exist; then exactly these rows are marked.
      ensures Valid() <==> Elements(aggregateIDs) <= old(aggregatesSet).Keys
      ensures Valid() ==> aggregatesSet == Mark(old(aggregatesSet), Elements(aggregateIDs), uploadID)
    {
      uploadID := |uploads| + 1;
      uploads := uploads + [Some(uploader)];
      for n := 0 to |aggregateIDs|
        invariant uploads == old(uploads) + [Some(uploader)]
        invariant aggregatesSet == MarkOrCreate(old(aggregatesSet), Elements(aggregateIDs[..n]), uploadID)
      {
        var id := aggregateIDs[n];
        assert aggregateIDs[..n + 1] == aggregateIDs[..n] + [id];
        var agg := if id in aggregatesSet then aggregatesSet[id] else BLANK;
        aggregatesSet := aggregatesSet[id := agg.(uploadID := uploadID)];
      }
      assert aggregateIDs[..|aggregateIDs|] == aggregateIDs;
      KnownIDsAreMarked(old(aggregatesSet), Elements(aggregateIDs), uploadID);
    }

    method DeleteUsageUpload(uploadID: nat)
      requires Valid() && 1 <= uploadID <= |uploads|
      modifies this
      ensures Valid()
      ensures uploads == old(uploads)[uploadID - 1 := None]
      ensures aggregatesSet == Unmark(old(aggregatesSet), uploadID)
    {
      uploads := uploads[uploadID - 1 := None];
      var todo := aggregatesSet.Keys;
      while todo != {}
        invariant todo <= old(aggregatesSet).Keys && aggregatesSet.Keys == old(aggregatesSet).Keys
        invariant uploads == old(uploads)[uploadID - 1 := None]
        invariant forall id :: id in aggregatesSet ==>
          aggregatesSet[id] == if id in todo then old(aggregatesSet)[id] else Unmark(old(aggregatesSet), uploadID)[id]
        decreases todo
      {
        var id :| id in todo;
        todo := todo - {id};
        var agg := aggregatesSet[id];
        if agg.uploadID == uploadID {
          aggregatesSet := aggregatesSet[id := agg.(uploadID := 0)];
        }
      }
    }
  }

  lemma ListsMembers(r: seq<Aggregate>, rows: Rows, ids: set<nat>)
    requires Lists(r, rows, ids) && Keyed(rows) && ids <= rows.Keys
    ensures forall a :: a in r <==> a.id in ids && rows[a.id] == a
  {
    forall a
      ensures a in r <==> a.id in ids && rows[a.id] == a
    {
      if a in r {
        assert Listed(r, a.id);
      }
      if a.id in ids && rows[a.id] == a {
        assert Listed(r, a.id);
        var b :| b in r && b.id == a.id;
      }
    }
  }

  ghost function StoredSince(rows: Rows, instanceIDs: seq<string>, from: Time): set<nat> {
    set id | id in rows && rows[id].instanceID in instanceIDs && rows[id].bucketStart >= from
  }

  /** The rows of an instance and a period that belong to no upload. */
  ghost function ToUpload(rows: Rows, instanceID: string, from: Time, through: Time): set<nat> {
    set id | id in rows && rows[id].instanceID == instanceID && from <= rows[id].bucketStart < through
             && rows[id].uploadID == 0
  }
}
