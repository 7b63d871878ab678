/** The Zuora usage report: usage summed by amount type and billing interval. */
module Report {
  import opened Wrappers
  import opened Calendar
  import opened Intervals
  import opened Aggregates
  import opened FiniteSums

  datatype GroupKey = GroupKey(amountType: string, bucketTime: Time)

  datatype Line = Line(
    accountID: string,
    unitType: string,
    quantity: int,
    from: Time,
    to: Time,
    subscriptionID: string,
    chargeID: string)

  /** The instant that stands for an aggregate's billing interval: the last one of its cycle,
      but never at or after `through`. */
  function BucketTime(agg: Aggregate, through: Time, cycleDay: int): Time {
    MinTime(EndOfCycle(agg.bucketStart, cycleDay), JustBefore(through))
  }

  function KeyOf(agg: Aggregate, through: Time, cycleDay: int): GroupKey {
    GroupKey(agg.amountType, BucketTime(agg, through, cycleDay))
  }

  // ---------------------------------------------------------------- what a report should say

  /** The aggregates of one amount type, placed by their bucket start, in one interval. */
  predicate Belongs(agg: Aggregate, unitType: string, iv: Interval) {
    agg.amountType == unitType && Within(iv, agg.bucketStart)
  }

  function UsageIn(aggs: seq<Aggregate>, unitType: string, iv: Interval): int {
    if aggs == [] then 0
    else
      UsageIn(aggs[..|aggs| - 1], unitType, iv)
      + (var a := aggs[|aggs| - 1]; if Belongs(a, unitType, iv) then a.amountValue else 0)
  }

  function TotalUsage(aggs: seq<Aggregate>): int {
    if aggs == [] then 0 else TotalUsage(aggs[..|aggs| - 1]) + aggs[|aggs| - 1].amountValue
  }

  function TotalQuantity(lines: seq<Line>): int {
    if lines == [] then 0 else TotalQuantity(lines[..|lines| - 1]) + lines[|lines| - 1].quantity
  }

  predicate LineIsFor(l: Line, unitType: string, iv: Interval) {
    l.unitType == unitType && l.from == iv.from && l.to == iv.to
  }

  /** Exactly one line for each (amount type, interval) that has usage, carrying exactly the
      sum of the aggregates that fall in it, and no line for anything else. */
  ghost predicate Accounts(lines: seq<Line>, aggs: seq<Aggregate>, ivs: seq<Interval>) {
    && (forall i :: 0 <= i < |lines| ==> Justified(lines[i], aggs, ivs))
    && (forall a, iv :: a in aggs && iv in ivs && Within(iv, a.bucketStart)
          ==> exists i :: 0 <= i < |lines| && LineIsFor(lines[i], a.amountType, iv))
    && (forall i, j :: 0 <= i < j < |lines| ==>
          lines[i].unitType != lines[j].unitType || lines[i].from != lines[j].from)
  }

  ghost predicate Justified(l: Line, aggs: seq<Aggregate>, ivs: seq<Interval>) {
    exists iv :: iv in ivs && LineIsFor(l, l.unitType, iv)
                 && l.quantity == UsageIn(aggs, l.unitType, iv)
                 && exists a :: a in aggs && Belongs(a, l.unitType, iv)
  }

  predicate AllInRange(aggs: seq<Aggregate>, from: Time, through: Time) {
    forall a :: a in aggs ==> from <= a.bucketStart < through
  }

  // ---------------------------------------------------------------- grouping

  function KeySum(aggs: seq<Aggregate>, key: GroupKey, through: Time, cycleDay: int): int {
    if aggs == [] then 0
    else
      KeySum(aggs[..|aggs| - 1], key, through, cycleDay)
      + (var a := aggs[|aggs| - 1]; if KeyOf(a, through, cycleDay) == key then a.amountValue else 0)
  }

  ghost predicate Grouped(sums: map<GroupKey, int>, aggs: seq<Aggregate>, through: Time, cycleDay: int) {
    && (forall a :: a in aggs ==> KeyOf(a, through, cycleDay) in sums)
    && (forall k :: k in sums ==> exists a :: a in aggs && KeyOf(a, through, cycleDay) == k)
    && (forall k :: k in sums ==> sums[k] == KeySum(aggs, k, through, cycleDay))
    && SumMap(sums) == TotalUsage(aggs)
  }

  lemma {:induction false} NoKeyNoSum(aggs: seq<Aggregate>, key: GroupKey, through: Time, cycleDay: int)
    requires forall a :: a in aggs ==> KeyOf(a, through, cycleDay) != key
    ensures KeySum(aggs, key, through, cycleDay) == 0
  {
    if aggs != [] {
      assert aggs[|aggs| - 1] in aggs;
      NoKeyNoSum(aggs[..|aggs| - 1], key, through, cycleDay);
    }
  }

  function AddTo(sums: map<GroupKey, int>, key: GroupKey, amount: int): map<GroupKey, int> {
    sums[key := (if key in sums then sums[key] else 0) + amount]
  }

  lemma GroupedStepKeys(sums: map<GroupKey, int>, aggs: seq<Aggregate>, agg: Aggregate, through: Time, cycleDay: int)
    requires Grouped(sums, aggs, through, cycleDay)
    ensures var next := AddTo(sums, KeyOf(agg, through, cycleDay), agg.amountValue);
            forall k :: k in next ==> exists a :: a in aggs + [agg] && KeyOf(a, through, cycleDay) == k
  { }

  lemma GroupedStepSum(
      sums: map<GroupKey, int>, aggs: seq<Aggregate>, agg: Aggregate, through: Time, cycleDay: int, k: GroupKey)
    requires Grouped(sums, aggs, through, cycleDay)
    requires k in AddTo(sums, KeyOf(agg, through, cycleDay), agg.amountValue)
    ensures AddTo(sums, KeyOf(agg, through, cycleDay), agg.amountValue)[k] == KeySum(aggs + [agg], k, through, cycleDay)
  {
    hide KeyOf;
    assert (aggs + [agg])[..|aggs|] == aggs;
    if k !in sums {
      NoKeyNoSum(aggs, k, through, cycleDay);
    }
  }

  lemma GroupedStep(sums: map<GroupKey, int>, aggs: seq<Aggregate>, agg: Aggregate, through: Time, cycleDay: int)
    requires Grouped(sums, aggs, through, cycleDay)
    ensures Grouped(AddTo(sums, KeyOf(agg, through, cycleDay), agg.amountValue), aggs + [agg], through, cycleDay)
  {
    hide KeyOf, KeySum;
    var key := KeyOf(agg, through, cycleDay);
    var next := AddTo(sums, key, agg.amountValue);
    GroupedStepKeys(sums, aggs, agg, through, cycleDay);
    forall k | k in next
      ensures next[k] == KeySum(aggs + [agg], k, through, cycleDay)
    {
      GroupedStepSum(sums, aggs, agg, through, cycleDay, k);
    }
    SumMapUpdate(sums, key, next[key]);
    assert (aggs + [agg])[..|aggs|] == aggs;
  }

  method GroupSums(aggs: seq<Aggregate>, through: Time, cycleDay: int) returns (sums: map<GroupKey, int>)
    ensures Grouped(sums, aggs, through, cycleDay)
  {
    hide KeyOf, AddTo, KeySum;
    sums := map[];
    for i := 0 to |aggs|
      invariant Grouped(sums, aggs[..i], through, cycleDay)
    {
      var key := KeyOf(aggs[i], through, cycleDay);
      GroupedStep(sums, aggs[..i], aggs[i], through, cycleDay);
      assert aggs[..i] + [aggs[i]] == aggs[..i + 1];
      sums := AddTo(sums, key, aggs[i].amountValue);
    }
    assert aggs[..|aggs|] == aggs;
  }

  // ---------------------------------------------------------------- keys against intervals

  /** Bucket times fall in a piece only at its very last instant. */
  lemma BucketTimeEndsPiece(agg: Aggregate, ivs: seq<Interval>, i: nat, from: Time, through: Time, cycleDay: int)
    requires ValidCycleDay(cycleDay)
    requires Tiles(ivs, from, through) && CutAtCycles(ivs, through, cycleDay)
    requires i < |ivs|
    requires Within(ivs[i], BucketTime(agg, through, cycleDay))
    ensures BucketTime(agg, through, cycleDay) == ivs[i].to - 1
  {
    hide NextCycleStart, CycleStart;
    var b := BucketTime(agg, through, cycleDay);
    NextCycleStartIsLeast(agg.bucketStart, cycleDay);
    var month :| NextCycleStart(agg.bucketStart, cycleDay) == CycleStart(month, cycleDay);
    NextCycleStartIsLeast(ivs[i].from, cycleDay);
  }

  /** An aggregate inside the range is reported for the piece that holds its bucket start. */
  lemma InRangeBucketTime(agg: Aggregate, ivs: seq<Interval>, i: nat, from: Time, through: Time, cycleDay: int)
    requires ValidCycleDay(cycleDay)
    requires Tiles(ivs, from, through) && CutAtCycles(ivs, through, cycleDay)
    requires i < |ivs|
    requires from <= agg.bucketStart < through
    ensures Within(ivs[i], agg.bucketStart) <==> BucketTime(agg, through, cycleDay) == ivs[i].to - 1
  {
    hide NextCycleStart, CycleStart;
    TilesPartitionRange(ivs, from, through, agg.bucketStart);
    var j :| 0 <= j < |ivs| && Within(ivs[j], agg.bucketStart);
    SameCycle(ivs[j].from, agg.bucketStart, cycleDay);
    assert BucketTime(agg, through, cycleDay) == ivs[j].to - 1;
    if i < j {
      TilesAreOrdered(ivs, from, through, i, j);
    } else if j < i {
      TilesAreOrdered(ivs, from, through, j, i);
    }
  }

  /** The "should never log" branch: a bucket time misses every interval exactly when the
      aggregate's cycle is over by `from`. */
  lemma DroppedExactlyWhenStale(agg: Aggregate, ivs: seq<Interval>, from: Time, through: Time, cycleDay: int)
    requires ValidCycleDay(cycleDay)
    requires Tiles(ivs, from, through) && CutAtCycles(ivs, through, cycleDay)
    ensures (forall iv :: iv in ivs ==> !Within(iv, BucketTime(agg, through, cycleDay)))
            <==> NextCycleStart(agg.bucketStart, cycleDay) <= from
  {
    hide NextCycleStart;
    var b := BucketTime(agg, through, cycleDay);
    TilesPartitionRange(ivs, from, through, b);
    RangeIsProper(ivs, from, through);
    if from <= b {
      var i :| 0 <= i < |ivs| && Within(ivs[i], b);
      assert ivs[i] in ivs;
    } else {
      assert forall i :: 0 <= i < |ivs| ==> !Within(ivs[i], b);
    }
  }

  lemma RangeIsProper(ivs: seq<Interval>, from: Time, to: Time)
    requires Tiles(ivs, from, to)
    ensures from < to
  {
    if |ivs| > 1 {
      TilesAreOrdered(ivs, from, to, 0, |ivs| - 1);
    }
  }

  lemma {:induction false} KeySumIsUsage(
      aggs: seq<Aggregate>, unitType: string, ivs: seq<Interval>, i: nat, from: Time, through: Time, cycleDay: int)
    requires ValidCycleDay(cycleDay)
    requires Tiles(ivs, from, through) && CutAtCycles(ivs, through, cycleDay)
    requires i < |ivs|
    requires AllInRange(aggs, from, through)
    ensures KeySum(aggs, GroupKey(unitType, ivs[i].to - 1), through, cycleDay) == UsageIn(aggs, unitType, ivs[i])
  {
    hide BucketTime;
    if aggs != [] {
      var a := aggs[|aggs| - 1];
      assert a in aggs;
      assert AllInRange(aggs[..|aggs| - 1], from, through);
      KeySumIsUsage(aggs[..|aggs| - 1], unitType, ivs, i, from, through, cycleDay);
      InRangeBucketTime(a, ivs, i, from, through, cycleDay);
    }
  }

  // ---------------------------------------------------------------- the report

  /** The lines already written stand, one each, for the keys in `used`. */
  ghost predicate LinesForKeys(lines: seq<Line>, used: seq<GroupKey>, sums: map<GroupKey, int>, ivs: seq<Interval>) {
    && |lines| == |used|
    && (forall i :: 0 <= i < |lines| ==>
          used[i] in sums && lines[i].unitType == used[i].amountType && lines[i].quantity == sums[used[i]])
    && (forall i :: 0 <= i < |lines| ==>
          && Interval(lines[i].from, lines[i].to) in ivs
          && Within(Interval(lines[i].from, lines[i].to), used[i].bucketTime))
    && (forall i, j :: 0 <= i < j < |used| ==> used[i] != used[j])
  }

  /** Midway through the groups: `rest` is still to come, `used` has its lines, `dropped` got none. */
  ghost predicate Partway(
      aggs: seq<Aggregate>, sums: map<GroupKey, int>, rest: map<GroupKey, int>, used: seq<GroupKey>,
      lines: seq<Line>, dropped: map<GroupKey, int>, ivs: seq<Interval>)
  {
    && LinesForKeys(lines, used, sums, ivs)
    && (forall k :: k in rest ==> k in sums && rest[k] == sums[k] && k !in used && k !in dropped)
    && (forall k :: k in sums <==> k in rest || k in used || k in dropped)
    && (forall k :: k in dropped ==> Missed(k, ivs))
    && TotalQuantity(lines) + SumMap(dropped) + SumMap(rest) == TotalUsage(aggs)
  }

  ghost predicate Missed(k: GroupKey, ivs: seq<Interval>) {
    forall iv :: iv in ivs ==> !Within(iv, k.bucketTime)
  }

  lemma PartwayAtStart(aggs: seq<Aggregate>, sums: map<GroupKey, int>, ivs: seq<Interval>, through: Time, cycleDay: int)
    requires Grouped(sums, aggs, through, cycleDay)
    ensures Partway(aggs, sums, sums, [], [], map[], ivs)
  {
    hide KeyOf, KeySum, SumMap;
    SumMapEmpty<GroupKey>(map[]);
  }

  lemma StepReported(
      aggs: seq<Aggregate>, sums: map<GroupKey, int>, rest: map<GroupKey, int>, used: seq<GroupKey>,
      lines: seq<Line>, dropped: map<GroupKey, int>, ivs: seq<Interval>, key: GroupKey, line: Line)
    requires Partway(aggs, sums, rest, used, lines, dropped, ivs)
    requires key in rest
    requires line.unitType == key.amountType && line.quantity == rest[key]
    requires Interval(line.from, line.to) in ivs && Within(Interval(line.from, line.to), key.bucketTime)
    ensures Partway(aggs, sums, rest - {key}, used + [key], lines + [line], dropped, ivs)
  {
    hide Missed, SumMap, LinesForKeys;
    SumMapRemove(rest, key);
    KeyedLine(lines, used, sums, ivs, key, line);
    assert (lines + [line])[..|lines|] == lines;
    assert forall k :: k in used + [key] <==> k in used || k == key;
  }

  lemma KeyedLine(
      lines: seq<Line>, used: seq<GroupKey>, sums: map<GroupKey, int>, ivs: seq<Interval>, key: GroupKey, line: Line)
    requires LinesForKeys(lines, used, sums, ivs) && key in sums && key !in used
    requires line.unitType == key.amountType && line.quantity == sums[key]
    requires Interval(line.from, line.to) in ivs && Within(Interval(line.from, line.to), key.bucketTime)
    ensures LinesForKeys(lines + [line], used + [key], sums, ivs)
  { }

  lemma StepDropped(
      aggs: seq<Aggregate>, sums: map<GroupKey, int>, rest: map<GroupKey, int>, used: seq<GroupKey>,
      lines: seq<Line>, dropped: map<GroupKey, int>, ivs: seq<Interval>, key: GroupKey)
    requires Partway(aggs, sums, rest, used, lines, dropped, ivs)
    requires key in rest && Missed(key, ivs)
    ensures Partway(aggs, sums, rest - {key}, used, lines, dropped[key := rest[key]], ivs)
  {
    SumMapRemove(rest, key);
    SumMapUpdate(dropped, key, rest[key]);
  }

  method FindInterval(ivs: seq<Interval>, t: Time) returns (found: Option<Interval>)
    ensures found.None? ==> forall iv :: iv in ivs ==> !Within(iv, t)
    ensures found.Some? ==> found.value in ivs && Within(found.value, t)
  {
    for i := 0 to |ivs|
      invariant forall j :: 0 <= j < i ==> !Within(ivs[j], t)
    {
      if InTimeRange(ivs[i].from, ivs[i].to, t) {
        return Some(ivs[i]);
      }
    }
    return None;
  }

  /** `dropped` are the groups the code logs an error for instead of reporting them. */
  method ReportFromAggregates(
      aggs: seq<Aggregate>, paymentProviderID: string, from: Time, through: Time,
      subscriptionNumber: string, chargeNumber: string, cycleDay: int)
    returns (r: Result<seq<Line>>, dropped: map<GroupKey, int>, ghost ivs: seq<Interval>)
    ensures r.Success? <==> from < through && ValidCycleDay(cycleDay)
    ensures r.Success? ==> Tiles(ivs, from, through) && CutAtCycles(ivs, through, cycleDay)
    // Nothing is lost or counted twice, whatever the aggregates are.
    ensures r.Success? ==> TotalQuantity(r.value) + SumMap(dropped) == TotalUsage(aggs)
    // A group is dropped exactly when its cycle was over before the range began.
    ensures r.Success? ==> forall a :: a in aggs ==>
      (KeyOf(a, through, cycleDay) in dropped <==> NextCycleStart(a.bucketStart, cycleDay) <= from)
    ensures r.Success? ==>
      (dropped != map[] <==> exists a :: a in aggs && NextCycleStart(a.bucketStart, cycleDay) <= from)
    // Usage inside the range is all reported, each line for one type and one interval.
    ensures r.Success? && AllInRange(aggs, from, through) ==> dropped == map[] && Accounts(r.value, aggs, ivs)
    ensures r.Success? ==> forall l :: l in r.value ==>
      l.accountID == paymentProviderID && l.subscriptionID == subscriptionNumber && l.chargeID == chargeNumber
  {
    hide NextCycleStart, KeyOf, Grouped;
    var sums := GroupSums(aggs, through, cycleDay);
    var intervals := MonthlyIntervalsWithinRange(from, through, cycleDay);
    dropped := map[];
    ivs := [];
    if intervals.Failure? {
      return Failure(intervals.error), dropped, ivs;
    }
    ivs := intervals.value;

    var entries: seq<Line> := [];
    ghost var used: seq<GroupKey> := [];
    var rest := sums;
    PartwayAtStart(aggs, sums, ivs, through, cycleDay);
    while rest != map[]
      invariant Partway(aggs, sums, rest, used, entries, dropped, intervals.value)
      invariant forall l :: l in entries ==>
        l.accountID == paymentProviderID && l.subscriptionID == subscriptionNumber && l.chargeID == chargeNumber
      decreases |rest|
    {
      hide Partway;
      var key :| key in rest;
      var found := FindInterval(intervals.value, key.bucketTime);
      match found {
        case Some(iv) =>
          var line := Line(
            paymentProviderID, key.amountType, rest[key], iv.from, iv.to, subscriptionNumber, chargeNumber);
          StepReported(aggs, sums, rest, used, entries, dropped, intervals.value, key, line);
          entries := entries + [line];
          used := used + [key];
        case None =>
          StepDropped(aggs, sums, rest, used, entries, dropped, intervals.value, key);
          dropped := dropped[key := rest[key]];
      }
      rest := rest - {key};
    }
    DroppedMeaning(aggs, sums, used, entries, dropped, ivs, from, through, cycleDay);
    if AllInRange(aggs, from, through) {
      ReportAccounts(aggs, sums, used, entries, dropped, ivs, from, through, cycleDay);
    }
    r := Success(entries);
  }

  lemma DroppedMeaning(
      aggs: seq<Aggregate>, sums: map<GroupKey, int>, used: seq<GroupKey>, lines: seq<Line>,
      dropped: map<GroupKey, int>, ivs: seq<Interval>, from: Time, through: Time, cycleDay: int)
    requires ValidCycleDay(cycleDay)
    requires Tiles(ivs, from, through) && CutAtCycles(ivs, through, cycleDay)
    requires Grouped(sums, aggs, through, cycleDay)
    requires LinesForKeys(lines, used, sums, ivs)
    requires forall k :: k in sums <==> k in used || k in dropped
    requires forall k :: k in dropped ==> Missed(k, ivs)
    ensures forall a :: a in aggs ==>
      (KeyOf(a, through, cycleDay) in dropped <==> NextCycleStart(a.bucketStart, cycleDay) <= from)
    ensures dropped != map[] <==> exists a :: a in aggs && NextCycleStart(a.bucketStart, cycleDay) <= from
  {
    hide NextCycleStart, BucketTime;
    forall a | a in aggs
      ensures NextCycleStart(a.bucketStart, cycleDay) <= from <==> KeyOf(a, through, cycleDay) in dropped
    {
      DroppedExactlyWhenStale(a, ivs, from, through, cycleDay);
      var k := KeyOf(a, through, cycleDay);
      assert k in sums;
      if k in used {
        var i :| 0 <= i < |used| && used[i] == k;
        assert Interval(lines[i].from, lines[i].to) in ivs;
      }
    }
    if dropped != map[] {
      var k :| k in dropped;
      var a :| a in aggs && KeyOf(a, through, cycleDay) == k;
    }
  }

  lemma ReportAccounts(
      aggs: seq<Aggregate>, sums: map<GroupKey, int>, used: seq<GroupKey>, lines: seq<Line>,
      dropped: map<GroupKey, int>, ivs: seq<Interval>, from: Time, through: Time, cycleDay: int)
    requires ValidCycleDay(cycleDay)
    requires Tiles(ivs, from, through) && CutAtCycles(ivs, through, cycleDay)
    requires Grouped(sums, aggs, through, cycleDay)
    requires LinesForKeys(lines, used, sums, ivs)
    requires forall k :: k in sums <==> k in used || k in dropped
    requires forall k :: k in dropped ==> Missed(k, ivs)
    requires AllInRange(aggs, from, through)
    ensures dropped == map[]
    ensures Accounts(lines, aggs, ivs)
  {
    hide NextCycleStart, BucketTime, Grouped, Tiles, CutAtCycles, LinesForKeys, Justified;
    forall a | a in aggs
      ensures from < NextCycleStart(a.bucketStart, cycleDay)
    {
      NextCycleStartIsLeast(a.bucketStart, cycleDay);
    }
    DroppedMeaning(aggs, sums, used, lines, dropped, ivs, from, through, cycleDay);
    forall n | 0 <= n < |lines|
      ensures Justified(lines[n], aggs, ivs)
    {
      LineIsJustified(aggs, sums, used, lines, n, ivs, from, through, cycleDay);
    }
    forall a, iv | a in aggs && iv in ivs && Within(iv, a.bucketStart)
      ensures exists n :: 0 <= n < |lines| && LineIsFor(lines[n], a.amountType, iv)
    {
      UsageHasLine(aggs, sums, used, lines, a, iv, ivs, from, through, cycleDay);
    }
    forall i, j | 0 <= i < j < |lines|
      ensures lines[i].unitType != lines[j].unitType || lines[i].from != lines[j].from
    {
      NoTwinLines(aggs, sums, used, lines, i, j, ivs, from, through, cycleDay);
    }
  }

  lemma NoTwinLines(
      aggs: seq<Aggregate>, sums: map<GroupKey, int>, used: seq<GroupKey>, lines: seq<Line>, i: nat, j: nat,
      ivs: seq<Interval>, from: Time, through: Time, cycleDay: int)
    requires ValidCycleDay(cycleDay)
    requires Tiles(ivs, from, through) && CutAtCycles(ivs, through, cycleDay)
    requires Grouped(sums, aggs, through, cycleDay)
    requires LinesForKeys(lines, used, sums, ivs)
    requires AllInRange(aggs, from, through)
    requires i < j < |lines|
    ensures lines[i].unitType != lines[j].unitType || lines[i].from != lines[j].from
  {
    hide NextCycleStart, BucketTime, Grouped, Tiles, CutAtCycles, Justified;
    LineIsJustified(aggs, sums, used, lines, i, ivs, from, through, cycleDay);
    LineIsJustified(aggs, sums, used, lines, j, ivs, from, through, cycleDay);
    var p, q := Interval(lines[i].from, lines[i].to), Interval(lines[j].from, lines[j].to);
    if p.from == q.from {
      SameStartSamePiece(ivs, p, q, from, through);
      assert used[i] != used[j];
    }
  }

  lemma SameStartSamePiece(ivs: seq<Interval>, p: Interval, q: Interval, from: Time, to: Time)
    requires Tiles(ivs, from, to) && p in ivs && q in ivs && p.from == q.from
    ensures p == q
  {
    TilesPartitionRange(ivs, from, to, p.from);
    var i :| 0 <= i < |ivs| && ivs[i] == p;
    var j :| 0 <= j < |ivs| && ivs[j] == q;
    assert Within(ivs[i], p.from) && Within(ivs[j], p.from);
  }

  lemma LineIsJustified(
      aggs: seq<Aggregate>, sums: map<GroupKey, int>, used: seq<GroupKey>, lines: seq<Line>, n: nat,
      ivs: seq<Interval>, from: Time, through: Time, cycleDay: int)
    requires ValidCycleDay(cycleDay)
    requires Tiles(ivs, from, through) && CutAtCycles(ivs, through, cycleDay)
    requires Grouped(sums, aggs, through, cycleDay)
    requires LinesForKeys(lines, used, sums, ivs)
    requires AllInRange(aggs, from, through)
    requires n < |lines|
    ensures used[n].bucketTime == lines[n].to - 1
    ensures Justified(lines[n], aggs, ivs)
  {
    hide NextCycleStart, BucketTime;
    var l, k := lines[n], used[n];
    var iv := Interval(l.from, l.to);
    var i :| 0 <= i < |ivs| && ivs[i] == iv;
    var a :| a in aggs && KeyOf(a, through, cycleDay) == k;
    BucketTimeEndsPiece(a, ivs, i, from, through, cycleDay);
    KeySumIsUsage(aggs, l.unitType, ivs, i, from, through, cycleDay);
    InRangeBucketTime(a, ivs, i, from, through, cycleDay);
    assert Belongs(a, l.unitType, iv);
    assert LineIsFor(l, l.unitType, iv);
  }

  lemma UsageHasLine(
      aggs: seq<Aggregate>, sums: map<GroupKey, int>, used: seq<GroupKey>, lines: seq<Line>, a: Aggregate, iv: Interval,
      ivs: seq<Interval>, from: Time, through: Time, cycleDay: int)
    requires ValidCycleDay(cycleDay)
    requires Tiles(ivs, from, through) && CutAtCycles(ivs, through, cycleDay)
    requires Grouped(sums, aggs, through, cycleDay)
    requires LinesForKeys(lines, used, sums, ivs)
    requires AllInRange(aggs, from, through)
    requires forall k :: k in sums ==> k in used
    requires a in aggs && iv in ivs && Within(iv, a.bucketStart)
    ensures exists n :: 0 <= n < |lines| && LineIsFor(lines[n], a.amountType, iv)
  {
    hide NextCycleStart, BucketTime;
    var k := KeyOf(a, through, cycleDay);
    assert k in sums;
    var n :| 0 <= n < |used| && used[n] == k;
    var i :| 0 <= i < |ivs| && ivs[i] == iv;
    InRangeBucketTime(a, ivs, i, from, through, cycleDay);
    var p := Interval(lines[n].from, lines[n].to);
    var j :| 0 <= j < |ivs| && ivs[j] == p;
    BucketTimeEndsPiece(a, ivs, j, from, through, cycleDay);
    TilesPartitionRange(ivs, from, through, k.bucketTime);
    assert Within(ivs[i], k.bucketTime) && Within(ivs[j], k.bucketTime);
    assert LineIsFor(lines[n], a.amountType, iv);
  }
}
