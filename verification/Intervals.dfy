/** Cutting a time range at the starts of billing cycles. */
module Intervals {
  import opened Wrappers
  import opened Calendar

  datatype Interval = Interval(from: Time, to: Time)

  predicate Within(iv: Interval, t: Time) { InTimeRange(iv.from, iv.to, t) }

  /** `ivs` are non-empty pieces that follow one another from `from` up to `to`. */
  predicate Tiles(ivs: seq<Interval>, from: Time, to: Time) {
    && |ivs| > 0
    && ivs[0].from == from
    && ivs[|ivs| - 1].to == to
    && (forall i :: 0 <= i < |ivs| ==> ivs[i].from < ivs[i].to)
    && (forall i :: 0 <= i < |ivs| - 1 ==> ivs[i].to == ivs[i + 1].from)
  }

  /** Each piece ends at the first cycle start after its beginning, or at the end of the range. */
  predicate CutAtCycles(ivs: seq<Interval>, to: Time, cycleDay: int) {
    forall i :: 0 <= i < |ivs| ==> ivs[i].to == MinTime(NextCycleStart(ivs[i].from, cycleDay), to)
  }

  method MonthlyIntervalsWithinRange(from: Time, to: Time, cycleDay: int) returns (r: Result<seq<Interval>>)
    ensures r.Success? <==> from < to && ValidCycleDay(cycleDay)
    ensures r.Success? ==> Tiles(r.value, from, to) && CutAtCycles(r.value, to, cycleDay)
  {
    hide NextCycleStart, CycleStart;
    if !(from < to) {
      return Failure("from must be lower than to");
    }
    if cycleDay < 1 || cycleDay > 31 {
      return Failure("day must be within [1, 31]");
    }
    var intervals: seq<Interval> := [];
    var begin := from;
    while begin < to
      invariant from <= begin <= to
      invariant intervals == [] <==> begin == from
      invariant intervals != [] ==> Tiles(intervals, from, begin)
      invariant CutAtCycles(intervals, to, cycleDay)
    {
      NextCycleStartIsLeast(begin, cycleDay);
      var end := MinTime(NextCycleStart(begin, cycleDay), to);
      intervals := intervals + [Interval(begin, end)];
      begin := end;
    }
    return Success(intervals);
  }

  // ---------------------------------------------------------------- what the pieces mean

  lemma {:induction false} TilesAreOrdered(ivs: seq<Interval>, from: Time, to: Time, i: nat, j: nat)
    requires Tiles(ivs, from, to)
    requires i < j < |ivs|
    ensures ivs[i].to <= ivs[j].from
    decreases j - i
  {
    if i + 1 < j {
      TilesAreOrdered(ivs, from, to, i + 1, j);
    }
  }

  /** Every instant of the range lies in exactly one piece, and no instant outside it in any. */
  lemma TilesPartitionRange(ivs: seq<Interval>, from: Time, to: Time, t: Time)
    requires Tiles(ivs, from, to)
    ensures from <= t < to <==> exists i :: 0 <= i < |ivs| && Within(ivs[i], t)
    ensures forall i, j :: 0 <= i < |ivs| && 0 <= j < |ivs| && Within(ivs[i], t) && Within(ivs[j], t) ==> i == j
  {
    var n := |ivs| - 1;
    forall i, j | 0 <= i < j < |ivs|
      ensures ivs[i].to <= ivs[j].from
    {
      TilesAreOrdered(ivs, from, to, i, j);
    }
    if from <= t < to {
      var k := 0;
      while ivs[k].to <= t
        invariant 0 <= k < |ivs| && ivs[k].from <= t
        decreases |ivs| - k
      {
        k := k + 1;
      }
      assert Within(ivs[k], t);
    }
  }

  /** No cycle begins strictly inside a piece, so all its instants belong to one cycle;
      and every cut between two pieces is a cycle start. */
  lemma PiecesAreCycles(ivs: seq<Interval>, from: Time, to: Time, cycleDay: int, i: nat)
    requires ValidCycleDay(cycleDay)
    requires Tiles(ivs, from, to) && CutAtCycles(ivs, to, cycleDay)
    requires i < |ivs|
    ensures forall month :: !(ivs[i].from < CycleStart(month, cycleDay) < ivs[i].to)
    ensures forall t :: Within(ivs[i], t) ==> NextCycleStart(t, cycleDay) == NextCycleStart(ivs[i].from, cycleDay)
    ensures i + 1 < |ivs| ==> exists month :: ivs[i].to == CycleStart(month, cycleDay)
  {
    hide NextCycleStart, CycleStart;
    NextCycleStartIsLeast(ivs[i].from, cycleDay);
    forall t | Within(ivs[i], t)
      ensures NextCycleStart(t, cycleDay) == NextCycleStart(ivs[i].from, cycleDay)
    {
      SameCycle(ivs[i].from, t, cycleDay);
    }
    if i + 1 < |ivs| {
      TilesAreOrdered(ivs, from, to, i, i + 1);
      if i + 1 < |ivs| - 1 {
        TilesAreOrdered(ivs, from, to, i + 1, |ivs| - 1);
      }
      assert ivs[i].to < to;
      var next := NextCycleMonth(ivs[i].from, cycleDay);
      NextCycleStartIsCycleStart(ivs[i].from, cycleDay);
      assert ivs[i].to == CycleStart(next, cycleDay);
    }
  }
}
