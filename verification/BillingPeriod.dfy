/** The billing period shown to a customer (billing-api), against the cycle calendar. */
module BillingPeriod {
  import opened Calendar
  import opened Intervals

  function MonthBillDate(billCycleDay: int, month: int): Time {
    var daysInMonth := DaysIn(month);
    var billDay := if daysInMonth < billCycleDay then daysInMonth else billCycleDay;
    Date(month, billDay)
  }

  /** The cycle around `reference`, before creation and trial are taken into account. */
  function UntrimmedPeriod(billCycleDay: int, reference: Time): Interval {
    var today := TruncateToDay(reference);
    var billDateThisMonth := MonthBillDate(billCycleDay, MonthIndex(today));
    if billDateThisMonth > today then
      Interval(MonthBillDate(billCycleDay, MonthIndex(today) - 1), billDateThisMonth)
    else
      Interval(billDateThisMonth, MonthBillDate(billCycleDay, MonthIndex(today) + 1))
  }

  function ComputeBillingPeriod(billCycleDay: int, createdAt: Time, trialEnd: Time, reference: Time): Interval {
    var p := UntrimmedPeriod(billCycleDay, reference);
    var trialEndDay := TruncateToDay(trialEnd);
    if p.from < createdAt then
      Interval(TruncateToDay(createdAt), p.to)
    else if p.from < trialEnd && p.to > trialEnd then
      if reference < trialEndDay then Interval(p.from, trialEndDay) else Interval(trialEndDay, p.to)
    else
      p
  }

  lemma MonthBillDateIsCycleStart(billCycleDay: int, month: int)
    ensures MonthBillDate(billCycleDay, month) == CycleStart(month, billCycleDay)
  {
    DaysInIsMonthLength(month);
  }

  /** A midnight is compared with an instant as with the midnight before that instant. */
  lemma MidnightVersusInstant(midnight: Time, t: Time)
    requires midnight % NS_PER_DAY == 0
    ensures TruncateToDay(t) <= t
    ensures midnight <= t <==> midnight <= TruncateToDay(t)
    ensures DayNumber(TruncateToDay(t)) == DayNumber(t)
  { }

  lemma CycleStartIsMidnight(month: int, cycleDay: int)
    ensures CycleStart(month, cycleDay) % NS_PER_DAY == 0
  { }

  /** The cycle that begins in the previous month, when this month's has not begun yet. */
  function CycleMonth(reference: Time, cycleDay: int): int {
    NextCycleMonth(reference, cycleDay) - 1
  }

  lemma CycleMonthBegan(reference: Time, cycleDay: int)
    requires ValidCycleDay(cycleDay)
    ensures CycleStart(CycleMonth(reference, cycleDay), cycleDay) <= reference
  {
    MonthStartStep(MonthIndex(reference) - 1);
  }

  lemma UntrimmedByMonth(billCycleDay: int, reference: Time)
    ensures var m := CycleMonth(reference, billCycleDay);
            UntrimmedPeriod(billCycleDay, reference)
            == Interval(CycleStart(m, billCycleDay), CycleStart(m + 1, billCycleDay))
  {
    hide CycleStart, MonthBillDate;
    var m := MonthIndex(reference);
    CycleStartIsMidnight(m, billCycleDay);
    MidnightVersusInstant(CycleStart(m, billCycleDay), reference);
    MonthBillDateIsCycleStart(billCycleDay, m);
    MonthBillDateIsCycleStart(billCycleDay, m - 1);
    MonthBillDateIsCycleStart(billCycleDay, m + 1);
  }

  /** The untrimmed period is one whole cycle: it runs from one cycle start to the very next. */
  lemma UntrimmedIsOneCycle(billCycleDay: int, reference: Time)
    requires ValidCycleDay(billCycleDay)
    ensures var p := UntrimmedPeriod(billCycleDay, reference);
            && Within(p, reference)
            && p.to == NextCycleStart(reference, billCycleDay)
            && p.to == NextCycleStart(p.from, billCycleDay)
            && p.from % NS_PER_DAY == 0
  {
    hide CycleStart, MonthBillDate, NextCycleStart, NextCycleMonth, UntrimmedPeriod;
    UntrimmedByMonth(billCycleDay, reference);
    CycleMonthBegan(reference, billCycleDay);
    NextCycleIsAhead(reference, billCycleDay);
    NextCycleStartIsCycleStart(reference, billCycleDay);
    CycleStartIsMidnight(CycleMonth(reference, billCycleDay), billCycleDay);
    var p := UntrimmedPeriod(billCycleDay, reference);
    NextCycleStartIsLeast(p.from, billCycleDay);
    var first := NextCycleMonth(p.from, billCycleDay);
    NextCycleIsAhead(p.from, billCycleDay);
    NextCycleStartIsCycleStart(p.from, billCycleDay);
    NoCycleStartBetween(p.from, billCycleDay, CycleMonth(reference, billCycleDay) + 1);
    ConsecutiveMonths(CycleMonth(reference, billCycleDay), first, billCycleDay);
  }

  lemma ConsecutiveMonths(month: int, next: int, cycleDay: int)
    requires ValidCycleDay(cycleDay)
    requires CycleStart(month, cycleDay) < CycleStart(next, cycleDay) <= CycleStart(month + 1, cycleDay)
    ensures next == month + 1
  {
    if next < month {
      CycleStartMonotone(next, month, cycleDay);
    } else if month + 1 < next {
      CycleStartMonotone(month + 1, next, cycleDay);
    }
  }

  /** The period contains its reference exactly when the account's creation day has begun by
      then; it always lies inside the one cycle that holds the reference. */
  lemma BillingPeriodContainsReference(billCycleDay: int, createdAt: Time, trialEnd: Time, reference: Time)
    requires ValidCycleDay(billCycleDay)
    ensures var p := ComputeBillingPeriod(billCycleDay, createdAt, trialEnd, reference);
            var cycle := UntrimmedPeriod(billCycleDay, reference);
            && (Within(p, reference) <==> TruncateToDay(createdAt) <= reference)
            && cycle.from <= p.from && p.to <= cycle.to
            && (createdAt <= reference ==> p.from < p.to && Within(p, reference))
            && (forall t :: Within(p, t) ==> NextCycleStart(t, billCycleDay) == NextCycleStart(reference, billCycleDay))
  {
    hide UntrimmedPeriod, NextCycleStart, TruncateToDay;
    var p := ComputeBillingPeriod(billCycleDay, createdAt, trialEnd, reference);
    var cycle := UntrimmedPeriod(billCycleDay, reference);
    UntrimmedIsOneCycle(billCycleDay, reference);
    MidnightVersusInstant(cycle.from, createdAt);
    MidnightVersusInstant(cycle.from, trialEnd);
    forall t | Within(p, t)
      ensures NextCycleStart(t, billCycleDay) == NextCycleStart(reference, billCycleDay)
    {
      SameCycle(cycle.from, t, billCycleDay);
    }
  }

  /** Which instants the period holds: of the cycle, those from the creation day on when the account
      was created in it, and otherwise those on the reference's side of the day the trial ends. */
  lemma PeriodIsOneSideOfTrial(billCycleDay: int, createdAt: Time, trialEnd: Time, reference: Time, t: Time)
    requires ValidCycleDay(billCycleDay)
    ensures var p := ComputeBillingPeriod(billCycleDay, createdAt, trialEnd, reference);
            var cycle := UntrimmedPeriod(billCycleDay, reference);
            Within(p, t) <==>
              && Within(cycle, t)
              && if cycle.from < createdAt then TruncateToDay(createdAt) <= t
                 else (t < TruncateToDay(trialEnd) <==> reference < TruncateToDay(trialEnd))
  {
    hide UntrimmedPeriod, NextCycleStart, TruncateToDay;
    var cycle := UntrimmedPeriod(billCycleDay, reference);
    UntrimmedIsOneCycle(billCycleDay, reference);
    UntrimmedEndsAtMidnight(billCycleDay, reference);
    MidnightVersusInstant(cycle.from, createdAt);
    MidnightVersusInstant(cycle.from, trialEnd);
    MidnightVersusInstant(cycle.to, trialEnd);
  }

  lemma UntrimmedEndsAtMidnight(billCycleDay: int, reference: Time)
    ensures UntrimmedPeriod(billCycleDay, reference).to % NS_PER_DAY == 0
  {
    hide CycleStart, UntrimmedPeriod;
    UntrimmedByMonth(billCycleDay, reference);
    CycleStartIsMidnight(CycleMonth(reference, billCycleDay) + 1, billCycleDay);
  }

  lemma FourthBelongsToPreviousCycle(month: int)
    ensures UntrimmedPeriod(5, Date(month, 4)) == Interval(CycleStart(month - 1, 5), Date(month, 5))
    ensures CycleStart(month - 1, 5) < Date(month, 5)
  {
    hide UntrimmedPeriod, NextCycleStart, MonthStart, MonthIndex;
    DateIsInMonth(month, 4);
    UntrimmedByMonth(5, Date(month, 4));
    CycleStartMonotone(month - 1, month, 5);
  }

  /** A period asked for before the account existed can be upside down: in every month, an
      account of cycle day 5 created on the 10th and referenced on the 4th gets [10th, 5th). */
  lemma PeriodBeforeCreationIsEmpty(month: int, trialEnd: Time)
    ensures var p := ComputeBillingPeriod(5, Date(month, 10), trialEnd, Date(month, 4));
            p == Interval(Date(month, 10), Date(month, 5)) && p.to < p.from && !Within(p, Date(month, 4))
  {
    hide UntrimmedPeriod, CycleStart, MonthStart;
    FourthBelongsToPreviousCycle(month);
    assert TruncateToDay(Date(month, 10)) == Date(month, 10);
  }
}
