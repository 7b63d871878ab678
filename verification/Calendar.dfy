/** The proleptic Gregorian calendar in UTC and the billing cycles cut out of it.

    A `Time` counts nanoseconds from midnight of January 1 of year 0. A month is named by one
    linear index, `12 * year + (month - 1)`, so the month numbers 0 and 13 that the Go code
    hands to `time.Date` are ordinary neighbours and need no carry. */
module Calendar {

  type Time = int

  const NS_PER_DAY := 86_400_000_000_000
  const NS_PER_HOUR := 3_600_000_000_000

  // ---------------------------------------------------------------- months and days

  predicate IsLeap(year: int) {
    year % 4 == 0 && (year % 100 != 0 || year % 400 == 0)
  }

  /** The calendar's own table of month lengths. */
  function MonthLength(month: int): (n: int)
    ensures 28 <= n <= 31
  {
    var m := month % 12;
    if m == 1 then (if IsLeap(month / 12) then 29 else 28)
    else if m == 3 || m == 5 || m == 8 || m == 10 then 30
    else 31
  }

  /** The number of the first day of a month: month lengths added up from January of year 0. */
  function MonthStart(month: int): int
    decreases if month < 0 then -month else month
  {
    if month == 0 then 0
    else if month > 0 then MonthStart(month - 1) + MonthLength(month - 1)
    else MonthStart(month + 1) - MonthLength(month)
  }

  lemma MonthStartStep(month: int)
    ensures MonthStart(month + 1) == MonthStart(month) + MonthLength(month)
  { }

  /** Days of the year before its month `m`, by the rule of the 153 days in five months from March. */
  function DaysBeforeMonth(m: nat, leap: bool): int {
    if m < 2 then 31 * m else (if leap then 60 else 59) + (153 * (m - 2) + 2) / 5
  }

  /** Days before January 1 of a year: 365 a year and one for each leap year since year 0. */
  function DaysBeforeYear(year: int): int {
    365 * year + (year + 3) / 4 - (year + 99) / 100 + (year + 399) / 400
  }

  lemma {:induction false} MonthWithinYear(year: int, m: nat)
    requires m <= 12
    ensures MonthStart(12 * year + m) == MonthStart(12 * year) + DaysBeforeMonth(m, IsLeap(year))
  {
    hide MonthStart, IsLeap;
    if m > 0 {
      MonthWithinYear(year, m - 1);
      MonthStartStep(12 * year + (m - 1));
      MonthNumbers(year, m - 1);
    }
  }

  lemma MonthNumbers(year: int, m: nat)
    requires m < 12
    ensures (12 * year + m) % 12 == m && (12 * year + m) / 12 == year
  { }

  lemma OneMoreYear(year: int)
    ensures DaysBeforeYear(year + 1) == DaysBeforeYear(year) + if IsLeap(year) then 366 else 365
  {
    var fours, hundreds, fourHundreds := year % 4 == 0, year % 100 == 0, year % 400 == 0;
    EveryFourth(year);
    EveryHundredth(year);
    EveryFourHundredth(year);
    LeapRule(year);
    assert IsLeap(year) <==> fours && (!hundreds || fourHundreds);
  }

  lemma LeapRule(year: int)
    ensures year % 400 == 0 ==> year % 100 == 0
    ensures year % 100 == 0 ==> year % 4 == 0
  { }

  lemma EveryFourth(year: int)
    ensures (year + 4) / 4 == (year + 3) / 4 + if year % 4 == 0 then 1 else 0
  { }

  lemma EveryHundredth(year: int)
    ensures (year + 100) / 100 == (year + 99) / 100 + if year % 100 == 0 then 1 else 0
  { }

  lemma EveryFourHundredth(year: int)
    ensures (year + 400) / 400 == (year + 399) / 400 + if year % 400 == 0 then 1 else 0
  { }

  lemma {:induction false} YearStart(year: int)
    ensures MonthStart(12 * year) == DaysBeforeYear(year)
    decreases if year < 0 then -year else year
  {
    hide MonthStart, IsLeap, DaysBeforeYear;
    if year == 0 {
      CalendarBegins(12 * year);
    } else {
      var previous := if year > 0 then year - 1 else year;
      YearStart(if year > 0 then year - 1 else year + 1);
      MonthWithinYear(previous, 12);
      assert 12 * previous + 12 == 12 * (previous + 1);
      OneMoreYear(previous);
    }
  }

  lemma CalendarBegins(month: int)
    requires month == 0
    ensures MonthStart(month) == 0 && DaysBeforeYear(month) == 0
  { }

  /** The first day of every month of every year in closed form. */
  lemma MonthStartClosedForm(year: int, m: nat)
    requires m < 12
    ensures MonthStart(12 * year + m) == DaysBeforeYear(year) + DaysBeforeMonth(m, IsLeap(year))
  {
    hide MonthStart, DaysBeforeYear, DaysBeforeMonth;
    MonthWithinYear(year, m);
    YearStart(year);
  }

  lemma {:induction false} MonthStartMonotone(a: int, b: int)
    requires a < b
    ensures MonthStart(a) + MonthLength(a) <= MonthStart(b)
    decreases b - a
  {
    MonthStartStep(a);
    if a + 1 < b {
      MonthStartMonotone(a + 1, b);
    }
  }

  predicate DayInMonth(day: int, month: int) {
    MonthStart(month) <= day < MonthStart(month) + MonthLength(month)
  }

  /** Walks down to a month that begins no later than `day`. */
  function MonthBefore(day: int, month: int): (r: int)
    ensures MonthStart(r) <= day
    decreases MonthStart(month) - day
  {
    if MonthStart(month) <= day then month
    else MonthStartStep(month - 1); MonthBefore(day, month - 1)
  }

  /** Walks up to the month that holds `day`. */
  function MonthFrom(day: int, month: int): (r: int)
    requires MonthStart(month) <= day
    ensures DayInMonth(day, r)
    decreases day - MonthStart(month)
  {
    MonthStartStep(month);
    if day < MonthStart(month + 1) then month else MonthFrom(day, month + 1)
  }

  function MonthOf(day: int): (month: int)
    ensures DayInMonth(day, month)
  {
    MonthFrom(day, MonthBefore(day, day / 30))
  }

  lemma MonthOfUnique(day: int, month: int)
    requires DayInMonth(day, month)
    ensures MonthOf(day) == month
  {
    var r := MonthOf(day);
    if r < month {
      MonthStartMonotone(r, month);
    } else if month < r {
      MonthStartMonotone(month, r);
    }
  }

  // ---------------------------------------------------------------- time.Time

  /** `time.Date(year, month, day, 0, 0, 0, 0, UTC)`; any `day` is legal and carries over. */
  function Date(month: int, day: int): Time {
    (MonthStart(month) + day - 1) * NS_PER_DAY
  }

  function DayNumber(t: Time): int { t / NS_PER_DAY }
  function MonthIndex(t: Time): int { MonthOf(DayNumber(t)) }
  function DayOfMonth(t: Time): int { DayNumber(t) - MonthStart(MonthIndex(t)) + 1 }
  /** The last midnight at or before `t`. */
  function TruncateToDay(t: Time): (r: Time)
    ensures r % NS_PER_DAY == 0 && r <= t < r + NS_PER_DAY
  {
    DayNumber(t) * NS_PER_DAY
  }

  /** The last full hour at or before `t`. */
  function TruncateToHour(t: Time): (r: Time)
    ensures r % NS_PER_HOUR == 0 && r <= t < r + NS_PER_HOUR
  {
    t / NS_PER_HOUR * NS_PER_HOUR
  }

  function MinTime(a: Time, b: Time): Time { if a < b then a else b }
  function MaxTime(a: Time, b: Time): Time { if a < b then b else a }
  function JustBefore(t: Time): Time { t - 1 }
  predicate InTimeRange(begin: Time, end: Time, t: Time) { !(begin > t) && t < end }

  /** The last day of a month is found as day 0 of the month after it. */
  function DaysIn(month: int): int {
    DayOfMonth(Date(month + 1, 0))
  }

  predicate IsEndOfMonth(t: Time) {
    DaysIn(MonthIndex(t)) == DayOfMonth(t)
  }

  /** Day 0 of the next month is the last day of this one, for every month. */
  lemma DaysInIsMonthLength(month: int)
    ensures DaysIn(month) == MonthLength(month)
  {
    MonthStartStep(month);
    var last := MonthStart(month + 1) - 1;
    assert DayNumber(Date(month + 1, 0)) == last;
    MonthOfUnique(last, month);
  }

  // ---------------------------------------------------------------- billing cycles

  function NextCycleStart(reference: Time, cycleDay: int): Time {
    var month :=
      if cycleDay > DayOfMonth(reference) && !IsEndOfMonth(reference) then MonthIndex(reference)
      else MonthIndex(reference) + 1;
    var daysInMonth := DaysIn(month);
    var day := if daysInMonth < cycleDay then daysInMonth else cycleDay;
    Date(month, day)
  }

  function EndOfCycle(t: Time, cycleDay: int): Time {
    JustBefore(NextCycleStart(t, cycleDay))
  }

  predicate ValidCycleDay(cycleDay: int) { 1 <= cycleDay <= 31 }

  /** When a month's cycle begins: on the cycle day, or on the last day of a shorter month. */
  function CycleStart(month: int, cycleDay: int): Time {
    Date(month, if MonthLength(month) < cycleDay then MonthLength(month) else cycleDay)
  }

  lemma DateIsInMonth(month: int, day: int)
    requires 1 <= day <= MonthLength(month)
    ensures MonthIndex(Date(month, day)) == month && DayOfMonth(Date(month, day)) == day
  {
    hide MonthStart, MonthLength;
    assert DayNumber(Date(month, day)) == MonthStart(month) + day - 1;
    MonthOfUnique(MonthStart(month) + day - 1, month);
  }

  /** A cycle begins in its own month, on the cycle day if the month has that day and otherwise on
      its last day, at midnight. */
  lemma CycleStartDay(month: int, cycleDay: int)
    requires ValidCycleDay(cycleDay)
    ensures var start := CycleStart(month, cycleDay);
            && MonthIndex(start) == month && start % NS_PER_DAY == 0
            && (cycleDay <= MonthLength(month) ==> DayOfMonth(start) == cycleDay)
            && (cycleDay > MonthLength(month) ==> IsEndOfMonth(start))
  {
    hide MonthLength, MonthStart, MonthIndex, DayOfMonth, DaysIn;
    DateIsInMonth(month, if MonthLength(month) < cycleDay then MonthLength(month) else cycleDay);
    DaysInIsMonthLength(month);
  }

  lemma CycleStartMonotone(a: int, b: int, cycleDay: int)
    requires ValidCycleDay(cycleDay) && a < b
    ensures CycleStart(a, cycleDay) < CycleStart(b, cycleDay)
  {
    MonthStartMonotone(a, b);
  }

  /** `start` is the least cycle start strictly after `reference`. */
  ghost predicate IsNextCycleStart(reference: Time, cycleDay: int, start: Time) {
    && reference < start
    && (exists month :: start == CycleStart(month, cycleDay))
    && forall month :: reference < CycleStart(month, cycleDay) ==> start <= CycleStart(month, cycleDay)
  }

  /** The month in which the next cycle begins. */
  function NextCycleMonth(reference: Time, cycleDay: int): int {
    if reference < CycleStart(MonthIndex(reference), cycleDay) then MonthIndex(reference)
    else MonthIndex(reference) + 1
  }

  lemma NextCycleStartIsCycleStart(reference: Time, cycleDay: int)
    requires ValidCycleDay(cycleDay)
    ensures NextCycleStart(reference, cycleDay) == CycleStart(NextCycleMonth(reference, cycleDay), cycleDay)
  {
    hide DaysIn, MonthLength, MonthIndex, DayOfMonth;
    var m := MonthIndex(reference);
    DaysInIsMonthLength(m);
    DaysInIsMonthLength(m + 1);
    CycleBeginsLater(reference, cycleDay);
  }

  /** Within a month, the cycle begins after an instant exactly when its day is a later one. */
  lemma CycleBeginsLater(reference: Time, cycleDay: int)
    ensures var m := MonthIndex(reference);
            && DayOfMonth(reference) <= MonthLength(m)
            && (reference < CycleStart(m, cycleDay) <==>
                  DayOfMonth(reference) < if MonthLength(m) < cycleDay then MonthLength(m) else cycleDay)
  {
    hide MonthLength, MonthStart;
  }

  lemma NoCycleStartBetween(reference: Time, cycleDay: int, month: int)
    requires ValidCycleDay(cycleDay)
    requires reference < CycleStart(month, cycleDay)
    ensures CycleStart(NextCycleMonth(reference, cycleDay), cycleDay) <= CycleStart(month, cycleDay)
  {
    var next := NextCycleMonth(reference, cycleDay);
    if next < month {
      CycleStartMonotone(next, month, cycleDay);
    } else if month < MonthIndex(reference) {
      MonthStartMonotone(month, MonthIndex(reference));
    }
  }

  /** `NextCycleStart` is the least cycle start after its reference, in every month of every year. */
  lemma NextCycleStartIsLeast(reference: Time, cycleDay: int)
    requires ValidCycleDay(cycleDay)
    ensures IsNextCycleStart(reference, cycleDay, NextCycleStart(reference, cycleDay))
  {
    var start := NextCycleStart(reference, cycleDay);
    NextCycleStartIsCycleStart(reference, cycleDay);
    NextCycleIsAhead(reference, cycleDay);
    forall month | reference < CycleStart(month, cycleDay)
      ensures start <= CycleStart(month, cycleDay)
    {
      NoCycleStartBetween(reference, cycleDay, month);
    }
  }

  lemma NextCycleIsAhead(reference: Time, cycleDay: int)
    requires ValidCycleDay(cycleDay)
    ensures reference < CycleStart(NextCycleMonth(reference, cycleDay), cycleDay)
  {
    MonthStartStep(MonthIndex(reference));
  }

  lemma NextCycleStartUnique(reference: Time, cycleDay: int, start: Time)
    requires ValidCycleDay(cycleDay)
    requires IsNextCycleStart(reference, cycleDay, start)
    ensures NextCycleStart(reference, cycleDay) == start
  {
    NextCycleStartIsLeast(reference, cycleDay);
  }

  /** Every instant of a cycle sees the same next cycle start, and no cycle begins in between. */
  lemma SameCycle(begin: Time, t: Time, cycleDay: int)
    requires ValidCycleDay(cycleDay)
    requires begin <= t
    ensures t < NextCycleStart(begin, cycleDay)
            <==> NextCycleStart(t, cycleDay) == NextCycleStart(begin, cycleDay)
    ensures NextCycleStart(begin, cycleDay) <= NextCycleStart(t, cycleDay)
  {
    NextCycleStartIsLeast(begin, cycleDay);
    NextCycleStartIsLeast(t, cycleDay);
    if t < NextCycleStart(begin, cycleDay) {
      NextCycleStartUnique(t, cycleDay, NextCycleStart(begin, cycleDay));
    }
  }
}
