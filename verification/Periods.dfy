// The budget windows: UTC days, weeks from Monday, calendar months.
module Periods {
  import opened CivilCalendar

  datatype Period = Daily | Weekly | Monthly

  const DAY := 86_400

  function PeriodStart(period: Period, now: int): int {
    match period
    case Daily => now / DAY * DAY
    case Weekly =>
      var day := now / DAY;
      (day - (day + 3) % 7) * DAY
    case Monthly =>
      var date := CivilFromDays(now / DAY);
      DaysFromCivil(date.year, date.month, 1) * DAY
  }

  // What a window starts at: midnight, of a Monday, of the first of a month. Day 0
  // was a Thursday.
  predicate IsBoundary(period: Period, t: int) {
    && t % DAY == 0
    && match period
       case Daily => true
       case Weekly => t / DAY % 7 == 4
       case Monthly => CivilFromDays(t / DAY).day == 1
  }

  // Days in the window `now` falls in.
  function WindowDays(period: Period, now: int): int {
    match period
    case Daily => 1
    case Weekly => 7
    case Monthly =>
      var date := CivilFromDays(now / DAY);
      DaysInMonth(date.year, date.month)
  }

  lemma DayOfMidnight(day: int)
    ensures day * DAY / DAY == day && day * DAY % DAY == 0
  {
  }

  // The first of a date's month, as a day.
  lemma MonthStartDay(day: int) returns (start: int)
    ensures start == DaysFromCivil(CivilFromDays(day).year, CivilFromDays(day).month, 1)
    ensures IsDate(CivilFromDays(day))
    ensures CivilFromDays(start) == CivilFromDays(day).(day := 1)
    ensures start == day - (CivilFromDays(day).day - 1)
  {
    var d := CivilFromDays(day);
    CivilAndDaysAreInverse(day, d.(day := 1));
    start := DaysFromCivil(d.year, d.month, 1);
    DayCountClosed(d);
    DayCountClosed(d.(day := 1));
  }

  // No later first of a month up to `day`.
  lemma MonthStartIsLast(day: int, start: int, t: int)
    requires IsDate(CivilFromDays(day)) && CivilFromDays(start) == CivilFromDays(day).(day := 1)
    requires t <= day && CivilFromDays(t).day == 1
    ensures t <= start
  {
    CivilAndDaysAreInverse(day, CivilFromDays(day));
    CivilAndDaysAreInverse(t, CivilFromDays(t));
    CivilAndDaysAreInverse(start, CivilFromDays(start));
    DayCountOrdersDates(CivilFromDays(start), CivilFromDays(t));
    DayCountOrdersDates(CivilFromDays(day), CivilFromDays(t));
  }

  lemma StartIsBoundary(period: Period, now: int)
    ensures IsBoundary(period, PeriodStart(period, now))
    ensures PeriodStart(period, now) <= now < PeriodStart(period, now) + WindowDays(period, now) * DAY
  {
    match period
    case Daily =>
      DayOfMidnight(now / DAY);
    case Weekly =>
      var day := now / DAY;
      DayOfMidnight(day - (day + 3) % 7);
      WeekStart(day);
    case Monthly =>
      var start := MonthStartDay(now / DAY);
      DayOfMidnight(start);
  }

  lemma WeekStart(day: int)
    ensures (day - (day + 3) % 7) % 7 == 4
  {
    assert day - (day + 3) % 7 == 7 * ((day + 3) / 7) - 3;
  }

  lemma BoundaryBelowStart(period: Period, now: int, t: int)
    requires IsBoundary(period, t) && t <= now
    ensures t <= PeriodStart(period, now)
  {
    var (day, other) := (now / DAY, t / DAY);
    assert t == other * DAY && other <= day;
    match period
    case Daily =>
    case Weekly => WeekStart(day);
    case Monthly =>
      var start := MonthStartDay(day);
      MonthStartIsLast(day, start, other);
  }

  // The start of a window is the greatest boundary that is not after `now`.
  lemma StartIsGreatestBoundary(period: Period, now: int)
    ensures IsBoundary(period, PeriodStart(period, now)) && PeriodStart(period, now) <= now
    ensures forall t :: IsBoundary(period, t) && t <= now ==> t <= PeriodStart(period, now)
  {
    StartIsBoundary(period, now);
    forall t | IsBoundary(period, t) && t <= now ensures t <= PeriodStart(period, now) {
      BoundaryBelowStart(period, now, t);
    }
  }

  // Starts never go back, and a start is its own start.
  lemma StartsAreMonotone(period: Period, a: int, b: int)
    requires a <= b
    ensures PeriodStart(period, a) <= PeriodStart(period, b)
    ensures PeriodStart(period, PeriodStart(period, a)) == PeriodStart(period, a)
  {
    StartIsBoundary(period, a);
    StartIsBoundary(period, PeriodStart(period, a));
    BoundaryBelowStart(period, b, PeriodStart(period, a));
    BoundaryBelowStart(period, PeriodStart(period, a), PeriodStart(period, a));
  }

  // Nothing but the start is a boundary strictly before the end, and the end is one.
  ghost predicate Spans(period: Period, start: int, end: int) {
    && IsBoundary(period, end) && start < end
    && forall b :: IsBoundary(period, b) && start < b ==> end <= b
  }

  lemma DayInMonth(first: Date, k: int, n: int)
    requires IsDate(first) && first.day == 1 && 1 <= k <= DaysInMonth(first.year, first.month)
    requires n == DayNumber(first) + k - 1
    ensures CivilFromDays(n) == first.(day := k)
  {
    CountHasDate(n, first.(day := k));
  }

  lemma NextMonthStarts(first: Date, n: int)
    requires IsDate(first) && first.day == 1
    requires n == DayNumber(first) + DaysInMonth(first.year, first.month)
    ensures CivilFromDays(n).day == 1
  {
    var last := first.(day := DaysInMonth(first.year, first.month));
    NextDayCountsOne(last);
    CountHasDate(n, NextDay(last));
  }

  lemma MonthSpans(first: Date, day: int)
    requires IsDate(first) && first.day == 1 && day == DayNumber(first)
    ensures Spans(Monthly, day * DAY, (day + DaysInMonth(first.year, first.month)) * DAY)
  {
    var length := DaysInMonth(first.year, first.month);
    NextMonthStarts(first, day + length);
    DayOfMidnight(day + length);
    forall b | IsBoundary(Monthly, b) && day * DAY < b ensures (day + length) * DAY <= b {
      NoFirstWithin(first, b / DAY);
    }
  }

  lemma NoFirstWithin(first: Date, day: int)
    requires IsDate(first) && first.day == 1
    requires DayNumber(first) < day && CivilFromDays(day).day == 1
    ensures DayNumber(first) + DaysInMonth(first.year, first.month) <= day
  {
    var k := day - DayNumber(first) + 1;
    if k <= DaysInMonth(first.year, first.month) {
      DayInMonth(first, k, day);
    }
  }

  lemma WeekSpans(start: int)
    requires IsBoundary(Weekly, start)
    ensures Spans(Weekly, start, start + 7 * DAY)
  {
    DayOfMidnight(start / DAY + 7);
    assert start == start / DAY * DAY;
    forall b | IsBoundary(Weekly, b) && start < b ensures start + 7 * DAY <= b {
      MondaysApart(start / DAY, b / DAY);
    }
  }

  lemma MondaysApart(a: int, b: int)
    requires a % 7 == 4 && b % 7 == 4 && a < b
    ensures a + 7 <= b
  {
  }

  lemma MonthWindowSpans(now: int)
    ensures Spans(Monthly, PeriodStart(Monthly, now), PeriodStart(Monthly, now) + WindowDays(Monthly, now) * DAY)
  {
    var first := CivilFromDays(now / DAY).(day := 1);
    CivilIsDate(now / DAY);
    DayCountClosed(first);
    MonthSpans(first, DayNumber(first));
  }

  // A window's length takes it to the next boundary.
  lemma WindowSpans(period: Period, now: int)
    ensures Spans(period, PeriodStart(period, now), PeriodStart(period, now) + WindowDays(period, now) * DAY)
  {
    match period
    case Daily => DayOfMidnight(now / DAY + 1);
    case Weekly =>
      StartIsBoundary(Weekly, now);
      WeekSpans(PeriodStart(Weekly, now));
    case Monthly => MonthWindowSpans(now);
  }

  lemma StartIn(period: Period, start: int, end: int, t: int)
    requires Spans(period, start, end) && IsBoundary(period, start)
    ensures PeriodStart(period, t) == start <==> start <= t < end
  {
    StartIsGreatestBoundary(period, t);
  }

  // The window that starts there holds exactly its own length, and the next one starts
  // where it ends.
  lemma WindowIsExact(period: Period, now: int, t: int, start: int, end: int)
    requires start == PeriodStart(period, now) && end == start + WindowDays(period, now) * DAY
    ensures IsBoundary(period, end)
    ensures PeriodStart(period, t) == start <==> start <= t < end
  {
    StartIsBoundary(period, now);
    WindowSpans(period, now);
    StartIn(period, start, end, t);
  }

  // 1 day, 7 days, 28 to 31 days.
  lemma WindowLengths(now: int)
    ensures WindowDays(Daily, now) == 1 && WindowDays(Weekly, now) == 7
    ensures 28 <= WindowDays(Monthly, now) <= 31
  {
    CivilIsDate(now / DAY);
  }

  // Weeks and months start at the start of a day, so the day's window is the innermost.
  lemma DayStartsLast(period: Period, now: int)
    ensures PeriodStart(period, now) <= PeriodStart(Daily, now)
    ensures IsBoundary(Daily, PeriodStart(period, now))
  {
    StartIsBoundary(period, now);
    BoundaryBelowStart(Daily, now, PeriodStart(period, now));
  }
}
