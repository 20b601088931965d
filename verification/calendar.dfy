/** Leaderboard time windows (src/leaderboard/duration.rs): the proleptic
    Gregorian calendar in UTC, the start of each window, and its label. */
module Calendar {
  const SecondsPerDay: int := 86400
  const SecondsPerWeek: int := 7 * SecondsPerDay

  predicate IsLeap(year: int) {
    year % 4 == 0 && (year % 100 != 0 || year % 400 == 0)
  }

  function YearLength(year: int): int {
    if IsLeap(year) then 366 else 365
  }

  /** `days_in_month`: the day number of the day before the first of the
      next month. */
  function DaysInMonth(year: int, month: int): (days: int)
    requires 1 <= month <= 12
    ensures 28 <= days <= 31
    ensures days < 30 <==> month == 2
    ensures month == 2 ==> (days == 29 <==> IsLeap(year))
  {
    if month == 2 then (if IsLeap(year) then 29 else 28)
    else if month == 4 || month == 6 || month == 9 || month == 11 then 30
    else 31
  }

  /** A UTC instant as a civil date and the second within that day. */
  datatype DateTime = DateTime(year: int, month: int, day: int, second: int)

  predicate Valid(t: DateTime) {
    && 1 <= t.month <= 12
    && 1 <= t.day <= DaysInMonth(t.year, t.month)
    && 0 <= t.second < SecondsPerDay
  }

  // -------------------------------------------------------------------------
  // Counting days
  // -------------------------------------------------------------------------

  /** Days from 1 January of year 1 to 1 January of `year`. Dafny's division
      by a positive constant rounds down, as the count needs for years before
      year 1 too. */
  function DaysBeforeYear(year: int): int {
    var p := year - 1;
    365 * p + p / 4 - p / 100 + p / 400
  }

  /** Days from 1 January to the first of `month` (13 meaning the next
      year). */
  function DaysBeforeMonth(year: int, month: int): int
    requires 1 <= month <= 13
  {
    if month == 1 then 0 else DaysBeforeMonth(year, month - 1) + DaysInMonth(year, month - 1)
  }

  /** Days since 1 January of year 1. */
  function DayNumber(year: int, month: int, day: int): int
    requires 1 <= month <= 12
  {
    DaysBeforeYear(year) + DaysBeforeMonth(year, month) + day - 1
  }

  /** Seconds since 0001-01-01T00:00:00Z. */
  function Timestamp(t: DateTime): int
    requires 1 <= t.month <= 12
  {
    DayNumber(t.year, t.month, t.day) * SecondsPerDay + t.second
  }

  lemma DivStep(y: int)
    ensures y / 4 - (y - 1) / 4 == (if y % 4 == 0 then 1 else 0)
    ensures y / 100 - (y - 1) / 100 == (if y % 100 == 0 then 1 else 0)
    ensures y / 400 - (y - 1) / 400 == (if y % 400 == 0 then 1 else 0)
  {
  }

  /** A year has 366 days exactly when it is a leap year. */
  lemma YearLengthCounted(year: int)
    ensures DaysBeforeYear(year + 1) == DaysBeforeYear(year) + YearLength(year)
  {
    DivStep(year);
  }

  /** The months of a year add up to the year. */
  lemma MonthsFillYear(year: int)
    ensures DaysBeforeMonth(year, 13) == YearLength(year)
  {
    var feb := DaysInMonth(year, 2);
    assert DaysBeforeMonth(year, 2) == 31;
    assert DaysBeforeMonth(year, 3) == 31 + feb;
    assert DaysBeforeMonth(year, 4) == 62 + feb;
    assert DaysBeforeMonth(year, 5) == 92 + feb;
    assert DaysBeforeMonth(year, 6) == 123 + feb;
    assert DaysBeforeMonth(year, 7) == 153 + feb;
    assert DaysBeforeMonth(year, 8) == 184 + feb;
    assert DaysBeforeMonth(year, 9) == 215 + feb;
    assert DaysBeforeMonth(year, 10) == 245 + feb;
    assert DaysBeforeMonth(year, 11) == 276 + feb;
    assert DaysBeforeMonth(year, 12) == 306 + feb;
  }

  /** Every valid date falls inside its own year's days. */
  lemma {:induction false} MonthsBefore(year: int, m: int, later: int)
    requires 1 <= m < later <= 13
    ensures DaysBeforeMonth(year, m) + DaysInMonth(year, m) <= DaysBeforeMonth(year, later)
    decreases later
  {
    if later > m + 1 {
      MonthsBefore(year, m, later - 1);
    }
  }

  lemma {:induction false} YearsBefore(year: int, later: int)
    requires year < later
    ensures DaysBeforeYear(year) + YearLength(year) <= DaysBeforeYear(later)
    decreases later - year
  {
    YearLengthCounted(year);
    if later > year + 1 {
      YearsBefore(year + 1, later);
      YearLengthCounted(year + 1);
    }
  }

  lemma DayInYear(t: DateTime)
    requires Valid(t)
    ensures 0 <= DaysBeforeMonth(t.year, t.month) + t.day - 1 < YearLength(t.year)
  {
    MonthsFillYear(t.year);
    if t.month < 12 {
      MonthsBefore(t.year, t.month, 13);
    }
    DaysBeforeMonthNonNegative(t.year, t.month);
  }

  lemma {:induction false} DaysBeforeMonthNonNegative(year: int, month: int)
    requires 1 <= month <= 13
    ensures DaysBeforeMonth(year, month) >= 0
    decreases month
  {
    if month > 1 {
      DaysBeforeMonthNonNegative(year, month - 1);
    }
  }

  /** Calendar order: by year, then month, then day, then second. */
  predicate Earlier(a: DateTime, b: DateTime) {
    || a.year < b.year
    || (a.year == b.year && a.month < b.month)
    || (a.year == b.year && a.month == b.month && a.day < b.day)
    || (a.year == b.year && a.month == b.month && a.day == b.day && a.second < b.second)
  }

  /** Timestamps follow calendar order, so distinct valid dates are distinct
      instants. */
  lemma EarlierIsSooner(a: DateTime, b: DateTime)
    requires Valid(a) && Valid(b)
    requires Earlier(a, b)
    ensures Timestamp(a) < Timestamp(b)
  {
    if a.year < b.year {
      DayInYear(a);
      DayInYear(b);
      YearsBefore(a.year, b.year);
      assert DayNumber(a.year, a.month, a.day) < DayNumber(b.year, b.month, b.day);
    } else if a.month < b.month {
      MonthsBefore(a.year, a.month, b.month);
      assert DayNumber(a.year, a.month, a.day) < DayNumber(b.year, b.month, b.day);
    } else if a.day < b.day {
      assert DayNumber(a.year, a.month, a.day) < DayNumber(b.year, b.month, b.day);
    }
  }

  // -------------------------------------------------------------------------
  // Going back in time
  // -------------------------------------------------------------------------

  /** The same time of day, one calendar day earlier. */
  function PreviousDay(t: DateTime): (r: DateTime)
    requires Valid(t)
    ensures Valid(r)
  {
    if t.day > 1 then t.(day := t.day - 1)
    else if t.month > 1 then DateTime(t.year, t.month - 1, DaysInMonth(t.year, t.month - 1), t.second)
    else DateTime(t.year - 1, 12, 31, t.second)
  }

  /** The last day of a month is the day before the first of the next one,
      which is how `days_in_month` finds it. */
  lemma LastDayPrecedesFirst(year: int, month: int, second: int)
    requires 1 <= month <= 12 && 0 <= second < SecondsPerDay
    ensures var first := if month == 12 then DateTime(year + 1, 1, 1, second) else DateTime(year, month + 1, 1, second);
      PreviousDay(first) == DateTime(year, month, DaysInMonth(year, month), second)
  {
  }

  /** Going back one calendar day is going back one day number. */
  lemma PreviousDayCounted(t: DateTime)
    requires Valid(t)
    ensures var p := PreviousDay(t);
      DayNumber(p.year, p.month, p.day) == DayNumber(t.year, t.month, t.day) - 1 && p.second == t.second
  {
    if t.day == 1 && t.month == 1 {
      YearLengthCounted(t.year - 1);
      MonthsFillYear(t.year - 1);
    }
  }

  /** Going back one calendar day is going back 86400 seconds. */
  lemma PreviousDayIsOneDayEarlier(t: DateTime)
    requires Valid(t)
    ensures Timestamp(PreviousDay(t)) == Timestamp(t) - SecondsPerDay
  {
    PreviousDayCounted(t);
  }

  function DaysBack(t: DateTime, n: nat): (r: DateTime)
    requires Valid(t)
    ensures Valid(r)
    decreases n
  {
    if n == 0 then t else DaysBack(PreviousDay(t), n - 1)
  }

  lemma {:induction false} DaysBackCounted(t: DateTime, n: nat)
    requires Valid(t)
    ensures var b := DaysBack(t, n);
      DayNumber(b.year, b.month, b.day) == DayNumber(t.year, t.month, t.day) - n && b.second == t.second
    decreases n
  {
    if n > 0 {
      PreviousDayCounted(t);
      DaysBackCounted(PreviousDay(t), n - 1);
    }
  }

  lemma DaysBackIsSeconds(t: DateTime, n: nat)
    requires Valid(t)
    ensures Timestamp(DaysBack(t, n)) == Timestamp(t) - n * SecondsPerDay
  {
    DaysBackCounted(t, n);
    var b := DaysBack(t, n);
    var d := DayNumber(t.year, t.month, t.day);
    assert (d - n) * SecondsPerDay == d * SecondsPerDay - n * SecondsPerDay;
  }

  /** Months since January of year 0. */
  function MonthIndex(year: int, month: int): int {
    year * 12 + month - 1
  }

  /** The loop in `subtract_months`: add twelve months and take a year off
      until the month is positive. */
  function Borrow(year: int, month: int): (r: (int, int))
    requires month <= 12
    ensures 1 <= r.1 <= 12
    ensures MonthIndex(r.0, r.1) == MonthIndex(year, month)
    decreases 1 - month
  {
    if month <= 0 then Borrow(year - 1, month + 12) else (year, month)
  }

  function Min(a: int, b: int): int {
    if a <= b then a else b
  }

  /** `subtract_months`: the same time of day, `months` calendar months back,
      on the same day of the month or that month's last day if it is
      shorter. */
  function SubtractMonths(end: DateTime, months: nat): (r: DateTime)
    requires Valid(end)
    ensures Valid(r)
    ensures MonthIndex(r.year, r.month) == MonthIndex(end.year, end.month) - months
    ensures r.day == Min(end.day, DaysInMonth(r.year, r.month))
    ensures r.second == end.second
  {
    var (year, month) := Borrow(end.year, end.month - months);
    DateTime(year, month, Min(end.day, DaysInMonth(year, month)), end.second)
  }

  lemma MonthIndexDetermines(y1: int, m1: int, y2: int, m2: int)
    requires 1 <= m1 <= 12 && 1 <= m2 <= 12
    requires MonthIndex(y1, m1) == MonthIndex(y2, m2)
    ensures y1 == y2 && m1 == m2
  {
  }

  /** A year back is the same date a year earlier, except that 29 February
      becomes 28 February. */
  lemma YearBack(end: DateTime)
    requires Valid(end)
    ensures var r := SubtractMonths(end, 12);
      r.year == end.year - 1 && r.month == end.month && r.second == end.second
      && r.day == (if end.month == 2 && end.day == 29 && !IsLeap(end.year - 1) then 28 else end.day)
  {
    var r := SubtractMonths(end, 12);
    MonthIndexDetermines(r.year, r.month, end.year - 1, end.month);
  }

  /** A month back from a day the previous month lacks lands on its last
      day; otherwise on the same day. */
  lemma MonthBack(end: DateTime)
    requires Valid(end)
    ensures var r := SubtractMonths(end, 1);
      (end.month == 1 ==> r.year == end.year - 1 && r.month == 12)
      && (end.month > 1 ==> r.year == end.year && r.month == end.month - 1)
      && r.day <= end.day
      && (r.day < end.day <==> end.day > DaysInMonth(r.year, r.month))
  {
    var r := SubtractMonths(end, 1);
    if end.month == 1 {
      MonthIndexDetermines(r.year, r.month, end.year - 1, 12);
    } else {
      MonthIndexDetermines(r.year, r.month, end.year, end.month - 1);
    }
  }

  // -------------------------------------------------------------------------
  // Leaderboard durations
  // -------------------------------------------------------------------------

  datatype Duration = Day | Week | Month | Year | AllTime

  /** 2010-01-01T00:00:00Z. */
  const AllTimeStart: DateTime := DateTime(2010, 1, 1, 0)

  /** `Duration::start_date`: Day and Week go back 86400 and 604800 seconds,
      Month and Year go back one and twelve calendar months, and All Time
      starts at 2010-01-01T00:00:00Z whatever the end. */
  function StartDate(d: Duration, end: DateTime): (start: DateTime)
    requires Valid(end)
    ensures Valid(start)
    ensures d.Day? ==> Timestamp(start) == Timestamp(end) - SecondsPerDay
    ensures d.Week? ==> Timestamp(start) == Timestamp(end) - SecondsPerWeek
    ensures d.Month? ==> MonthIndex(start.year, start.month) == MonthIndex(end.year, end.month) - 1
    ensures d.Year? ==> MonthIndex(start.year, start.month) == MonthIndex(end.year, end.month) - 12
    ensures d.AllTime? ==> start == AllTimeStart
  {
    match d
    case Day => PreviousDayIsOneDayEarlier(end); PreviousDay(end)
    case Week => DaysBackIsSeconds(end, 7); DaysBack(end, 7)
    case Month => SubtractMonths(end, 1)
    case Year => SubtractMonths(end, 12)
    case AllTime => AllTimeStart
  }

  /** Every window but All Time starts before it ends. */
  lemma StartBeforeEnd(d: Duration, end: DateTime)
    requires Valid(end) && !d.AllTime?
    ensures Timestamp(StartDate(d, end)) < Timestamp(end)
  {
    var start := StartDate(d, end);
    if d.Month? || d.Year? {
      assert start.year < end.year || (start.year == end.year && start.month < end.month);
      EarlierIsSooner(start, end);
    }
  }

  /** `Duration::to_label`. */
  function ToLabel(d: Duration): string {
    match d
    case Day => "Day"
    case Week => "Week"
    case Month => "Month"
    case Year => "Year"
    case AllTime => "All Time"
  }

  /** Different durations have different labels. */
  lemma LabelsDistinct(a: Duration, b: Duration)
    ensures ToLabel(a) == ToLabel(b) <==> a == b
  {
  }
}
