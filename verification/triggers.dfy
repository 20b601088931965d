/** The weekly and monthly publish triggers of the leaderboard scheduler
    (src/scheduler/leaderboard_task.rs). The current instant is a
    parameter. */
module Triggers {
  import opened Wrappers
  import opened Calendar

  /** `num_days_from_monday() + 1`: 1 for Monday up to 7 for Sunday.
      1 January of year 1 was a Monday in the proleptic Gregorian calendar. */
  function Weekday(t: DateTime): (w: int)
    requires Valid(t)
    ensures 1 <= w <= 7
  {
    DayNumber(t.year, t.month, t.day) % 7 + 1
  }

  /** The hour of the day, 0 to 23. */
  function Hour(t: DateTime): (h: int)
    requires Valid(t)
    ensures 0 <= h < 24
  {
    t.second / 3600
  }

  /** The day before a Monday is a Sunday, and otherwise the weekday before. */
  lemma WeekdayOfPreviousDay(t: DateTime)
    requires Valid(t)
    ensures Weekday(PreviousDay(t)) == (if Weekday(t) == 1 then 7 else Weekday(t) - 1)
  {
    PreviousDayCounted(t);
    var p := PreviousDay(t);
    WeekBefore(DayNumber(t.year, t.month, t.day), DayNumber(p.year, p.month, p.day));
  }

  lemma WeekBefore(n: int, m: int)
    requires m == n - 1
    ensures m % 7 == (if n % 7 == 0 then 6 else n % 7 - 1)
  {
  }

  /** A week back is the same weekday and hour. */
  lemma WeekdayRepeatsWeekly(t: DateTime)
    requires Valid(t)
    ensures Weekday(DaysBack(t, 7)) == Weekday(t)
    ensures Hour(DaysBack(t, 7)) == Hour(t)
  {
    DaysBackCounted(t, 7);
    var b := DaysBack(t, 7);
    WeekBack(DayNumber(t.year, t.month, t.day), DayNumber(b.year, b.month, b.day));
  }

  lemma WeekBack(n: int, m: int)
    requires m == n - 7
    ensures m % 7 == n % 7
  {
  }

  /** 2010-01-01, the start of the All Time window, was a Friday. */
  lemma AllTimeStartWeekday()
    ensures Weekday(AllTimeStart) == 5
  {
    assert DaysBeforeYear(2010) == 733772;
    assert DaysBeforeMonth(2010, 1) == 0;
  }

  /** The schedule settings; the configured days and hours are `u8` in the
      source, widened to `u32` without loss before comparing. */
  datatype SchedulerConfig = SchedulerConfig(
    weeklyDay: Option<int>,
    weeklyHour: Option<int>,
    monthlyDay: Option<int>,
    monthlyHour: Option<int>)

  /** `check_weekly_leaderboard`'s condition. */
  function WeeklyFires(config: SchedulerConfig, weekday: int, hour: int): (fires: bool)
    ensures fires <==> config.weeklyDay == Some(weekday) && config.weeklyHour == Some(hour)
  {
    match (config.weeklyDay, config.weeklyHour)
    case (Some(day), Some(h)) => weekday == day && hour == h
    case _ => false
  }

  /** `check_monthly_leaderboard`'s condition: it matches the day of the
      month. */
  function MonthlyFires(config: SchedulerConfig, dayOfMonth: int, hour: int): (fires: bool)
    ensures fires <==> config.monthlyDay == Some(dayOfMonth) && config.monthlyHour == Some(hour)
  {
    match (config.monthlyDay, config.monthlyHour)
    case (Some(day), Some(h)) => dayOfMonth == day && hour == h
    case _ => false
  }

  /** `check_and_publish_leaderboards`: the windows published at `now`,
      the weekly one first. */
  function DueLeaderboards(config: SchedulerConfig, now: DateTime): (due: seq<Duration>)
    requires Valid(now)
    ensures Week in due <==> config.weeklyDay == Some(Weekday(now)) && config.weeklyHour == Some(Hour(now))
    ensures Month in due <==> config.monthlyDay == Some(now.day) && config.monthlyHour == Some(Hour(now))
    ensures forall d :: d in due ==> d == Week || d == Month
    ensures |due| == 2 ==> due == [Week, Month]
  {
    (if WeeklyFires(config, Weekday(now), Hour(now)) then [Week] else [])
    + (if MonthlyFires(config, now.day, Hour(now)) then [Month] else [])
  }

  /** A weekly trigger fires again exactly seven days later, at the same
      hour. */
  lemma WeeklyFiresEveryWeek(config: SchedulerConfig, now: DateTime)
    requires Valid(now)
    ensures Week in DueLeaderboards(config, now) <==> Week in DueLeaderboards(config, DaysBack(now, 7))
  {
    WeekdayRepeatsWeekly(now);
  }

  /** A monthly trigger on a day the month lacks (the 31st in April, the
      30th in February) does not fire that month. */
  lemma MonthlySkipsShortMonths(config: SchedulerConfig, now: DateTime)
    requires Valid(now)
    requires config.monthlyDay.Some? && config.monthlyDay.value > DaysInMonth(now.year, now.month)
    ensures Month !in DueLeaderboards(config, now)
  {
  }

  /** Settings outside the clock's range never fire: a weekday outside 1..7
      or an hour outside 0..23. */
  lemma OutOfRangeNeverFires(config: SchedulerConfig, now: DateTime)
    requires Valid(now)
    requires config.weeklyDay.Some? && (config.weeklyDay.value < 1 || config.weeklyDay.value > 7)
    requires config.monthlyHour.Some? && config.monthlyHour.value >= 24
    ensures DueLeaderboards(config, now) == []
  {
  }
}
