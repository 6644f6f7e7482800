/**
 The turn of the year 2024/2025 as day numbers: the worked dates behind the
 week-number findings. 2024-12-30 is a Monday whose ISO week is week 1 of
 2025 while its calendar year is 2024.
 */
module CalendarFacts {

  import opened Calendar

  /** A day of year `y` whose week's Thursday `t` lies in year `wy`. */
  lemma DayInWeek(n: int, y: int, t: int, wy: int)
    requires DaysBeforeYear(y) <= n < DaysBeforeYear(y + 1)
    requires Thursday(n) == t && DaysBeforeYear(wy) <= t < DaysBeforeYear(wy + 1)
    ensures YearOf(n) == y && WeekYear(n) == wy
    ensures ISOWeek(n) == (t - DaysBeforeYear(wy) + 7) / 7
  {
    YearOfUnique(n, y);
    YearOfUnique(t, wy);
  }

  lemma YearStarts()
    ensures DaysBeforeYear(2024) == 738885 && DaysBeforeYear(2025) == 739251 && DaysBeforeYear(2026) == 739616
  {
  }

  /** 2024-01-01, a Monday in week 1 of 2024. */
  lemma NewYear2024()
    ensures DayOf(2024, 1, 1) == 738885
    ensures ISOWeek(738885) == 1 && YearOf(738885) == 2024 && WeekYear(738885) == 2024 && Thursday(738885) == 738888
  {
    YearStarts();
    DayInWeek(738885, 2024, 738888, 2024);
  }

  /** 2024-01-03, a Wednesday in week 1 of 2024. */
  lemma EarlyJanuary2024()
    ensures DayOf(2024, 1, 3) == 738887
    ensures ISOWeek(738887) == 1 && YearOf(738887) == 2024 && WeekYear(738887) == 2024 && Thursday(738887) == 738888
  {
    YearStarts();
    DayInWeek(738887, 2024, 738888, 2024);
  }

  /** 2024-12-30, a Monday in week 1 of 2025, in calendar year 2024. */
  lemma LateDecember2024()
    ensures DayOf(2024, 12, 30) == 739249 && Weekday(739249) == 1
    ensures ISOWeek(739249) == 1 && YearOf(739249) == 2024 && WeekYear(739249) == 2025 && Thursday(739249) == 739252
  {
    YearStarts();
    DayInWeek(739249, 2024, 739252, 2025);
  }

  /** 2025-01-01, a Wednesday in week 1 of 2025. */
  lemma NewYear2025()
    ensures DayOf(2025, 1, 1) == 739251
    ensures ISOWeek(739251) == 1 && YearOf(739251) == 2025 && WeekYear(739251) == 2025 && Thursday(739251) == 739252
  {
    YearStarts();
    DayInWeek(739251, 2025, 739252, 2025);
  }
}
