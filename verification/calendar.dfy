/**
 Calendar arithmetic on integer day numbers. Day 0 is 0001-01-01 of the
 proleptic Gregorian calendar (a Monday); every JavaScript `Date` the
 application builds at local noon or midnight stands for one such day.
 The ISO week follows ISO 8601:2004, section 2.2.10 (calendar week: weeks
 start on Monday and week 1 holds the year's first Thursday) and section
 4.1.4 (week date).
 */
module Calendar {

  import opened Optional

  predicate IsLeap(y: int) {
    y % 4 == 0 && (y % 100 != 0 || y % 400 == 0)
  }

  function YearLength(y: int): int {
    if IsLeap(y) then 366 else 365
  }

  /** Days from 0001-01-01 to 1 January of year `y`. */
  function DaysBeforeYear(y: int): int {
    var a := y - 1;
    365 * a + a / 4 - a / 100 + a / 400
  }

  /** Consecutive years are one year length apart. */
  lemma NextYear(y: int)
    ensures DaysBeforeYear(y + 1) == DaysBeforeYear(y) + YearLength(y)
  {
    FloorStep4(y);
    FloorStep100(y);
    FloorStep400(y);
    LeapDivisors(y);
    assert DaysBeforeYear(y + 1) - DaysBeforeYear(y)
      == 365 + (y / 4 - (y - 1) / 4) - (y / 100 - (y - 1) / 100) + (y / 400 - (y - 1) / 400);
  }

  /** A multiple of 400 is one of 100, and a multiple of 100 one of 4. */
  lemma LeapDivisors(y: int)
    ensures y % 400 == 0 ==> y % 100 == 0
    ensures y % 100 == 0 ==> y % 4 == 0
  {
    if y % 400 == 0 {
      var j := 4 * (y / 400);
      assert y == 100 * j;
      HundredTimes(j);
    }
    if y % 100 == 0 {
      var j := 25 * (y / 100);
      assert y == 4 * j;
      FourTimes(j);
    }
  }

  lemma HundredTimes(j: int)
    ensures (100 * j) % 100 == 0
  {
  }

  lemma FourTimes(j: int)
    ensures (4 * j) % 4 == 0
  {
  }

  lemma FloorStep4(y: int)
    ensures y / 4 - (y - 1) / 4 == if y % 4 == 0 then 1 else 0
  {
  }

  lemma FloorStep100(y: int)
    ensures y / 100 - (y - 1) / 100 == if y % 100 == 0 then 1 else 0
  {
  }

  lemma FloorStep400(y: int)
    ensures y / 400 - (y - 1) / 400 == if y % 400 == 0 then 1 else 0
  {
  }

  /** Later years start later. */
  lemma {:induction false} YearsAscend(a: int, b: int)
    ensures a <= b ==> DaysBeforeYear(a) <= DaysBeforeYear(b)
    ensures a < b ==> DaysBeforeYear(a) + 365 <= DaysBeforeYear(b)
    decreases b - a
  {
    if a < b {
      YearsAscend(a, b - 1);
      NextYear(b - 1);
    }
  }

  /** The search for the year of day `n` may start at this year. */
  lemma EstimateBelow(n: int)
    ensures DaysBeforeYear(if n >= 0 then n / 366 else n / 365 - 1) <= n
  {
  }

  function YearSearch(n: int, y: int): (r: int)
    requires DaysBeforeYear(y) <= n
    ensures DaysBeforeYear(r) <= n < DaysBeforeYear(r + 1)
    decreases n - DaysBeforeYear(y)
  {
    NextYear(y);
    if n < DaysBeforeYear(y + 1) then y else YearSearch(n, y + 1)
  }

  /** The calendar year of day `n` (`getFullYear`). */
  function YearOf(n: int): (y: int)
    ensures DaysBeforeYear(y) <= n < DaysBeforeYear(y + 1)
  {
    EstimateBelow(n);
    YearSearch(n, if n >= 0 then n / 366 else n / 365 - 1)
  }

  /** Each day belongs to exactly one year. */
  lemma YearOfUnique(n: int, y: int)
    requires DaysBeforeYear(y) <= n < DaysBeforeYear(y + 1)
    ensures YearOf(n) == y
  {
    var z := YearOf(n);
    YearsAscend(z + 1, y);
    YearsAscend(y + 1, z);
  }

  /** Days of the months before month `m` (1..12) in year `y`. */
  function DaysBeforeMonth(y: int, m: int): (d: int)
    requires 1 <= m <= 12
    ensures 0 <= d <= 335
  {
    [0, 31, 59, 90, 120, 151, 181, 212, 243, 273, 304, 334][m - 1]
      + (if m > 2 && IsLeap(y) then 1 else 0)
  }

  /** The day number of the calendar date `y-m-d` (`m` in 1..12). */
  function DayOf(y: int, m: int, d: int): int
    requires 1 <= m <= 12
  {
    DaysBeforeYear(y) + DaysBeforeMonth(y, m) + d - 1
  }

  /** ECMAScript `MakeDay`: a month index outside 0..11 rolls into the
      neighbouring years and a day outside the month into the neighbouring
      months, so every triple names some day. */
  function MakeDay(y: int, monthIndex: int, d: int): int {
    DayOf(y + monthIndex / 12, monthIndex % 12 + 1, d)
  }

  /** The `Date` constructor reads a year of 0..99 as 1900..1999. */
  function FullYear(y: int): int {
    if 0 <= y <= 99 then 1900 + y else y
  }

  /** A JavaScript `Date` reduced to its local calendar day; a date built
      from a `NaN` component is the Invalid Date. */
  datatype JsDate = InvalidDate | Day(n: int)

  /** `new Date(y, mi, d, 12, 0, 0)` where a `None` component is `NaN`. */
  function NewDate(y: Option<int>, mi: Option<int>, d: Option<int>): (r: JsDate)
    ensures r.InvalidDate? <==> y.None? || mi.None? || d.None?
  {
    if y.Some? && mi.Some? && d.Some? then Day(MakeDay(FullYear(y.value), mi.value, d.value))
    else InvalidDate
  }

  /** Day of the week, Monday = 1 .. Sunday = 7 (`getUTCDay() || 7`). */
  function Weekday(n: int): (w: int)
    ensures 1 <= w <= 7
  {
    n % 7 + 1
  }

  /** The Thursday of the Monday-to-Sunday week holding day `n`. */
  function Thursday(n: int): (t: int)
    ensures n - 3 <= t <= n + 3
    ensures Weekday(t) == 4
  {
    n + 4 - Weekday(n)
  }

  /** The year that owns the ISO week of day `n`: the year of its Thursday. */
  function WeekYear(n: int): int {
    YearOf(Thursday(n))
  }

  /** `getISOWeek`: `ceil((days from 1 January of the Thursday's year to the
      Thursday, plus one) / 7)`. */
  function ISOWeek(n: int): (w: int)
    ensures 1 <= w <= 53
  {
    var t := Thursday(n);
    var y := YearOf(t);
    NextYear(y);
    (t - DaysBeforeYear(y) + 1 + 6) / 7
  }

  /** All seven days Monday..Sunday of one week share week number and year. */
  lemma SameWeek(monday: int, k: int)
    requires Weekday(monday) == 1 && 0 <= k < 7
    ensures Thursday(monday + k) == Thursday(monday)
    ensures ISOWeek(monday + k) == ISOWeek(monday)
    ensures WeekYear(monday + k) == WeekYear(monday)
  {
    SameThursday(monday, k);
    WeekOfThursday(monday + k, monday);
  }

  lemma SameThursday(monday: int, k: int)
    requires Weekday(monday) == 1 && 0 <= k < 7
    ensures Thursday(monday + k) == Thursday(monday)
  {
    assert monday % 7 == 0;
    assert (monday + k) % 7 == k;
  }

  /** Week number and week-owning year depend only on the week's Thursday. */
  lemma WeekOfThursday(a: int, b: int)
    requires Thursday(a) == Thursday(b)
    ensures ISOWeek(a) == ISOWeek(b) && WeekYear(a) == WeekYear(b)
  {
  }

  /** 4 January is always in week 1 of its own year. */
  lemma FourthOfJanuaryInWeekOne(y: int)
    ensures ISOWeek(DayOf(y, 1, 4)) == 1
    ensures WeekYear(DayOf(y, 1, 4)) == y
  {
    var n := DayOf(y, 1, 4);
    var t := Thursday(n);
    NextYear(y);
    YearOfUnique(t, y);
  }

  /** Week 1 holds the first Thursday of the year: the Thursday in 1..7 January. */
  lemma FirstThursdayInWeekOne(y: int, d: int)
    requires 1 <= d <= 7 && Weekday(DayOf(y, 1, d)) == 4
    ensures ISOWeek(DayOf(y, 1, d)) == 1 && WeekYear(DayOf(y, 1, d)) == y
  {
    var n := DayOf(y, 1, d);
    NextYear(y);
    YearOfUnique(n, y);
  }
}
