/**
 The container card: the schedule deviation (late / early / on time), the
 "collect week" test behind the NA SEMANA badge, the admin buttons offered
 in each lifecycle stage, and the item lists the card shows. The current
 card lives in `components/ContainerCard.tsx`; an older copy at the
 repository root shares its date helpers and deviation rule but differs in
 its buttons, its item list and a badge no input can reach.

 Time: `today` is the local midnight of day `today`; `parseDate` builds
 dates at local noon. Timestamps are milliseconds, and `NaN` (the time of
 the Invalid Date) is `None`, against which every comparison is false.
 */
module Card {

  import opened Optional
  import opened Text
  import opened Calendar
  import opened CalendarFacts
  import opened Dates
  import opened Domain

  // ----- Timestamps -----

  const MsPerDay: int := 86400000

  /** `getTime()` of the local midnight that starts day `n`. */
  function Midnight(n: int): int {
    n * MsPerDay
  }

  /** `getTime()` of local noon of day `n`, the hour `parseDate` sets. */
  function Noon(n: int): int {
    n * MsPerDay + MsPerDay / 2
  }

  /** `getTime()` of a parsed date. */
  function NoonTime(d: JsDate): Option<int> {
    match d
    case Day(n) => Some(Noon(n))
    case InvalidDate => None
  }

  /** `new Date(d).setHours(0, 0, 0, 0)`: the midnight of the same day. */
  function MidnightTime(d: JsDate): Option<int> {
    match d
    case Day(n) => Some(Midnight(n))
    case InvalidDate => None
  }

  /** JavaScript `a > b` on numbers: false when either side is `NaN`. */
  predicate Greater(a: Option<int>, b: Option<int>) {
    a.Some? && b.Some? && a.value > b.value
  }

  /** JavaScript `a <= b` on numbers: false when either side is `NaN`. */
  predicate AtMost(a: Option<int>, b: Option<int>) {
    a.Some? && b.Some? && a.value <= b.value
  }

  /** The day of a date; `None` for the Invalid Date. */
  function DayNumber(d: JsDate): Option<int> {
    if d.Day? then Some(d.n) else None
  }

  /** The day of a parsed date; `None` for `null` and the Invalid Date. */
  function ParsedDay(d: Option<JsDate>): (r: Option<int>)
    ensures r.Some? <==> d.Some? && d.value.Day?
  {
    if d.Some? then DayNumber(d.value) else None
  }

  /** The three dates a card parses: `start`, `end` and `pickupDate`. */
  datatype CardDates = CardDates(start: Option<JsDate>, end: Option<JsDate>, pickup: Option<JsDate>)

  /** `parseDate` of the card's start, end and pickup fields. */
  function DatesOf(c: Container): CardDates {
    CardDates(ParseDate(c.dateStart), ParseDate(c.dateEnd), ParseDate(c.datePickup))
  }

  /** Comparing midnights, or a midnight with a noon, is comparing days. */
  lemma MidnightOrder(a: int, b: int)
    ensures Midnight(a) > Midnight(b) <==> a > b
    ensures Midnight(a) > Noon(b) <==> a > b
    ensures Midnight(a) >= Noon(b) <==> a > b
    ensures Midnight(a) <= Noon(b) <==> a <= b
  {
  }

  /** Midnight comparisons of two dates are comparisons of their days. */
  lemma MidnightTimesOrder(x: JsDate, y: JsDate)
    ensures Greater(MidnightTime(x), MidnightTime(y)) <==> Greater(DayNumber(x), DayNumber(y))
  {
    if x.Day? && y.Day? {
      MidnightOrder(x.n, y.n);
    }
  }

  /** Today's midnight against a parsed date's noon is today against its day. */
  lemma TodayAgainstNoon(today: int, d: JsDate)
    ensures Greater(Some(Midnight(today)), NoonTime(d)) <==> Greater(Some(today), DayNumber(d))
    ensures AtMost(Some(Midnight(today)), NoonTime(d)) <==> AtMost(Some(today), DayNumber(d))
    ensures AtMost(NoonTime(d), Some(Midnight(today))) <==> Greater(Some(today), DayNumber(d))
  {
    if d.Day? {
      MidnightOrder(today, d.n);
    }
  }

  // ----- Deviation -----

  /** `deviationType`: 'none' | 'early' | 'late'. */
  datatype Deviation = NoDeviation | Early | Late

  /** The deviation's text, as the card holds it. */
  function DeviationText(d: Deviation): (s: string)
    ensures |s| > 0
  {
    match d
    case NoDeviation => "none"
    case Early => "early"
    case Late => "late"
  }

  /** The pickup against the `start`..`end` window, on midnights: late
      after `end`, early before `start`, otherwise none. */
  function Classify(p: JsDate, s: JsDate, e: JsDate): Deviation {
    if Greater(MidnightTime(p), MidnightTime(e)) then Late
    else if Greater(MidnightTime(s), MidnightTime(p)) then Early
    else NoDeviation
  }

  /** `deviationType` of a card, with today at local midnight of day `today`.
      A shipped container (transit or yard) is judged by its pickup day
      against the inclusive window, late taking precedence; a container still
      in planning can only be late, once today is past its last day. */
  function DeviationOf(status: Status, d: CardDates, today: int): (r: Deviation)
    ensures status == Planning ==> r != Early
    ensures status == Planning ==> (r == Late <==> Greater(Some(today), ParsedDay(d.end)))
    ensures status != Planning && (d.pickup.None? || d.start.None? || d.end.None?) ==> r == NoDeviation
    ensures status != Planning && d.pickup.Some? && d.start.Some? && d.end.Some? ==>
      (r == Late <==> Greater(ParsedDay(d.pickup), ParsedDay(d.end)))
      && (r == Early <==> Greater(ParsedDay(d.start), ParsedDay(d.pickup)) && !Greater(ParsedDay(d.pickup), ParsedDay(d.end)))
  {
    if status != Planning && d.pickup.Some? && d.start.Some? && d.end.Some? then
      MidnightTimesOrder(d.pickup.value, d.end.value);
      MidnightTimesOrder(d.start.value, d.pickup.value);
      Classify(d.pickup.value, d.start.value, d.end.value)
    else if status == Planning && d.end.Some? then
      TodayAgainstNoon(today, d.end.value);
      if Greater(Some(Midnight(today)), NoonTime(d.end.value)) then Late else NoDeviation
    else NoDeviation
  }

  /** With all three dates known, a shipped container is late exactly when
      picked up after the window, early exactly when picked up before it,
      and on time exactly when picked up inside it, bounds included. */
  lemma DeviationWindow(status: Status, today: int, p: int, s: int, e: int)
    requires status != Planning
    ensures var r := DeviationOf(status, CardDates(Some(Day(s)), Some(Day(e)), Some(Day(p))), today);
      && (r == Late <==> p > e)
      && (r == Early <==> p < s && p <= e)
      && (r == NoDeviation <==> s <= p <= e)
  {
  }

  /** An Invalid Date in the window never makes a shipped container late or early
      through the missing bound. */
  lemma DeviationInvalidEnd(status: Status, today: int, p: int, s: int)
    requires status != Planning
    ensures DeviationOf(status, CardDates(Some(Day(s)), Some(InvalidDate), Some(Day(p))), today)
      == if p < s then Early else NoDeviation
  {
  }

  /** A planning container turns late the day after its deadline and stays so. */
  lemma PlanningLateAfterDeadline(d: CardDates, today: int, later: int)
    requires DeviationOf(Planning, d, today) == Late && today <= later
    ensures DeviationOf(Planning, d, later) == Late
  {
  }

  // ----- Collect week (current card) -----

  /** `getISOWeek` of a date; `NaN` for the Invalid Date. */
  function WeekOf(d: JsDate): Option<int> {
    if d.Day? then Some(ISOWeek(d.n)) else None
  }

  /** `getFullYear()` of a date; `NaN` for the Invalid Date. */
  function FullYearOf(d: JsDate): Option<int> {
    if d.Day? then Some(YearOf(d.n)) else None
  }

  /** The year owning the ISO week of a date; `NaN` for the Invalid Date. */
  function WeekYearOf(d: JsDate): Option<int> {
    if d.Day? then Some(WeekYear(d.n)) else None
  }

  /** `relevantDateForWeek`: the deadline while planning, the pickup otherwise. */
  function RelevantDate(status: Status, d: CardDates): Option<JsDate> {
    if status == Planning then d.end else d.pickup
  }

  /** `isCollectWeek` as written: the relevant date has today's ISO week
      number and today's CALENDAR year, and the container is not in the yard. */
  function CollectWeek(status: Status, d: CardDates, today: int): (r: bool)
    ensures status == Yard ==> !r
    ensures r <==> (status != Yard && ParsedDay(RelevantDate(status, d)).Some?
                    && ISOWeek(ParsedDay(RelevantDate(status, d)).value) == ISOWeek(today)
                    && YearOf(ParsedDay(RelevantDate(status, d)).value) == YearOf(today))
  {
    var rel := RelevantDate(status, d);
    rel.Some? && WeekOf(rel.value) == Some(ISOWeek(today))
      && FullYearOf(rel.value) == Some(YearOf(today)) && status != Yard
  }

  /** Two days share ISO week number and week-owning year exactly when they
      lie in the same Monday-to-Sunday week. */
  lemma WeekIdentity(a: int, b: int)
    ensures ISOWeek(a) == ISOWeek(b) && WeekYear(a) == WeekYear(b) <==> Thursday(a) == Thursday(b)
  {
    var ta, tb := Thursday(a), Thursday(b);
    if ISOWeek(a) == ISOWeek(b) && WeekYear(a) == WeekYear(b) {
      var y := YearOf(ta);
      assert YearOf(tb) == y;
      var ka := ta - DaysBeforeYear(y) + 7;
      var kb := tb - DaysBeforeYear(y) + 7;
      assert ka / 7 == kb / 7;
      assert ta % 7 == 3 && tb % 7 == 3;
      SameRemainderSameQuotient(ka, kb, ta, tb);
    }
  }

  /** Numbers with the same quotient by 7 that differ by a multiple of 7 are equal. */
  lemma SameRemainderSameQuotient(ka: int, kb: int, ta: int, tb: int)
    requires ka / 7 == kb / 7 && ka - kb == ta - tb && ta % 7 == tb % 7
    ensures ta == tb
  {
    assert (ta - tb) % 7 == 0;
    assert -7 < ka - kb < 7;
  }

  /** The collect-week test as evidently intended: the relevant date lies in
      today's ISO week, compared by week number AND week-owning year. */
  function CollectWeekByIsoWeek(status: Status, d: CardDates, today: int): (r: bool)
    ensures status == Yard ==> !r
    ensures r <==> (status != Yard && ParsedDay(RelevantDate(status, d)).Some?
                    && Thursday(ParsedDay(RelevantDate(status, d)).value) == Thursday(today))
  {
    var rel := RelevantDate(status, d);
    if rel.Some? && rel.value.Day? then
      WeekIdentity(rel.value.n, today);
      WeekOf(rel.value) == Some(ISOWeek(today)) && WeekYearOf(rel.value) == Some(WeekYear(today)) && status != Yard
    else false
  }

  /** The corrected test flags the container on all seven days of its week. */
  lemma CollectWeekAllWeek(status: Status, d: CardDates, monday: int, k: int)
    requires Weekday(monday) == 1 && 0 <= k < 7
    requires CollectWeekByIsoWeek(status, d, monday)
    ensures CollectWeekByIsoWeek(status, d, monday + k)
  {
    SameWeek(monday, k);
  }

  /** Within one calendar year, the as-written test agrees with the corrected one. */
  lemma CollectWeekSameYear(status: Status, d: CardDates, today: int)
    requires CollectWeekByIsoWeek(status, d, today)
    requires YearOf(ParsedDay(RelevantDate(status, d)).value) == YearOf(today)
    ensures CollectWeek(status, d, today)
  {
    WeekIdentity(ParsedDay(RelevantDate(status, d)).value, today);
  }

  /** The NA SEMANA badge: the collect-week test as written and neither
      early nor late. */
  function NaSemanaBadge(status: Status, d: CardDates, today: int): (shown: bool)
    ensures shown <==> (status != Yard && ParsedDay(RelevantDate(status, d)).Some?
                        && ISOWeek(ParsedDay(RelevantDate(status, d)).value) == ISOWeek(today)
                        && YearOf(ParsedDay(RelevantDate(status, d)).value) == YearOf(today)
                        && DeviationOf(status, d, today) == NoDeviation)
  {
    CollectWeek(status, d, today) && DeviationOf(status, d, today) == NoDeviation
  }

  /** The badge on the corrected collect-week test: the relevant date lies in
      today's Monday-to-Sunday week and the container is neither early nor late. */
  function NaSemanaBadgeByIsoWeek(status: Status, d: CardDates, today: int): (shown: bool)
    ensures shown <==> (status != Yard && ParsedDay(RelevantDate(status, d)).Some?
                        && Thursday(ParsedDay(RelevantDate(status, d)).value) == Thursday(today)
                        && DeviationOf(status, d, today) == NoDeviation)
  {
    CollectWeekByIsoWeek(status, d, today) && DeviationOf(status, d, today) == NoDeviation
  }

  /** A planning container shows the badge exactly when its deadline has
      today's week number and calendar year and has not passed. */
  lemma NaSemanaPlanning(d: CardDates, e: int, today: int)
    requires d.end == Some(Day(e))
    ensures NaSemanaBadge(Planning, d, today)
      <==> ISOWeek(e) == ISOWeek(today) && YearOf(e) == YearOf(today) && today <= e
  {
  }

  // ----- Collect week: the calendar-year counterexample -----

  /** A planning container due 2024-12-30 is flagged on 2024-01-03, a year
      early: same week number and same calendar year, 51 weeks apart. */
  lemma CollectWeekYearMismatch(c: Container)
    requires c.status == Planning && c.dateEnd == IsoText(2024, 12, 30)
    ensures CollectWeek(c.status, DatesOf(c), DayOf(2024, 1, 3))
    ensures !CollectWeekByIsoWeek(c.status, DatesOf(c), DayOf(2024, 1, 3))
  {
    DueLateDecember(c);
    SameNumberDifferentWeek();
    MismatchOnDays(DatesOf(c), DayOf(2024, 12, 30), DayOf(2024, 1, 3));
  }

  /** The same container, seen on 2024-01-03, shows the NA SEMANA badge
      although its deadline is 51 weeks away; the corrected badge does not. */
  lemma NaSemanaYearEarly(c: Container)
    requires c.status == Planning && c.dateEnd == IsoText(2024, 12, 30)
    ensures NaSemanaBadge(c.status, DatesOf(c), DayOf(2024, 1, 3))
    ensures !NaSemanaBadgeByIsoWeek(c.status, DatesOf(c), DayOf(2024, 1, 3))
  {
    CollectWeekYearMismatch(c);
    DueLateDecember(c);
    assert DayOf(2024, 1, 3) <= DayOf(2024, 12, 30);
  }

  lemma DueLateDecember(c: Container)
    requires c.dateEnd == IsoText(2024, 12, 30)
    ensures DatesOf(c).end == Some(Day(DayOf(2024, 12, 30)))
  {
    ParseCalendarDate(2024, 12, 30);
  }

  lemma SameNumberDifferentWeek()
    ensures ISOWeek(DayOf(2024, 12, 30)) == ISOWeek(DayOf(2024, 1, 3))
    ensures YearOf(DayOf(2024, 12, 30)) == YearOf(DayOf(2024, 1, 3))
    ensures Thursday(DayOf(2024, 12, 30)) != Thursday(DayOf(2024, 1, 3))
  {
    LateDecember2024();
    EarlyJanuary2024();
  }

  /** Same week number and calendar year but different weeks: the two tests disagree. */
  lemma MismatchOnDays(d: CardDates, n: int, today: int)
    requires d.end == Some(Day(n))
    requires ISOWeek(n) == ISOWeek(today) && YearOf(n) == YearOf(today) && Thursday(n) != Thursday(today)
    ensures CollectWeek(Planning, d, today)
    ensures !CollectWeekByIsoWeek(Planning, d, today)
  {
  }

  // ----- The older card's SEMANA ATUAL badge -----

  /** `!deviationType && isPlanning && start && end && today >= start && today <= end`,
      as written: `!` of a non-empty string is false. The conjuncts are pure,
      so the deviation test is taken last. */
  function SemanaAtualAsWritten(status: Status, d: CardDates, today: int): (shown: bool)
    ensures !shown
  {
    status == Planning && d.start.Some? && d.end.Some?
      && AtMost(NoonTime(d.start.value), Some(Midnight(today)))
      && AtMost(Some(Midnight(today)), NoonTime(d.end.value))
      && DeviationText(DeviationOf(status, d, today)) == ""
  }

  /** The badge with the deviation test meant: `deviationType === 'none'`.
      Shown exactly for a planning container whose window holds today (after
      the start day's noon, up to the end day); such a container is never late. */
  function SemanaAtual(status: Status, d: CardDates, today: int): (shown: bool)
    ensures shown <==> (status == Planning && ParsedDay(d.start).Some? && ParsedDay(d.end).Some?
                        && ParsedDay(d.start).value < today <= ParsedDay(d.end).value)
    ensures shown ==> DeviationOf(status, d, today) == NoDeviation
  {
    if status == Planning && d.start.Some? && d.end.Some? then
      TodayAgainstNoon(today, d.start.value);
      TodayAgainstNoon(today, d.end.value);
      DeviationOf(status, d, today) == NoDeviation
        && AtMost(NoonTime(d.start.value), Some(Midnight(today)))
        && AtMost(Some(Midnight(today)), NoonTime(d.end.value))
    else false
  }

  /** The corrected badge is reachable: a container planned for 1..7 January
      2024, seen on 3 January. */
  lemma SemanaAtualReachable(c: Container)
    requires c.status == Planning && c.dateStart == IsoText(2024, 1, 1) && c.dateEnd == IsoText(2024, 1, 7)
    ensures SemanaAtual(c.status, DatesOf(c), DayOf(2024, 1, 3))
    ensures !SemanaAtualAsWritten(c.status, DatesOf(c), DayOf(2024, 1, 3))
  {
    ParseCalendarDate(2024, 1, 1);
    ParseCalendarDate(2024, 1, 7);
    assert DayOf(2024, 1, 3) == DayOf(2024, 1, 1) + 2;
    assert DayOf(2024, 1, 7) == DayOf(2024, 1, 1) + 6;
    SemanaAtualOnDays(DatesOf(c), DayOf(2024, 1, 1), DayOf(2024, 1, 7), DayOf(2024, 1, 3));
  }

  /** A planning window `s..e` that holds today shows the corrected badge only. */
  lemma SemanaAtualOnDays(d: CardDates, s: int, e: int, today: int)
    requires d.start == Some(Day(s)) && d.end == Some(Day(e)) && s < today <= e
    ensures SemanaAtual(Planning, d, today)
    ensures !SemanaAtualAsWritten(Planning, d, today)
  {
  }

  // ----- Admin buttons -----

  /** The card's buttons: EMBARCAR (register shipment), edit, delete, RECEBER. */
  datatype Action = Ship | Edit | Delete | Receive

  /** The buttons the current card offers. */
  function AdminActions(status: Status, isAdmin: bool): (r: set<Action>)
    ensures !isAdmin ==> r == {}
    ensures isAdmin ==> (Ship in r <==> status == Planning)
    ensures isAdmin ==> (Edit in r <==> status == Transit) && (Receive in r <==> status == Transit)
    ensures isAdmin ==> (Delete in r <==> status != Yard)
  {
    if !isAdmin then {}
    else
      (if status == Planning then {Ship} else {})
      + (if status == Transit then {Edit, Receive} else {})
      + (if status == Planning || status == Transit then {Delete} else {})
  }

  /** The lifecycle the buttons encode: planning is shipped or deleted,
      transit is edited, received or deleted, and the yard is final. */
  lemma ActionsFollowLifecycle(isAdmin: bool)
    requires isAdmin
    ensures AdminActions(Planning, isAdmin) == {Ship, Delete}
    ensures AdminActions(Transit, isAdmin) == {Edit, Delete, Receive}
    ensures AdminActions(Yard, isAdmin) == {}
  {
    assert Ship !in AdminActions(Transit, isAdmin);
  }

  /** The buttons the older card offers; clicking the card itself also opens
      the shipment form for an admin, in every status. */
  function LegacyActions(status: Status, isAdmin: bool): (r: set<Action>)
    ensures !isAdmin ==> r == {}
    ensures isAdmin ==> Delete in r && Ship in r
    ensures isAdmin ==> (Edit in r <==> status == Transit) && (Receive in r <==> status == Transit)
  {
    if !isAdmin then {}
    else {Ship, Delete} + (if status == Transit then {Edit, Receive} else {})
  }

  /** The older card offers delete, and the shipment form, even in the yard. */
  lemma LegacyDeletesInYard()
    ensures Delete in LegacyActions(Yard, true) && Delete !in AdminActions(Yard, true)
  {
  }

  // ----- Items on the card -----

  /** The items whose description is not blank, in order. */
  function NonBlankItems(items: seq<Item>): (r: seq<Item>)
    ensures |r| <= |items|
    ensures forall x :: x in r <==> x in items && !IsBlank(x.desc)
    ensures forall x :: multiset(r)[x] == if IsBlank(x.desc) then 0 else multiset(items)[x]
  {
    if |items| == 0 then []
    else
      assert items == [items[0]] + items[1..];
      if !IsBlank(items[0].desc) then [items[0]] + NonBlankItems(items[1..])
      else NonBlankItems(items[1..])
  }

  /** The filter distributes over concatenation, so it keeps the items'
      relative order. */
  lemma {:induction false} NonBlankItemsAppend(a: seq<Item>, b: seq<Item>)
    ensures NonBlankItems(a + b) == NonBlankItems(a) + NonBlankItems(b)
    decreases |a|
  {
    if |a| > 0 {
      assert (a + b)[0] == a[0];
      assert (a + b)[1..] == a[1..] + b;
      NonBlankItemsAppend(a[1..], b);
    } else {
      assert a + b == b;
    }
  }

  /** `programmedItems`: planned items with a description. */
  function ProgrammedItems(items: seq<Item>): (r: seq<Item>)
    ensures forall x :: x in r <==> x in items && !x.isExtra && !IsBlank(x.desc)
    ensures forall x :: multiset(r)[x] == if x.isExtra || IsBlank(x.desc) then 0 else multiset(items)[x]
  {
    if |items| == 0 then []
    else
      assert items == [items[0]] + items[1..];
      if !items[0].isExtra && !IsBlank(items[0].desc) then [items[0]] + ProgrammedItems(items[1..])
      else ProgrammedItems(items[1..])
  }

  /** The filter distributes over concatenation, so it keeps the items'
      relative order. */
  lemma {:induction false} ProgrammedItemsAppend(a: seq<Item>, b: seq<Item>)
    ensures ProgrammedItems(a + b) == ProgrammedItems(a) + ProgrammedItems(b)
    decreases |a|
  {
    if |a| > 0 {
      assert (a + b)[0] == a[0];
      assert (a + b)[1..] == a[1..] + b;
      ProgrammedItemsAppend(a[1..], b);
    } else {
      assert a + b == b;
    }
  }

  /** The programmed items are the non-blank ones among the planned items. */
  lemma {:induction false} ProgrammedIsPlannedNonBlank(items: seq<Item>)
    ensures ProgrammedItems(items) == NonBlankItems(ItemsWithFlag(items, false))
    decreases |items|
  {
    if |items| > 0 {
      ProgrammedIsPlannedNonBlank(items[1..]);
      if !items[0].isExtra {
        assert ItemsWithFlag(items, false) == [items[0]] + ItemsWithFlag(items[1..], false);
        assert ([items[0]] + ItemsWithFlag(items[1..], false))[1..] == ItemsWithFlag(items[1..], false);
      }
    }
  }

  /** `extraItemsCount` */
  function ExtraItemsCount(items: seq<Item>): (n: nat)
    ensures n + |ItemsWithFlag(items, false)| == |items|
  {
    ItemsWithFlagPartition(items);
    |ItemsWithFlag(items, true)|
  }

  /** The card never shows more item lines than there are items. */
  lemma CardLinesBounded(items: seq<Item>)
    ensures |ProgrammedItems(items)| + ExtraItemsCount(items) <= |items|
  {
    ProgrammedIsPlannedNonBlank(items);
  }

  /** The older card's `displayItems`: the first three items with a description. */
  function DisplayItems(items: seq<Item>): (r: seq<Item>)
    ensures |r| <= 3
    ensures |r| == if |NonBlankItems(items)| < 3 then |NonBlankItems(items)| else 3
    ensures r == NonBlankItems(items)[..|r|]
    ensures forall x :: x in r ==> x in items && !IsBlank(x.desc)
  {
    var valid := NonBlankItems(items);
    if |valid| <= 3 then valid else valid[..3]
  }

  /** A card with at most three described items shows all of them. */
  lemma DisplayItemsAll(items: seq<Item>)
    requires |NonBlankItems(items)| <= 3
    ensures DisplayItems(items) == NonBlankItems(items)
  {
  }
}
