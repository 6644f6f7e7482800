/**
 The "new programme" form: the smart identifier `CONT-NN-W{week}/{yy}`
 derived from the start date and the containers already listed, the running
 m³ total of the visible item rows, the per-field item edit, and the clean-up
 that blanks hidden rows before saving.
 */
module CreateForm {

  import opened Optional
  import opened Text
  import opened Numbers
  import opened Calendar
  import opened CalendarFacts
  import opened Dates
  import opened Domain
  import opened Volume

  // ----- The smart identifier -----

  /** `data_inicio.split('-')` read as `new Date(y, m - 1, d, 12, 0, 0)`;
      a missing piece reads as `parseInt(undefined)`, which is `NaN`. */
  function StartDate(dataInicio: string): JsDate {
    DateOfParts(Split(dataInicio, '-'))
  }

  /** `[y, m, d]` of the split text read as `new Date(y, m - 1, d, 12, 0, 0)`. */
  function DateOfParts(parts: seq<string>): JsDate {
    NewDate(ParseInt(Part(parts, 0)), MinusOne(ParseInt(Part(parts, 1))), ParseInt(Part(parts, 2)))
  }

  /** `${getISOWeek(date)}`: the week number, or "NaN". */
  function WeekText(d: JsDate): (s: string)
    ensures |s| > 0
  {
    if d.Day? then NatToString(ISOWeek(d.n)) else "NaN"
  }

  /** `date.getFullYear().toString().slice(-2)`: the last two characters of
      the calendar year, or of "NaN". */
  function YearText(d: JsDate): (s: string)
    ensures |s| <= 2
  {
    if d.Day? then Last(IntToString(YearOf(d.n)), 2) else Last("NaN", 2)
  }

  /** `W${weekNum}/${targetYear}` as written: the ISO week number with the
      CALENDAR year of the date. */
  function Suffix(d: JsDate): (s: string)
    ensures |s| >= 3 && s[0] == 'W' && '/' in s
  {
    var s := "W" + WeekText(d) + "/" + YearText(d);
    assert s[1 + |WeekText(d)|] == '/';
    s
  }

  /** `c.id && c.id.includes(suffix)` */
  predicate HoldsSuffix(id: string, suffix: string) {
    id != "" && Contains(id, suffix)
  }

  /** The number of listed containers whose id holds the suffix. */
  function CountWithSuffix(cs: seq<Container>, suffix: string): (n: nat)
    ensures n <= |cs|
  {
    if |cs| == 0 then 0
    else (if HoldsSuffix(cs[0].id, suffix) then 1 else 0) + CountWithSuffix(cs[1..], suffix)
  }

  /** `CONT-${String(k).padStart(2, '0')}-${suffix}` */
  function IdFor(k: nat, suffix: string): string {
    "CONT-" + Pad2(NatToString(k)) + "-" + suffix
  }

  /** The id after the listed ids holding `suffix`. */
  function NextId(existing: seq<Container>, suffix: string): (id: string)
    ensures HoldsSuffix(id, suffix)
  {
    IdHoldsSuffix(CountWithSuffix(existing, suffix) + 1, suffix);
    IdFor(CountWithSuffix(existing, suffix) + 1, suffix)
  }

  /** `generateSmartID`: nothing while the start date is empty, otherwise the
      next sequence number after the ids already holding the suffix. */
  function GenerateSmartId(dataInicio: string, existing: seq<Container>): (r: Option<string>)
    ensures r.None? <==> dataInicio == ""
    ensures r.Some? ==> HoldsSuffix(r.value, Suffix(StartDate(dataInicio)))
  {
    if dataInicio == "" then None
    else Some(NextId(existing, Suffix(StartDate(dataInicio))))
  }

  /** Every generated id holds its own suffix. */
  lemma IdHoldsSuffix(k: nat, suffix: string)
    ensures HoldsSuffix(IdFor(k, suffix), suffix)
  {
    var prefix := "CONT-" + Pad2(NatToString(k)) + "-";
    assert IdFor(k, suffix) == prefix + suffix;
    assert OccursAt(IdFor(k, suffix), suffix, |prefix|);
  }

  /** One more listed container holding the suffix raises the count by one;
      any other leaves it unchanged. */
  lemma {:induction false} CountAppend(cs: seq<Container>, c: Container, suffix: string)
    ensures CountWithSuffix(cs + [c], suffix)
      == CountWithSuffix(cs, suffix) + if HoldsSuffix(c.id, suffix) then 1 else 0
    decreases |cs|
  {
    if |cs| > 0 {
      assert (cs + [c])[1..] == cs[1..] + [c];
      CountAppend(cs[1..], c, suffix);
    } else {
      assert (cs + [c])[1..] == [];
    }
  }

  /** With no listed id holding the suffix the sequence starts at 01. */
  lemma FirstOfItsWeek(existing: seq<Container>, suffix: string)
    requires forall c :: c in existing ==> !HoldsSuffix(c.id, suffix)
    ensures NextId(existing, suffix) == "CONT-01-" + suffix
  {
    NoneHold(existing, suffix);
    assert NatToString(1) == "1";
    assert Pad2("1") == "01";
  }

  lemma {:induction false} NoneHold(cs: seq<Container>, suffix: string)
    requires forall c :: c in cs ==> !HoldsSuffix(c.id, suffix)
    ensures CountWithSuffix(cs, suffix) == 0
    decreases |cs|
  {
    if |cs| > 0 {
      assert cs[0] in cs;
      NoneHold(cs[1..], suffix);
    }
  }

  /** A listed container holding the suffix moves the next id one number up. */
  lemma NextAfterOneMore(existing: seq<Container>, c: Container, suffix: string)
    requires HoldsSuffix(c.id, suffix)
    ensures NextId(existing + [c], suffix) == IdFor(CountWithSuffix(existing, suffix) + 2, suffix)
  {
    CountAppend(existing, c, suffix);
  }

  /** The sequence field of an id reads back as its number. */
  lemma IdSequenceRoundTrip(k: nat, suffix: string)
    requires '-' !in suffix
    ensures Split(IdFor(k, suffix), '-') == ["CONT", Pad2(NatToString(k)), suffix]
    ensures ParseInt(Split(IdFor(k, suffix), '-')[1]) == Some(k)
  {
    var seqText := Pad2(NatToString(k));
    ParseIntOfPadded(k);
    NoCharOutsideDigits(seqText, '-');
    IdSpelling(k, suffix);
    SplitId(seqText, suffix);
  }

  lemma IdSpelling(k: nat, suffix: string)
    ensures IdFor(k, suffix) == "CONT" + ['-'] + Pad2(NatToString(k)) + ['-'] + suffix
  {
    assert "CONT-" == "CONT" + ['-'];
  }

  lemma SplitId(seqText: string, suffix: string)
    requires '-' !in suffix && '-' !in seqText
    ensures Split("CONT" + ['-'] + seqText + ['-'] + suffix, '-') == ["CONT", seqText, suffix]
  {
    NoDashInCont();
    SplitThree("CONT", seqText, suffix, '-');
  }

  lemma NoDashInCont()
    ensures '-' !in "CONT"
  {
  }

  /** Ids of different sequence numbers differ. */
  lemma IdForInjective(j: nat, k: nat, suffix: string)
    requires '-' !in suffix && IdFor(j, suffix) == IdFor(k, suffix)
    ensures j == k
  {
    IdSequenceRoundTrip(j, suffix);
    IdSequenceRoundTrip(k, suffix);
  }

  /** When the ids holding the suffix are all `CONT-01..CONT-n` of that
      suffix with `n` the count, the next id is new. */
  lemma FreshWhenNumberedInOrder(existing: seq<Container>, suffix: string)
    requires '-' !in suffix
    requires forall c :: c in existing && HoldsSuffix(c.id, suffix) ==>
      exists k :: 1 <= k <= CountWithSuffix(existing, suffix) && c.id == IdFor(k, suffix)
    ensures forall c :: c in existing ==> c.id != NextId(existing, suffix)
  {
    var n := CountWithSuffix(existing, suffix);
    assert NextId(existing, suffix) == IdFor(n + 1, suffix);
    IdHoldsSuffix(n + 1, suffix);
    forall c | c in existing
      ensures c.id != NextId(existing, suffix)
    {
      if c.id == IdFor(n + 1, suffix) {
        var k :| 1 <= k <= n && c.id == IdFor(k, suffix);
        IdForInjective(k, n + 1, suffix);
      }
    }
  }

  /** Without that premise there is no freshness: after `CONT-01` of a week is
      deleted, the one remaining `CONT-02` is generated again. */
  lemma CollisionAfterDeletion(c: Container, suffix: string)
    requires c.id == IdFor(2, suffix)
    ensures NextId([c], suffix) == c.id
  {
    IdHoldsSuffix(2, suffix);
    assert [c][1..] == [];
    assert CountWithSuffix([c], suffix) == 1;
  }

  /** A valid date of a year from 0 on gives a suffix without `-`. */
  lemma SuffixHasNoDash(d: JsDate)
    requires d.Day? && YearOf(d.n) >= 0
    ensures '-' !in Suffix(d)
  {
    var w := NatToString(ISOWeek(d.n));
    var y := NatToString(YearOf(d.n));
    NoCharOutsideDigits(w, '-');
    NoCharOutsideDigits(y, '-');
    assert '-' !in Last(y, 2);
    assert Suffix(d) == "W" + w + "/" + Last(y, 2);
  }

  // ----- The suffix's year -----

  /** The week-owning year's last two characters, or those of "NaN". */
  function WeekYearText(d: JsDate): (s: string)
    ensures |s| <= 2
  {
    if d.Day? then Last(IntToString(WeekYear(d.n)), 2) else Last("NaN", 2)
  }

  /** `W${weekNum}/${yy}` with the year that owns the ISO week, as the
      comment beside the year read intends. */
  function WeekSuffix(d: JsDate): (s: string)
    ensures |s| >= 3 && s[0] == 'W' && '/' in s
  {
    var s := "W" + WeekText(d) + "/" + WeekYearText(d);
    assert s[1 + |WeekText(d)|] == '/';
    s
  }

  /** With the week-owning year, the seven days of a week share one suffix. */
  lemma WeekSuffixConstantOverWeek(monday: int, k: int)
    requires Weekday(monday) == 1 && 0 <= k < 7
    ensures WeekSuffix(Day(monday + k)) == WeekSuffix(Day(monday))
  {
    SameThursday(monday, k);
    SameWeekSameSuffix(monday + k, monday);
  }

  /** Two days of the same week, one Thursday, share the corrected suffix. */
  lemma SameWeekSameSuffix(a: int, b: int)
    requires Thursday(a) == Thursday(b)
    ensures WeekSuffix(Day(a)) == WeekSuffix(Day(b))
  {
    WeekOfThursday(a, b);
    assert WeekText(Day(a)) == WeekText(Day(b));
    assert WeekYearText(Day(a)) == WeekYearText(Day(b));
  }

  /** Where week and calendar year agree, the corrected suffix is the written one. */
  lemma WeekSuffixAgrees(d: JsDate)
    requires d.Day? ==> WeekYear(d.n) == YearOf(d.n)
    ensures WeekSuffix(d) == Suffix(d)
  {
    assert WeekYearText(d) == YearText(d);
  }

  /** A start date with three dash-separated fields reads them in order. */
  lemma StartDateOfFields(s: string, a: string, b: string, c: string, y: int, m: int, d: int)
    requires Split(s, '-') == [a, b, c]
    requires ParseInt(a) == Some(y) && ParseInt(b) == Some(m) && ParseInt(c) == Some(d)
    ensures StartDate(s) == NewDate(Some(y), Some(m - 1), Some(d))
  {
    DateOfThreeParts(a, b, c, y, m, d);
  }

  lemma DateOfThreeParts(a: string, b: string, c: string, y: int, m: int, d: int)
    requires ParseInt(a) == Some(y) && ParseInt(b) == Some(m) && ParseInt(c) == Some(d)
    ensures DateOfParts([a, b, c]) == NewDate(Some(y), Some(m - 1), Some(d))
  {
    PartsOfThree(a, b, c);
    NewDateOfReadings(ParseInt(a), ParseInt(b), ParseInt(c), y, m, d);
  }

  lemma PartsOfThree(a: string, b: string, c: string)
    ensures Part([a, b, c], 0) == a && Part([a, b, c], 1) == b && Part([a, b, c], 2) == c
  {
  }

  lemma NewDateOfReadings(py: Option<int>, pm: Option<int>, pd: Option<int>, y: int, m: int, d: int)
    requires py == Some(y) && pm == Some(m) && pd == Some(d)
    ensures NewDate(py, MinusOne(pm), pd) == NewDate(Some(y), Some(m - 1), Some(d))
  {
  }

  /** `Y-M-D` start dates read as the `Date` of their fields. */
  lemma StartDateOfIsoText(y: nat, m: nat, d: nat)
    ensures StartDate(IsoText(y, m, d)) == NewDate(Some(y), Some(m - 1), Some(d))
  {
    IsoShape(y, m, d);
    Fields(y, m, d);
    StartDateOfFields(IsoText(y, m, d), NatToString(y), TwoDigits(m), TwoDigits(d), y, m, d);
  }

  /** An in-range ISO start date reads as its calendar day. */
  lemma StartDateOfCalendarDate(y: nat, m: nat, d: nat)
    requires y >= 100 && 1 <= m <= 12
    ensures StartDate(IsoText(y, m, d)) == Day(DayOf(y, m, d))
  {
    StartDateOfIsoText(y, m, d);
    NewDateInRange(y, m, d);
  }

  /** The suffix texts of a start date that reads as day `n`. */
  lemma SuffixOfDay(s: string, n: int, week: nat, year: nat, weekYear: nat)
    requires StartDate(s) == Day(n) && ISOWeek(n) == week && YearOf(n) == year && WeekYear(n) == weekYear
    ensures Suffix(StartDate(s)) == "W" + NatToString(week) + "/" + Last(NatToString(year), 2)
    ensures WeekSuffix(StartDate(s)) == "W" + NatToString(week) + "/" + Last(NatToString(weekYear), 2)
  {
  }

  /** A suffix ends with the last digit of its year. */
  lemma SuffixEndsWithYearDigit(w: string, y: nat)
    ensures var t := "W" + w + "/" + Last(NatToString(y), 2);
      |t| > 0 && t[|t| - 1] == DigitChar(y % 10)
  {
    var ys := NatToString(y);
    assert ys[|ys| - 1] == DigitChar(y % 10);
    var l := Last(ys, 2);
    assert l[|l| - 1] == ys[|ys| - 1];
  }

  /** As written, 2024-12-30 gets the suffix of 2024-01-01, a year earlier,
      and not that of 2025-01-01 two days later in the same ISO week; with
      the week-owning year those two days share their suffix. */
  lemma YearSuffixMismatch()
    ensures Suffix(StartDate(IsoText(2024, 12, 30))) == Suffix(StartDate(IsoText(2024, 1, 1)))
    ensures Suffix(StartDate(IsoText(2024, 12, 30))) != Suffix(StartDate(IsoText(2025, 1, 1)))
    ensures WeekSuffix(StartDate(IsoText(2024, 12, 30))) == WeekSuffix(StartDate(IsoText(2025, 1, 1)))
  {
    LateDecemberSuffixes();
    NewYear2024Suffix();
    NewYear2025Suffix();
    YearsDiffer();
  }

  lemma YearsDiffer()
    ensures "W" + NatToString(1) + "/" + Last(NatToString(2024), 2) != "W" + NatToString(1) + "/" + Last(NatToString(2025), 2)
  {
    SuffixEndsWithYearDigit(NatToString(1), 2024);
    SuffixEndsWithYearDigit(NatToString(1), 2025);
    assert DigitValue(DigitChar(4)) != DigitValue(DigitChar(5));
  }

  lemma LateDecemberSuffixes()
    ensures Suffix(StartDate(IsoText(2024, 12, 30))) == "W" + NatToString(1) + "/" + Last(NatToString(2024), 2)
    ensures WeekSuffix(StartDate(IsoText(2024, 12, 30))) == "W" + NatToString(1) + "/" + Last(NatToString(2025), 2)
  {
    StartDateOfCalendarDate(2024, 12, 30);
    LateDecember2024();
    SuffixOfDay(IsoText(2024, 12, 30), 739249, 1, 2024, 2025);
  }

  lemma NewYear2024Suffix()
    ensures Suffix(StartDate(IsoText(2024, 1, 1))) == "W" + NatToString(1) + "/" + Last(NatToString(2024), 2)
  {
    StartDateOfCalendarDate(2024, 1, 1);
    NewYear2024();
    SuffixOfDay(IsoText(2024, 1, 1), 738885, 1, 2024, 2024);
  }

  lemma NewYear2025Suffix()
    ensures Suffix(StartDate(IsoText(2025, 1, 1))) == "W" + NatToString(1) + "/" + Last(NatToString(2025), 2)
    ensures WeekSuffix(StartDate(IsoText(2025, 1, 1))) == "W" + NatToString(1) + "/" + Last(NatToString(2025), 2)
  {
    StartDateOfCalendarDate(2025, 1, 1);
    NewYear2025();
    SuffixOfDay(IsoText(2025, 1, 1), 739251, 1, 2025, 2025);
  }

  // ----- Item rows -----

  /** A row of the create form. */
  datatype FormItem = FormItem(desc: string, qtd: string, m3: string)

  /** The row fields an edit can change. */
  datatype Field = Desc | Qtd | M3

  const BlankItem := FormItem("", "", "")

  function Get(x: FormItem, f: Field): string {
    match f
    case Desc => x.desc
    case Qtd => x.qtd
    case M3 => x.m3
  }

  /** `{ ...x, [field]: value }` */
  function Set(x: FormItem, f: Field, v: string): (r: FormItem)
    ensures Get(r, f) == v
    ensures forall g :: g != f ==> Get(r, g) == Get(x, g)
  {
    match f
    case Desc => x.(desc := v)
    case Qtd => x.(qtd := v)
    case M3 => x.(m3 := v)
  }

  /** `handleItemChange(index, field, value)`: one field of one row changes. */
  function HandleItemChange(items: seq<FormItem>, index: nat, f: Field, v: string): (r: seq<FormItem>)
    requires index < |items|
    ensures |r| == |items|
    ensures Get(r[index], f) == v
    ensures forall g :: g != f ==> Get(r[index], g) == Get(items[index], g)
    ensures forall i :: 0 <= i < |items| && i != index ==> r[i] == items[i]
  {
    items[index := Set(items[index], f, v)]
  }

  /** Writing back a field's own value changes nothing. */
  lemma ItemChangeIdentity(items: seq<FormItem>, index: nat, f: Field)
    requires index < |items|
    ensures HandleItemChange(items, index, f, Get(items[index], f)) == items
  {
    var r := HandleItemChange(items, index, f, Get(items[index], f));
    assert r[index] == items[index] by {
      assert Get(r[index], Desc) == Get(items[index], Desc);
      assert Get(r[index], Qtd) == Get(items[index], Qtd);
      assert Get(r[index], M3) == Get(items[index], M3);
    }
  }

  /** `handleManualSubmit`'s clean-up: rows from `numItems` on are blanked. */
  function CleanItems(items: seq<FormItem>, numItems: nat): (r: seq<FormItem>)
    ensures |r| == |items|
    ensures forall i :: 0 <= i < |items| && i < numItems ==> r[i] == items[i]
    ensures forall i :: numItems <= i < |items| ==> r[i] == BlankItem
  {
    seq(|items|, i requires 0 <= i < |items| => if i >= numItems then BlankItem else items[i])
  }

  /** Cleaning twice is cleaning once. */
  lemma CleanIdempotent(items: seq<FormItem>, numItems: nat)
    ensures CleanItems(CleanItems(items, numItems), numItems) == CleanItems(items, numItems)
  {
  }

  /** `parseFloat(m3.replace(',', '.'))`, with `NaN` counting 0. */
  function M3Value(x: FormItem): real {
    TokenValue(x.m3)
  }

  /** `rows.map(f)` */
  function Map(f: FormItem -> real, items: seq<FormItem>): (vs: seq<real>)
    ensures |vs| == |items|
    ensures forall i :: 0 <= i < |items| ==> vs[i] == f(items[i])
  {
    seq(|items|, i requires 0 <= i < |items| => f(items[i]))
  }

  /** `reduce((acc, v) => acc + v, 0)` */
  function Sum(vs: seq<real>): real {
    if |vs| == 0 then 0.0 else vs[0] + Sum(vs[1..])
  }

  /** `items.slice(0, numItems)` */
  function Visible(items: seq<FormItem>, numItems: nat): (r: seq<FormItem>)
    ensures |r| <= |items| && |r| <= numItems && r == items[..|r|]
    ensures |r| == |items| || |r| == numItems
  {
    if numItems <= |items| then items[..numItems] else items
  }

  lemma VisibleAll(items: seq<FormItem>)
    ensures Visible(items, |items|) == items
  {
  }

  /** The running total of the first `numItems` rows. */
  function TotalM3(items: seq<FormItem>, numItems: nat): real {
    Sum(Map(M3Value, Visible(items, numItems)))
  }

  /** A blank m³ field counts nothing. */
  lemma BlankCountsZero()
    ensures M3Value(BlankItem) == 0.0
  {
    assert ReplaceFirst("", ',', '.') == "";
    assert LeadingDigits("") == "";
  }

  /** Adding up splits over concatenation. */
  lemma {:induction false} SumAppend(a: seq<real>, b: seq<real>)
    ensures Sum(a + b) == Sum(a) + Sum(b)
    decreases |a|
  {
    if |a| > 0 {
      assert (a + b)[1..] == a[1..] + b;
      SumAppend(a[1..], b);
    } else {
      assert a + b == b;
    }
  }

  /** Zeros add up to zero. */
  lemma {:induction false} SumZeros(vs: seq<real>)
    requires forall i :: 0 <= i < |vs| ==> vs[i] == 0.0
    ensures Sum(vs) == 0.0
    decreases |vs|
  {
    if |vs| > 0 {
      SumZeros(vs[1..]);
    }
  }

  /** For any measure under which a blank row weighs nothing, the cleaned
      rows weigh what the visible rows weigh. */
  lemma CleanedWeight(f: FormItem -> real, items: seq<FormItem>, numItems: nat)
    requires f(BlankItem) == 0.0
    ensures Sum(Map(f, CleanItems(items, numItems))) == Sum(Map(f, Visible(items, numItems)))
  {
    var shown := Visible(items, numItems);
    var all := Map(f, CleanItems(items, numItems));
    var tail := all[|shown|..];
    assert all == Map(f, shown) + tail;
    SumAppend(Map(f, shown), tail);
    SumZeros(tail);
  }

  /** Only the visible rows count: blanking the hidden rows before saving
      leaves the total of all rows equal to the running total shown. */
  lemma TotalOfCleaned(items: seq<FormItem>, numItems: nat)
    ensures TotalM3(CleanItems(items, numItems), |items|) == TotalM3(items, numItems)
  {
    VisibleAll(CleanItems(items, numItems));
    BlankCountsZero();
    CleanedWeight(M3Value, items, numItems);
  }

  /** The total grows row by row in form order. */
  lemma TotalStep(items: seq<FormItem>, k: nat)
    requires k < |items|
    ensures TotalM3(items, k + 1) == TotalM3(items, k) + M3Value(items[k])
  {
    assert items[..k + 1] == items[..k] + [items[k]];
    assert Map(M3Value, items[..k + 1]) == Map(M3Value, items[..k]) + [M3Value(items[k])];
    SumAppend(Map(M3Value, items[..k]), [M3Value(items[k])]);
  }
}
