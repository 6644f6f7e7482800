/**
 The reconciliation dashboard: the containers of one supplier in one
 `YYYY-MM` month, their planned material summed per description, the
 extra material listed with its volume, and the month/year navigation.
 */
module Dashboard {

  import opened Optional
  import opened Text
  import opened Numbers
  import opened Domain
  import opened Volume

  // ----- Period and supplier filter -----

  /** The date that places a container in a month: `date_start || date_pickup`. */
  function ReferenceDate(c: Container): string {
    if c.dateStart != "" then c.dateStart else c.datePickup
  }

  /** The month key of a date text: its first two `-` fields joined by `-`;
      a missing field prints as "undefined". */
  function MonthKeyOf(date: string): string {
    var parts := Split(date, '-');
    Part(parts, 0) + "-" + Part(parts, 1)
  }

  predicate InPeriod(c: Container, supplier: string, month: string) {
    ReferenceDate(c) != "" && c.supplier == supplier && MonthKeyOf(ReferenceDate(c)) == month
  }

  function FilterPeriod(cs: seq<Container>, supplier: string, month: string): (r: seq<Container>)
    ensures |r| <= |cs|
    ensures forall c :: c in r <==> c in cs && InPeriod(c, supplier, month)
  {
    if |cs| == 0 then []
    else if InPeriod(cs[0], supplier, month) then [cs[0]] + FilterPeriod(cs[1..], supplier, month)
    else FilterPeriod(cs[1..], supplier, month)
  }

  /** `supplierData`: nothing while no supplier is chosen, otherwise the
      containers of that supplier whose reference date falls in `month`. */
  function SupplierData(cs: seq<Container>, supplier: string, month: string): (r: seq<Container>)
    ensures supplier == "" ==> r == []
    ensures forall c :: c in r <==> supplier != "" && c in cs && InPeriod(c, supplier, month)
  {
    if supplier == "" then [] else FilterPeriod(cs, supplier, month)
  }

  /** The filter keeps the containers' order: it distributes over concatenation. */
  lemma {:induction false} SupplierDataAppend(a: seq<Container>, b: seq<Container>, supplier: string, month: string)
    ensures SupplierData(a + b, supplier, month) == SupplierData(a, supplier, month) + SupplierData(b, supplier, month)
  {
    if supplier != "" {
      FilterPeriodAppend(a, b, supplier, month);
    }
  }

  lemma {:induction false} FilterPeriodAppend(a: seq<Container>, b: seq<Container>, supplier: string, month: string)
    ensures FilterPeriod(a + b, supplier, month) == FilterPeriod(a, supplier, month) + FilterPeriod(b, supplier, month)
    decreases |a|
  {
    if |a| > 0 {
      assert (a + b)[0] == a[0];
      assert (a + b)[1..] == a[1..] + b;
      FilterPeriodAppend(a[1..], b, supplier, month);
    } else {
      assert a + b == b;
    }
  }

  /** An ISO date `y-m-...` (or `y-m`) falls in the month `y-m`. */
  lemma MonthKeyOfIsoDate(y: string, m: string, rest: string)
    requires '-' !in y && '-' !in m
    ensures MonthKeyOf(y + "-" + m + "-" + rest) == y + "-" + m
    ensures MonthKeyOf(y + "-" + m) == y + "-" + m
  {
    assert y + "-" + m + "-" + rest == y + ['-'] + (m + ['-'] + rest);
    SplitCons(y, '-', m + ['-'] + rest);
    SplitCons(m, '-', rest);
    assert y + "-" + m == y + ['-'] + m;
    SplitCons(y, '-', m);
    SplitSingle(m, '-');
  }

  // ----- Aggregation -----

  /** One summary line: a planned description with its requested and shipped totals. */
  datatype Row = Row(name: string, requested: real, shipped: real)

  /** An extra item with its computed volume. */
  datatype ExtraLine = ExtraLine(item: Item, calculatedM3: real)

  datatype Summary = Summary(rows: seq<Row>, extras: seq<ExtraLine>, totalExtraM3: real)

  datatype Stats = Stats(rows: seq<Row>, extras: seq<ExtraLine>, totalExtraM3: real, totalOrders: nat)

  /** The items of the containers, container by container. */
  function AllItems(cs: seq<Container>): (r: seq<Item>)
    ensures forall x :: x in r <==> exists i | 0 <= i < |cs| :: x in cs[i].items
    ensures |cs| == 1 ==> r == cs[0].items
  {
    if |cs| == 0 then []
    else
      var init := cs[..|cs| - 1];
      assert forall i | 0 <= i < |init| :: init[i] == cs[i];
      AllItems(init) + cs[|cs| - 1].items
  }

  /** Every item of every container once, in container order: the visit
      distributes over concatenation. */
  lemma {:induction false} AllItemsAppend(a: seq<Container>, b: seq<Container>)
    ensures AllItems(a + b) == AllItems(a) + AllItems(b)
    decreases |b|
  {
    if |b| == 0 {
      assert a + b == a;
    } else {
      var init := b[..|b| - 1];
      assert (a + b)[..|a + b| - 1] == a + init;
      assert (a + b)[|a + b| - 1] == b[|b| - 1];
      AllItemsAppend(a, init);
    }
  }

  /** `parseFloat(item.qtd) || 0` */
  function QtyOf(x: Item): real {
    FloatOrZero(x.qtd)
  }

  /** `parseFloat(item.real) || 0` */
  function ActualOf(x: Item): real {
    FloatOrZero(x.actual)
  }

  /** Reference: the sum of `f` over the planned items described `d`. */
  function SumFor(items: seq<Item>, d: string, f: Item -> real): real {
    if |items| == 0 then 0.0
    else
      var x := items[|items| - 1];
      SumFor(items[..|items| - 1], d, f) + (if !x.isExtra && x.desc == d then f(x) else 0.0)
  }

  /** Reference: the requested quantity of description `d`. */
  function Requested(items: seq<Item>, d: string): real {
    SumFor(items, d, QtyOf)
  }

  /** Reference: the shipped quantity of description `d`. */
  function Shipped(items: seq<Item>, d: string): real {
    SumFor(items, d, ActualOf)
  }

  /** Some planned item is described `d`. */
  predicate IsPlannedDesc(items: seq<Item>, d: string) {
    exists k | 0 <= k < |items| :: !items[k].isExtra && items[k].desc == d
  }

  predicate HasRow(rows: seq<Row>, d: string) {
    exists i | 0 <= i < |rows| :: rows[i].name == d
  }

  predicate DistinctNames(rows: seq<Row>) {
    forall i, j | 0 <= i < j < |rows| :: rows[i].name != rows[j].name
  }

  /** Reference: each extra item with `calculateVolumeFromDesc` of it. */
  function LinesFor(extras: seq<Item>): (r: seq<ExtraLine>)
    ensures |r| == |extras|
    ensures forall k | 0 <= k < |r| :: r[k] == ExtraLine(extras[k], CalculateVolume(extras[k]))
  {
    seq(|extras|, k requires 0 <= k < |extras| => ExtraLine(extras[k], CalculateVolume(extras[k])))
  }

  /** The sum of the listed volumes. */
  function ExtraTotal(lines: seq<ExtraLine>): real {
    if |lines| == 0 then 0.0 else ExtraTotal(lines[..|lines| - 1]) + lines[|lines| - 1].calculatedM3
  }

  /** Where the summary keeps the row for description `d`. */
  function RowIndex(rows: seq<Row>, d: string): (r: Option<nat>)
    ensures r.Some? ==> r.value < |rows| && rows[r.value].name == d
    ensures r.None? ==> !HasRow(rows, d)
  {
    if |rows| == 0 then None
    else if rows[|rows| - 1].name == d then Some(|rows| - 1)
    else
      var r := RowIndex(rows[..|rows| - 1], d);
      assert forall i | 0 <= i < |rows| - 1 :: rows[..|rows| - 1][i] == rows[i];
      r
  }

  /** Adds a planned item to the row of its description, opening the row
      on first sight; `f` and `g` read its requested and shipped amounts. */
  function AddWith(rows: seq<Row>, x: Item, f: Item -> real, g: Item -> real): seq<Row> {
    match RowIndex(rows, x.desc)
    case Some(i) => rows[i := Row(rows[i].name, rows[i].requested + f(x), rows[i].shipped + g(x))]
    case None => rows + [Row(x.desc, f(x), g(x))]
  }

  /** The rows answer for the planned items: one row per planned
      description, holding that description's sums under `f` and `g`. */
  ghost predicate SummarizeWith(rows: seq<Row>, items: seq<Item>, f: Item -> real, g: Item -> real) {
    && DistinctNames(rows)
    && (forall d :: HasRow(rows, d) <==> IsPlannedDesc(items, d))
    && (forall i | 0 <= i < |rows| ::
          rows[i].requested == SumFor(items, rows[i].name, f) && rows[i].shipped == SumFor(items, rows[i].name, g))
  }

  /** The rows answer for the planned items with their requested and shipped sums. */
  ghost predicate RowsSummarize(rows: seq<Row>, items: seq<Item>) {
    SummarizeWith(rows, items, QtyOf, ActualOf)
  }

  /** The `forEach` of `stats` over a run of items, in order: every item lands
      in exactly one place, the extras list (with its volume) when `isExtra`
      and otherwise the single row of its exact description. */
  function Summarize(items: seq<Item>): (r: Summary)
    ensures RowsSummarize(r.rows, items)
    ensures r.extras == LinesFor(ItemsWithFlag(items, true))
    ensures r.totalExtraM3 == ExtraTotal(r.extras)
  {
    var (extras, total) := ExtrasOf(items);
    Summary(RowsOf(items), extras, total)
  }

  /** The summary rows built item by item. */
  function RowsOf(items: seq<Item>): (rows: seq<Row>)
    ensures RowsSummarize(rows, items)
  {
    RowsWith(items, QtyOf, ActualOf)
  }

  /** The summary rows built item by item, for any reading of the amounts. */
  function RowsWith(items: seq<Item>, f: Item -> real, g: Item -> real): (rows: seq<Row>)
    ensures SummarizeWith(rows, items, f, g)
  {
    if |items| == 0 then []
    else
      var init := items[..|items| - 1];
      var x := items[|items| - 1];
      var prev := RowsWith(init, f, g);
      assert items == init + [x];
      if x.isExtra then
        ExtraStep(init, x, prev, f, g);
        prev
      else
        AddPlannedStep(prev, init, x, f, g);
        AddWith(prev, x, f, g)
  }

  /** The extras list and its running volume total, built item by item. */
  function ExtrasOf(items: seq<Item>): (r: (seq<ExtraLine>, real))
    ensures r.0 == LinesFor(ItemsWithFlag(items, true))
    ensures r.1 == ExtraTotal(r.0)
  {
    if |items| == 0 then ([], 0.0)
    else
      var init := items[..|items| - 1];
      var x := items[|items| - 1];
      var (extras, total) := ExtrasOf(init);
      assert items == init + [x];
      ItemsWithFlagAppend(init, [x], true);
      if x.isExtra then
        var line := ExtraLine(x, CalculateVolume(x));
        assert ItemsWithFlag([x], true) == [x];
        LinesForSnoc(ItemsWithFlag(init, true), x);
        ExtraTotalSnoc(extras, line);
        (extras + [line], total + line.calculatedM3)
      else
        assert ItemsWithFlag([x], true) == [];
        assert ItemsWithFlag(items, true) == ItemsWithFlag(init, true) + [];
        (extras, total)
  }

  lemma SumForStep(init: seq<Item>, x: Item, d: string, f: Item -> real)
    ensures SumFor(init + [x], d, f) == SumFor(init, d, f) + (if !x.isExtra && x.desc == d then f(x) else 0.0)
  {
    var items := init + [x];
    assert items[..|items| - 1] == init;
  }

  /** A description no planned item carries sums to nothing. */
  lemma {:induction false} AbsentDescSumsToZero(items: seq<Item>, d: string, f: Item -> real)
    requires !IsPlannedDesc(items, d)
    ensures SumFor(items, d, f) == 0.0
  {
    if |items| > 0 {
      var init := items[..|items| - 1];
      assert !IsPlannedDesc(init, d) by {
        forall k | 0 <= k < |init| ensures !(!init[k].isExtra && init[k].desc == d) {
          assert init[k] == items[k];
        }
      }
      AbsentDescSumsToZero(init, d, f);
    }
  }

  lemma PlannedDescStep(init: seq<Item>, x: Item, d: string)
    ensures IsPlannedDesc(init + [x], d) <==> IsPlannedDesc(init, d) || (!x.isExtra && x.desc == d)
  {
    var items := init + [x];
    if IsPlannedDesc(init, d) {
      var k :| 0 <= k < |init| && !init[k].isExtra && init[k].desc == d;
      assert items[k] == init[k];
    }
    if IsPlannedDesc(items, d) {
      var k :| 0 <= k < |items| && !items[k].isExtra && items[k].desc == d;
      if k < |init| {
        assert items[k] == init[k];
      }
    }
    if !x.isExtra && x.desc == d {
      assert items[|init|] == x;
    }
  }

  /** An extra item leaves the rows as they were. */
  lemma ExtraStep(init: seq<Item>, x: Item, rows: seq<Row>, f: Item -> real, g: Item -> real)
    requires x.isExtra && SummarizeWith(rows, init, f, g)
    ensures SummarizeWith(rows, init + [x], f, g)
  {
    forall d ensures IsPlannedDesc(init + [x], d) <==> IsPlannedDesc(init, d) {
      PlannedDescStep(init, x, d);
    }
    forall i | 0 <= i < |rows| ensures
      rows[i].requested == SumFor(init + [x], rows[i].name, f) && rows[i].shipped == SumFor(init + [x], rows[i].name, g)
    {
      SumForStep(init, x, rows[i].name, f);
      SumForStep(init, x, rows[i].name, g);
    }
  }

  /** A planned item adds to its row, or opens one, and keeps the rest. */
  lemma AddPlannedStep(rows: seq<Row>, init: seq<Item>, x: Item, f: Item -> real, g: Item -> real)
    requires !x.isExtra && SummarizeWith(rows, init, f, g)
    ensures SummarizeWith(AddWith(rows, x, f, g), init + [x], f, g)
  {
    forall d ensures IsPlannedDesc(init + [x], d) <==> IsPlannedDesc(init, d) || x.desc == d {
      PlannedDescStep(init, x, d);
    }
    match RowIndex(rows, x.desc)
    case Some(j) => AddToRow(rows, init, x, j, f, g);
    case None => OpenRow(rows, init, x, f, g);
  }

  lemma AddToRow(rows: seq<Row>, init: seq<Item>, x: Item, j: nat, f: Item -> real, g: Item -> real)
    requires !x.isExtra && SummarizeWith(rows, init, f, g)
    requires forall d :: IsPlannedDesc(init + [x], d) <==> IsPlannedDesc(init, d) || x.desc == d
    requires RowIndex(rows, x.desc) == Some(j)
    ensures SummarizeWith(AddWith(rows, x, f, g), init + [x], f, g)
  {
    var items := init + [x];
    var r := AddWith(rows, x, f, g);
    assert |r| == |rows|;
    assert forall i | 0 <= i < |r| :: r[i].name == rows[i].name;
    assert HasRow(rows, x.desc);
    forall d ensures HasRow(r, d) <==> HasRow(rows, d) {
      if HasRow(rows, d) {
        var i :| 0 <= i < |rows| && rows[i].name == d;
        assert r[i].name == d;
      }
    }
    forall i | 0 <= i < |r| ensures
      r[i].requested == SumFor(items, r[i].name, f) && r[i].shipped == SumFor(items, r[i].name, g)
    {
      SumForStep(init, x, r[i].name, f);
      SumForStep(init, x, r[i].name, g);
    }
  }

  lemma OpenRow(rows: seq<Row>, init: seq<Item>, x: Item, f: Item -> real, g: Item -> real)
    requires !x.isExtra && SummarizeWith(rows, init, f, g)
    requires forall d :: IsPlannedDesc(init + [x], d) <==> IsPlannedDesc(init, d) || x.desc == d
    requires RowIndex(rows, x.desc).None?
    ensures SummarizeWith(AddWith(rows, x, f, g), init + [x], f, g)
  {
    var items := init + [x];
    var r := AddWith(rows, x, f, g);
    assert r == rows + [Row(x.desc, f(x), g(x))];
    assert !IsPlannedDesc(init, x.desc);
    AbsentDescSumsToZero(init, x.desc, f);
    AbsentDescSumsToZero(init, x.desc, g);
    forall d ensures HasRow(r, d) <==> HasRow(rows, d) || x.desc == d {
      if HasRow(rows, d) {
        var i :| 0 <= i < |rows| && rows[i].name == d;
        assert r[i].name == d;
      }
      if x.desc == d {
        assert r[|rows|].name == d;
      }
    }
    forall i | 0 <= i < |r| ensures
      r[i].requested == SumFor(items, r[i].name, f) && r[i].shipped == SumFor(items, r[i].name, g)
    {
      SumForStep(init, x, r[i].name, f);
      SumForStep(init, x, r[i].name, g);
    }
  }

  lemma LinesForSnoc(xs: seq<Item>, x: Item)
    ensures LinesFor(xs + [x]) == LinesFor(xs) + [ExtraLine(x, CalculateVolume(x))]
  {
  }

  lemma ExtraTotalSnoc(lines: seq<ExtraLine>, line: ExtraLine)
    ensures ExtraTotal(lines + [line]) == ExtraTotal(lines) + line.calculatedM3
  {
    assert (lines + [line])[..|lines|] == lines;
  }

  /** Some selected container holds a planned item described `d`. */
  predicate PlannedIn(cs: seq<Container>, d: string) {
    exists i, k | 0 <= i < |cs| && 0 <= k < |cs[i].items| :: !cs[i].items[k].isExtra && cs[i].items[k].desc == d
  }

  /** `stats`: one row per planned description found in the selected
      containers, the extra items with their volumes, the extras' total and
      how many containers were selected. */
  function ComputeStats(cs: seq<Container>, supplier: string, month: string): (r: Stats)
    ensures r.totalOrders == |SupplierData(cs, supplier, month)|
    ensures DistinctNames(r.rows)
    ensures forall d :: HasRow(r.rows, d) <==> PlannedIn(SupplierData(cs, supplier, month), d)
    ensures forall i | 0 <= i < |r.rows| ::
      var items := AllItems(SupplierData(cs, supplier, month));
      r.rows[i].requested == Requested(items, r.rows[i].name) && r.rows[i].shipped == Shipped(items, r.rows[i].name)
    ensures r.extras == LinesFor(ItemsWithFlag(AllItems(SupplierData(cs, supplier, month)), true))
    ensures r.totalExtraM3 == ExtraTotal(r.extras)
  {
    var selected := SupplierData(cs, supplier, month);
    var s := Summarize(AllItems(selected));
    forall d ensures IsPlannedDesc(AllItems(selected), d) <==> PlannedIn(selected, d) {
      PlannedInAllItems(selected, d);
    }
    Stats(s.rows, s.extras, s.totalExtraM3, |selected|)
  }

  lemma PlannedInAllItems(cs: seq<Container>, d: string)
    ensures IsPlannedDesc(AllItems(cs), d) <==> PlannedIn(cs, d)
  {
    var items := AllItems(cs);
    if IsPlannedDesc(items, d) {
      var k :| 0 <= k < |items| && !items[k].isExtra && items[k].desc == d;
      assert items[k] in items;
      var i :| 0 <= i < |cs| && items[k] in cs[i].items;
      var k' :| 0 <= k' < |cs[i].items| && cs[i].items[k'] == items[k];
    }
    if PlannedIn(cs, d) {
      var i, k :| 0 <= i < |cs| && 0 <= k < |cs[i].items| && !cs[i].items[k].isExtra && cs[i].items[k].desc == d;
      var x := cs[i].items[k];
      assert x in cs[i].items;
      assert x in items;
      var k' :| 0 <= k' < |items| && items[k'] == x;
    }
  }

  // ----- Row status -----

  datatype RowStatus = Correct | Excess | Shortage

  /** The status of a summary row from `shipped - requested`. */
  function StatusOfRow(row: Row): (s: RowStatus)
    ensures s == Correct <==> row.shipped == row.requested
    ensures s == Excess <==> row.shipped > row.requested
    ensures s == Shortage <==> row.shipped < row.requested
  {
    var diff := row.shipped - row.requested;
    if diff == 0.0 then Correct else if diff > 0.0 then Excess else Shortage
  }

  function StatusLabel(s: RowStatus): string {
    match s
    case Correct => "CORRETO"
    case Excess => "EXCESSO"
    case Shortage => "FALTA"
  }

  // ----- Month navigation -----

  /** `String(v)` for a number that may be `NaN`. */
  function NumberText(v: Option<int>): string {
    match v
    case Some(i) => IntToString(i)
    case None => "NaN"
  }

  /** The selected month as text: `${year}-${String(month).padStart(2, '0')}`. */
  function MonthKey(year: Option<int>, month: Option<int>): string {
    NumberText(year) + "-" + Pad2(NumberText(month))
  }

  /** `[parseInt(y), parseInt(m)]` of the selected month split on `-`. */
  function ParseMonthKey(key: string): (Option<int>, Option<int>) {
    var parts := Split(key, '-');
    (ParseInt(Part(parts, 0)), ParseInt(Part(parts, 1)))
  }

  function Plus(v: Option<int>, delta: int): Option<int> {
    match v
    case Some(i) => Some(i + delta)
    case None => None
  }

  /** `changeYear(delta)` */
  function ChangeYear(key: string, delta: int): string {
    var (y, m) := ParseMonthKey(key);
    MonthKey(Plus(y, delta), m)
  }

  /** `selectMonthIdx(idx)` */
  function SelectMonthIdx(key: string, idx: int): string {
    var (y, _) := ParseMonthKey(key);
    MonthKey(y, Some(idx + 1))
  }

  /** Changing the year moves the year by `delta` and keeps the month. */
  lemma ChangeYearKeepsMonth(year: nat, month: nat, delta: int)
    requires year + delta >= 0
    ensures ParseMonthKey(ChangeYear(MonthKey(Some(year), Some(month)), delta)) == (Some(year + delta), Some(month as int))
  {
    var key := MonthKey(Some(year), Some(month));
    MonthKeyRoundTrip(year, month);
    assert ChangeYear(key, delta) == MonthKey(Some(year + delta), Some(month));
    MonthKeyRoundTrip(year + delta, month);
  }

  /** Picking month index `idx` selects month `idx + 1` of the same year. */
  lemma SelectMonthKeepsYear(year: nat, month: nat, idx: int)
    requires 0 <= idx <= 11
    ensures ParseMonthKey(SelectMonthIdx(MonthKey(Some(year), Some(month)), idx)) == (Some(year as int), Some(idx + 1))
  {
    var key := MonthKey(Some(year), Some(month));
    MonthKeyRoundTrip(year, month);
    assert SelectMonthIdx(key, idx) == MonthKey(Some(year), Some(idx + 1));
    MonthKeyRoundTrip(year, idx + 1);
  }

  /** A year before year 0 writes a leading `-`, so its key no longer reads back. */
  lemma NegativeYearLost(month: nat)
    ensures ParseMonthKey(MonthKey(Some(-5), Some(month))).0.None?
  {
    var m := Pad2(NatToString(month));
    assert MonthKey(Some(-5), Some(month)) == [] + ['-'] + ("5" + "-" + m);
    SplitCons([], '-', "5" + "-" + m);
  }

  /** A key of two dash-free fields reads back as their numbers. */
  lemma ParseJoinedKey(y: string, m: string)
    requires '-' !in y && '-' !in m
    ensures ParseMonthKey(y + "-" + m) == (ParseInt(y), ParseInt(m))
  {
    assert y + "-" + m == y + ['-'] + m;
    SplitCons(y, '-', m);
    SplitSingle(m, '-');
    var parts := Split(y + "-" + m, '-');
    assert parts == [y, m];
    assert Part(parts, 0) == y && Part(parts, 1) == m;
  }

  /** The month text reads back as the year and month it was written from. */
  lemma MonthKeyRoundTrip(year: nat, month: nat)
    ensures ParseMonthKey(MonthKey(Some(year), Some(month))) == (Some(year as int), Some(month as int))
  {
    var y := NatToString(year);
    var m := Pad2(NatToString(month));
    assert MonthKey(Some(year), Some(month)) == y + "-" + m;
    NoCharOutsideDigits(y, '-');
    NoCharOutsideDigits(m, '-');
    ParseJoinedKey(y, m);
    ParseIntOfPadded(month);
    ParseIntOfString(year);
  }

}
