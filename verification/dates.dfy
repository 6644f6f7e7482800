/**
 The card's two date helpers, shared word for word by both card versions:
 `parseDate`, which reads `Y-M-D` (anything after `T` dropped) or `D/M/Y`
 text into a local-noon `Date`, and `formatDateBR`, which prints `DD/MM`
 or `DD/MM/YY`.
 */
module Dates {

  import opened Optional
  import opened Text
  import opened Numbers
  import opened Calendar

  /** `parseInt(text) - 1`: `NaN - 1` stays `NaN`. */
  function MinusOne(v: Option<int>): (r: Option<int>)
    ensures r.Some? <==> v.Some?
    ensures r.Some? ==> r.value + 1 == v.value
  {
    match v
    case Some(i) => Some(i - 1)
    case None => None
  }

  /** `day` is the day part of `s`: the text before its first `T`, or all
      of it when there is none. */
  predicate DayPart(s: string, day: string) {
    |day| <= |s| && day == s[..|day|] && 'T' !in day && (|day| == |s| || s[|day|] == 'T')
  }

  /** The text before the first `T`: `s.split('T')[0]`. */
  function BeforeT(s: string): (r: string)
    ensures DayPart(s, r)
    ensures 'T' !in s ==> r == s
  {
    SplitFirst(s, 'T');
    Split(s, 'T')[0]
  }

  /** A text has one day part. */
  lemma DayPartUnique(s: string, a: string, b: string)
    requires DayPart(s, a) && DayPart(s, b)
    ensures a == b
  {
  }

  /** Trimmed text that `parseDate` reads as `Y-M-D`: a `-` and at least
      three `-` fields before any `T`. */
  predicate Dashed(t: string) {
    '-' in t && |Split(BeforeT(t), '-')| >= 3
  }

  /** Trimmed text that `parseDate` can read as `D/M/Y`: at least three `/`
      fields. */
  predicate Slashed(t: string) {
    '/' in t && |Split(t, '/')| >= 3
  }

  /** `parseDate`: `None` is `null`; a `Some` may still hold the Invalid Date
      when a field does not read as a number. */
  function ParseDate(dateStr: string): (r: Option<JsDate>)
    ensures dateStr == "" ==> r.None?
    ensures r.Some? <==> dateStr != "" && (Dashed(Trim(dateStr)) || Slashed(Trim(dateStr)))
    ensures '-' !in Trim(dateStr) && '/' !in Trim(dateStr) ==> r.None?
  {
    if dateStr == "" then None
    else
      var s := Trim(dateStr);
      var iso := Split(BeforeT(s), '-');
      var br := Split(s, '/');
      if '-' in s && |iso| >= 3 then
        Some(NewDate(ParseInt(iso[0]), MinusOne(ParseInt(iso[1])), ParseInt(iso[2])))
      else if '/' in s && |br| >= 3 then
        Some(NewDate(ParseInt(br[2]), MinusOne(ParseInt(br[1])), ParseInt(br[0])))
      else None
  }

  /** `formatDateBR(dateVal, showYear)`: the day part, trimmed, with `-`
      fields printed as `D/M[/YY]`, three `/` fields as `D/M[/YY]` in the
      order written, and any other text unchanged. */
  function FormatDateBR(dateVal: string, showYear: bool): (r: string)
    ensures dateVal == "" ==> r == "N/D"
    ensures dateVal != "" && '-' !in Trim(BeforeT(dateVal)) && '/' !in Trim(BeforeT(dateVal)) ==>
      r == Trim(BeforeT(dateVal))
    ensures var s := Trim(BeforeT(dateVal)); var p := Split(s, '/');
      dateVal != "" && '-' !in s && '/' in s ==>
        r == if |p| != 3 then s
             else if showYear then p[0] + "/" + p[1] + "/" + Drop(p[2], 2)
             else p[0] + "/" + p[1]
    ensures var s := Trim(BeforeT(dateVal)); var p := Split(s, '-');
      dateVal != "" && '-' in s ==>
        r == if showYear then Part(p, 2) + "/" + Part(p, 1) + "/" + Drop(Part(p, 0), 2)
             else Part(p, 2) + "/" + Part(p, 1)
  {
    if dateVal == "" then "N/D"
    else
      var s := Trim(BeforeT(dateVal));
      if '-' in s then
        var p := Split(s, '-');
        if showYear then Part(p, 2) + "/" + Part(p, 1) + "/" + Drop(Part(p, 0), 2)
        else Part(p, 2) + "/" + Part(p, 1)
      else if '/' in s then
        var p := Split(s, '/');
        if |p| == 3 then
          if showYear then p[0] + "/" + p[1] + "/" + Drop(p[2], 2) else p[0] + "/" + p[1]
        else s
      else s
  }

  // ----- Date texts of calendar dates -----

  /** `String(n).padStart(2, '0')` */
  function TwoDigits(n: nat): string {
    Pad2(NatToString(n))
  }

  /** The ISO spelling `YYYY-MM-DD` of a date. */
  function IsoText(y: nat, m: nat, d: nat): string {
    NatToString(y) + "-" + TwoDigits(m) + "-" + TwoDigits(d)
  }

  /** The Brazilian spelling `DD/MM/YYYY` of a date. */
  function BrText(y: nat, m: nat, d: nat): string {
    TwoDigits(d) + "/" + TwoDigits(m) + "/" + NatToString(y)
  }

  lemma DigitsNoSpace(s: string)
    requires AllDigits(s)
    ensures NoSpace(s) && 'T' !in s && '-' !in s && '/' !in s
  {
    forall i | 0 <= i < |s| ensures !IsSpace(s[i]) && s[i] != 'T' && s[i] != '-' && s[i] != '/' {
      assert IsDigit(s[i]);
    }
  }

  lemma NoSpaceJoin(a: string, sep: char, b: string)
    requires NoSpace(a) && NoSpace(b) && !IsSpace(sep)
    ensures NoSpace(a + [sep] + b)
  {
    var s := a + [sep] + b;
    forall i | 0 <= i < |s| ensures !IsSpace(s[i]) {
      if i < |a| {
        assert s[i] == a[i];
      } else if i > |a| {
        assert s[i] == b[i - |a| - 1];
      }
    }
  }

  /** The three fields of a date's text, each digits only. */
  lemma Fields(y: nat, m: nat, d: nat)
    ensures AllDigits(NatToString(y)) && AllDigits(TwoDigits(m)) && AllDigits(TwoDigits(d))
    ensures ParseInt(NatToString(y)) == Some(y as int)
    ensures ParseInt(TwoDigits(m)) == Some(m as int) && ParseInt(TwoDigits(d)) == Some(d as int)
  {
    ParseIntOfPadded(m);
    ParseIntOfPadded(d);
    ParseIntOfString(y);
  }

  /** Three digit fields joined by a separator: nothing to trim, no `T`,
      and splitting on the separator gives the fields back. */
  lemma JoinedShape(a: string, b: string, c: string, sep: char)
    requires AllDigits(a) && AllDigits(b) && AllDigits(c) && (sep == '-' || sep == '/')
    ensures var s := a + [sep] + b + [sep] + c;
      && Trim(s) == s && BeforeT(s) == s && sep in s
      && ('-' in s <==> sep == '-') && ('/' in s <==> sep == '/')
      && Split(s, sep) == [a, b, c]
  {
    DigitsNoSpace(a);
    DigitsNoSpace(b);
    DigitsNoSpace(c);
    var s := a + [sep] + b + [sep] + c;
    JoinedNoSpace(a, b, c, sep);
    JoinedMembers(a, b, c, sep, s);
    SplitThree(a, b, c, sep);
  }

  lemma JoinedMembers(a: string, b: string, c: string, sep: char, s: string)
    requires s == a + [sep] + b + [sep] + c
    requires 'T' !in a && 'T' !in b && 'T' !in c && sep != 'T'
    requires '-' !in a && '-' !in b && '-' !in c && '/' !in a && '/' !in b && '/' !in c
    ensures sep in s && 'T' !in s && ('-' in s <==> sep == '-') && ('/' in s <==> sep == '/')
  {
    assert s[|a|] == sep;
  }

  lemma JoinedNoSpace(a: string, b: string, c: string, sep: char)
    requires NoSpace(a) && NoSpace(b) && NoSpace(c) && !IsSpace(sep)
    ensures NoSpace(a + [sep] + b + [sep] + c)
  {
    NoSpaceJoin(a, sep, b);
    NoSpaceJoin(a + [sep] + b, sep, c);
  }

  /** The ISO text splits into its three fields and has nothing to trim. */
  lemma IsoShape(y: nat, m: nat, d: nat)
    ensures var s := IsoText(y, m, d);
      && Trim(s) == s && BeforeT(s) == s && '-' in s && '/' !in s
      && Split(s, '-') == [NatToString(y), TwoDigits(m), TwoDigits(d)]
  {
    Fields(y, m, d);
    JoinedShape(NatToString(y), TwoDigits(m), TwoDigits(d), '-');
  }

  /** The D/M/Y text splits into its three fields and has nothing to trim. */
  lemma BrShape(y: nat, m: nat, d: nat)
    ensures var s := BrText(y, m, d);
      && Trim(s) == s && BeforeT(s) == s && '-' !in s && '/' in s
      && Split(s, '/') == [TwoDigits(d), TwoDigits(m), NatToString(y)]
  {
    Fields(y, m, d);
    JoinedShape(TwoDigits(d), TwoDigits(m), NatToString(y), '/');
  }

  /** Text with three or more `-` fields before its `T` reads as `Y-M-D`
      from its first three fields, once trimmed. */
  lemma ParseDashed(s: string)
    requires s != "" && Dashed(Trim(s))
    ensures var p := Split(BeforeT(Trim(s)), '-');
      ParseDate(s) == Some(NewDate(ParseInt(p[0]), MinusOne(ParseInt(p[1])), ParseInt(p[2])))
  {
  }

  /** Otherwise text with three or more `/` fields reads as `D/M/Y` from
      its first three fields, even when it holds a `-`. */
  lemma ParseSlashed(s: string)
    requires s != "" && !Dashed(Trim(s)) && Slashed(Trim(s))
    ensures var p := Split(Trim(s), '/');
      ParseDate(s) == Some(NewDate(ParseInt(p[2]), MinusOne(ParseInt(p[1])), ParseInt(p[0])))
  {
  }

  /** Surrounding white space does not change the reading. */
  lemma ParseDateTrims(s: string)
    ensures ParseDate(s) == ParseDate(Trim(s))
  {
    TrimIdempotent(s);
  }

  /** `Y-M-D` text reads as the `Date` built from its fields, month index `M - 1`. */
  lemma ParseIsoText(y: nat, m: nat, d: nat)
    ensures ParseDate(IsoText(y, m, d)) == Some(NewDate(Some(y), Some(m - 1), Some(d)))
  {
    IsoShape(y, m, d);
    ParseDashed(IsoText(y, m, d));
    Fields(y, m, d);
  }

  /** `D/M/Y` text reads as the same `Date` as its ISO spelling. */
  lemma ParseBrText(y: nat, m: nat, d: nat)
    ensures ParseDate(BrText(y, m, d)) == ParseDate(IsoText(y, m, d))
  {
    BrShape(y, m, d);
    ParseSlashed(BrText(y, m, d));
    Fields(y, m, d);
    ParseIsoText(y, m, d);
  }

  /** `MakeDay` of an in-range month index is that calendar date. */
  lemma MakeDayInRange(y: int, m: int, d: int)
    requires 1 <= m <= 12
    ensures MakeDay(y, m - 1, d) == DayOf(y, m, d)
  {
    assert (m - 1) / 12 == 0 && (m - 1) % 12 + 1 == m;
  }

  /** A `Date` built from an in-range month is that calendar day, with the
      two-digit years read as 1900..1999. */
  lemma NewDateInRange(y: int, m: int, d: int)
    requires 1 <= m <= 12
    ensures NewDate(Some(y), Some(m - 1), Some(d)) == Day(DayOf(FullYear(y), m, d))
  {
    MakeDayInRange(FullYear(y), m, d);
  }

  /** For an ordinary calendar date both spellings name that day. */
  lemma ParseCalendarDate(y: nat, m: nat, d: nat)
    requires y >= 100 && 1 <= m <= 12
    ensures ParseDate(IsoText(y, m, d)) == Some(Day(DayOf(y, m, d)))
    ensures ParseDate(BrText(y, m, d)) == Some(Day(DayOf(y, m, d)))
  {
    ParseIsoText(y, m, d);
    ParseBrText(y, m, d);
    NewDateInRange(y, m, d);
  }

  /** A two-digit year lands in the 1900s. */
  lemma ParseTwoDigitYear(m: nat, d: nat)
    requires 1 <= m <= 12
    ensures ParseDate(BrText(24, m, d)) == Some(Day(DayOf(1924, m, d)))
  {
    ParseBrText(24, m, d);
    ParseIsoText(24, m, d);
    NewDateInRange(24, m, d);
  }

  /** A field that is not a number still yields a (truthy) Invalid Date. */
  lemma ParseNonNumericField()
    ensures ParseDate("2024-ab-01") == Some(InvalidDate)
  {
    var s := "2024-ab-01";
    assert s == "2024" + ['-'] + "ab" + ['-'] + "01";
    JoinedShapeLoose(s);
    ParseDashed(s);
    NotANumber();
  }

  lemma JoinedShapeLoose(s: string)
    requires s == "2024" + ['-'] + "ab" + ['-'] + "01"
    ensures s != "" && Trim(s) == s && '-' in s && Split(BeforeT(s), '-') == ["2024", "ab", "01"]
  {
    assert NoSpace(s) by {
      forall i | 0 <= i < |s| ensures !IsSpace(s[i]) {
      }
    }
    assert s[4] == '-';
    assert 'T' !in s;
    SplitThree("2024", "ab", "01", '-');
  }

  lemma NotANumber()
    ensures ParseInt("ab").None?
  {
    assert TrimStart("ab") == "ab";
    assert SplitSign("ab") == (false, "ab");
    assert LeadingDigits("ab") == "";
  }

  /** `formatDateBR` prints an ISO date as `DD/MM`, or `DD/MM/YY` with the year. */
  lemma FormatIsoText(y: nat, m: nat, d: nat, t: string)
    ensures FormatDateBR(IsoText(y, m, d), false) == TwoDigits(d) + "/" + TwoDigits(m)
    ensures FormatDateBR(IsoText(y, m, d), true) == TwoDigits(d) + "/" + TwoDigits(m) + "/" + Drop(NatToString(y), 2)
    ensures FormatDateBR(IsoText(y, m, d) + "T" + t, false) == TwoDigits(d) + "/" + TwoDigits(m)
    ensures FormatDateBR(IsoText(y, m, d) + "T" + t, true) == TwoDigits(d) + "/" + TwoDigits(m) + "/" + Drop(NatToString(y), 2)
  {
    IsoShape(y, m, d);
    assert |IsoText(y, m, d)| > 0;
    IsoDayPart(y, m, d, t);
    FormatSameDay(IsoText(y, m, d) + "T" + t, IsoText(y, m, d), false);
    FormatSameDay(IsoText(y, m, d) + "T" + t, IsoText(y, m, d), true);
  }

  /** The day part of an ISO date-time is the ISO date. */
  lemma IsoDayPart(y: nat, m: nat, d: nat, t: string)
    ensures BeforeT(IsoText(y, m, d) + "T" + t) == IsoText(y, m, d)
  {
    var s := IsoText(y, m, d);
    IsoShape(y, m, d);
    var st := s + "T" + t;
    assert DayPart(st, s) by {
      assert DayPart(s, BeforeT(s));
      assert st[..|s|] == s;
      assert st[|s|] == 'T';
    }
    DayPartUnique(st, s, BeforeT(st));
  }

  /** Only the day part of a non-empty text decides how it prints. */
  lemma FormatSameDay(u: string, v: string, showYear: bool)
    requires u != "" && v != "" && BeforeT(u) == BeforeT(v)
    ensures FormatDateBR(u, showYear) == FormatDateBR(v, showYear)
  {
  }

  /** Both spellings of a date print alike. */
  lemma FormatBrText(y: nat, m: nat, d: nat, showYear: bool)
    ensures FormatDateBR(BrText(y, m, d), showYear) == FormatDateBR(IsoText(y, m, d), showYear)
  {
    FormatBrValue(y, m, d, showYear);
    FormatIsoText(y, m, d, "");
  }

  /** The `D/M/Y` spelling prints its first two fields and the year's tail. */
  lemma FormatBrValue(y: nat, m: nat, d: nat, showYear: bool)
    ensures FormatDateBR(BrText(y, m, d), showYear) ==
      if showYear then TwoDigits(d) + "/" + TwoDigits(m) + "/" + Drop(NatToString(y), 2)
      else TwoDigits(d) + "/" + TwoDigits(m)
  {
    BrShape(y, m, d);
    assert |BrText(y, m, d)| > 0;
  }

  // ----- Edge cases of the two helpers -----

  /** A tail without white space, `T`, `-` or `/`. */
  predicate PlainTail(rest: string) {
    NoSpace(rest) && 'T' !in rest && '-' !in rest && '/' !in rest
  }

  /** `D/M/Y` text followed by `-` and a tail has only two `-` fields, so it
      falls back to the `D/M/Y` reading, where the year field stops at the
      `-`: "01/02/2024-x" reads as "01/02/2024" does. */
  lemma ParseSlashedDespiteDash(a: string, b: string, c: string, rest: string)
    requires AllDigits(a) && AllDigits(b) && AllDigits(c) && |c| > 0 && PlainTail(rest)
    ensures ParseDate(a + "/" + b + "/" + c + "-" + rest) == ParseDate(a + "/" + b + "/" + c)
  {
    ParseDashTail(a, b, c, rest);
    ParseThreeSlashed(a, b, c);
  }

  lemma ParseDashTail(a: string, b: string, c: string, rest: string)
    requires AllDigits(a) && AllDigits(b) && AllDigits(c) && |c| > 0 && PlainTail(rest)
    ensures ParseDate(a + "/" + b + "/" + c + "-" + rest)
         == Some(NewDate(ParseInt(c), MinusOne(ParseInt(b)), ParseInt(a)))
  {
    var s := a + "/" + b + "/" + c + "-" + rest;
    assert s == a + ['/'] + b + ['/'] + c + ['-'] + rest;
    DashTailShape(a, b, c, rest);
    ParseSlashed(s);
    YearStops(c, rest);
  }

  lemma YearStops(c: string, rest: string)
    requires |c| > 0 && AllDigits(c)
    ensures ParseInt(c + ['-'] + rest) == ParseInt(c)
  {
    var tail := ['-'] + rest;
    ParseIntStops(c, tail);
    assert c + ['-'] + rest == c + tail;
  }

  lemma ParseThreeSlashed(a: string, b: string, c: string)
    requires AllDigits(a) && AllDigits(b) && AllDigits(c)
    ensures ParseDate(a + "/" + b + "/" + c) == Some(NewDate(ParseInt(c), MinusOne(ParseInt(b)), ParseInt(a)))
  {
    var br := a + "/" + b + "/" + c;
    assert br == a + ['/'] + b + ['/'] + c;
    JoinedShape(a, b, c, '/');
    ParseSlashed(br);
  }

  lemma DashTailShape(a: string, b: string, c: string, rest: string)
    requires AllDigits(a) && AllDigits(b) && AllDigits(c) && PlainTail(rest)
    ensures var s := a + ['/'] + b + ['/'] + c + ['-'] + rest;
      && s != "" && Trim(s) == s && !Dashed(s) && Slashed(s)
      && Split(s, '/') == [a, b, c + ['-'] + rest]
  {
    var br := a + ['/'] + b + ['/'] + c;
    DigitsNoSpace(a);
    DigitsNoSpace(b);
    DigitsNoSpace(c);
    JoinedNoSpace(a, b, c, '/');
    JoinedMembers(a, b, c, '/', br);
    TailJoin(br, '-', rest);
    SlashPieces(a, b, c, rest);
  }

  lemma SlashPieces(a: string, b: string, c: string, rest: string)
    requires '/' !in a && '/' !in b && '/' !in c && '/' !in rest
    ensures Split(a + ['/'] + b + ['/'] + c + ['-'] + rest, '/') == [a, b, c + ['-'] + rest]
  {
    var year := c + ['-'] + rest;
    assert '/' !in year;
    assert a + ['/'] + b + ['/'] + c + ['-'] + rest == a + ['/'] + b + ['/'] + year;
    SplitThree(a, b, year, '/');
  }

  /** Text, a separator and a tail, none holding white space or `T`, and
      the separator in neither: nothing to trim and two pieces. */
  lemma TailJoin(t: string, sep: char, rest: string)
    requires NoSpace(t) && NoSpace(rest) && !IsSpace(sep) && sep != 'T'
    requires 'T' !in t && 'T' !in rest && sep !in t && sep !in rest
    ensures var s := t + [sep] + rest;
      && Trim(s) == s && BeforeT(s) == s && sep in s && Split(s, sep) == [t, rest]
  {
    var s := t + [sep] + rest;
    NoSpaceJoin(t, sep, rest);
    assert s[|t|] == sep;
    SplitSingle(s, 'T');
    SplitCons(t, sep, rest);
    SplitSingle(rest, sep);
  }

  /** `a`, the separator, then `b`, for `a` and `b` free of it: one piece
      each side. */
  lemma TwoFields(a: string, sep: char, b: string)
    requires AllDigits(a) && AllDigits(b) && (sep == '-' || sep == '/')
    ensures var s := a + [sep] + b;
      && Trim(s) == s && BeforeT(s) == s && sep in s
      && ('-' in s <==> sep == '-') && ('/' in s <==> sep == '/')
      && |Split(s, sep)| == 2
  {
    DigitsNoSpace(a);
    DigitsNoSpace(b);
    TailJoin(a, sep, b);
    TwoMembers(a, sep, b);
  }

  lemma TwoMembers(a: string, sep: char, b: string)
    requires '-' !in a && '-' !in b && '/' !in a && '/' !in b
    ensures var s := a + [sep] + b; ('-' in s <==> sep == '-') && ('/' in s <==> sep == '/')
  {
    assert (a + [sep] + b)[|a|] == sep;
  }

  /** Two digit fields are too few for either reading: "2024-01" and "1/2"
      give `null`. */
  lemma ParseTooFewFields(a: string, b: string)
    requires AllDigits(a) && AllDigits(b)
    ensures ParseDate(a + "-" + b).None?
    ensures ParseDate(a + "/" + b).None?
  {
    TwoFields(a, '-', b);
    TwoFields(a, '/', b);
  }

  /** Fields after the third are ignored: "2024-01-05-x" reads as
      "2024-01-05" does. */
  lemma ParseExtraDashField(a: string, b: string, c: string, rest: string)
    requires AllDigits(a) && AllDigits(b) && AllDigits(c) && PlainTail(rest)
    ensures ParseDate(a + "-" + b + "-" + c + "-" + rest) == ParseDate(a + "-" + b + "-" + c)
  {
    ParseExtraTail(a, b, c, rest);
    ParseThreeDashed(a, b, c);
  }

  lemma ParseExtraTail(a: string, b: string, c: string, rest: string)
    requires AllDigits(a) && AllDigits(b) && AllDigits(c) && PlainTail(rest)
    ensures ParseDate(a + "-" + b + "-" + c + "-" + rest)
         == Some(NewDate(ParseInt(a), MinusOne(ParseInt(b)), ParseInt(c)))
  {
    var s := a + "-" + b + "-" + c + "-" + rest;
    assert s == a + ['-'] + b + ['-'] + c + ['-'] + rest;
    ExtraFieldShape(a, b, c, rest);
    ParseDashed(s);
  }

  lemma ParseThreeDashed(a: string, b: string, c: string)
    requires AllDigits(a) && AllDigits(b) && AllDigits(c)
    ensures ParseDate(a + "-" + b + "-" + c) == Some(NewDate(ParseInt(a), MinusOne(ParseInt(b)), ParseInt(c)))
  {
    var iso := a + "-" + b + "-" + c;
    assert iso == a + ['-'] + b + ['-'] + c;
    JoinedShape(a, b, c, '-');
    ParseDashed(iso);
  }

  lemma ExtraFieldShape(a: string, b: string, c: string, rest: string)
    requires AllDigits(a) && AllDigits(b) && AllDigits(c) && PlainTail(rest)
    ensures var s := a + ['-'] + b + ['-'] + c + ['-'] + rest;
      && s != "" && Trim(s) == s && BeforeT(s) == s && Dashed(s)
      && Split(s, '-') == [a, b, c, rest]
  {
    var s := a + ['-'] + b + ['-'] + c + ['-'] + rest;
    FourFieldsNoSpace(a, b, c, rest);
    SplitSingle(s, 'T');
    SplitFour(a, b, c, rest);
  }

  lemma FourFieldsNoSpace(a: string, b: string, c: string, rest: string)
    requires AllDigits(a) && AllDigits(b) && AllDigits(c) && PlainTail(rest)
    ensures var s := a + ['-'] + b + ['-'] + c + ['-'] + rest;
      NoSpace(s) && 'T' !in s && '-' in s
  {
    DigitsNoSpace(a);
    DigitsNoSpace(b);
    DigitsNoSpace(c);
    JoinedNoSpace(a, b, c, '-');
    NoSpaceJoin(a + ['-'] + b + ['-'] + c, '-', rest);
    assert (a + ['-'] + b + ['-'] + c + ['-'] + rest)[|a|] == '-';
  }

  lemma SplitFour(a: string, b: string, c: string, rest: string)
    requires '-' !in a && '-' !in b && '-' !in c && '-' !in rest
    ensures Split(a + ['-'] + b + ['-'] + c + ['-'] + rest, '-') == [a, b, c, rest]
  {
    assert a + ['-'] + b + ['-'] + c + ['-'] + rest == a + ['-'] + (b + ['-'] + (c + ['-'] + rest));
    SplitCons(a, '-', b + ['-'] + (c + ['-'] + rest));
    SplitCons(b, '-', c + ['-'] + rest);
    SplitCons(c, '-', rest);
    SplitSingle(rest, '-');
  }

  /** White space around a date text is trimmed before reading:
      " 2024-01-05 " reads as "2024-01-05" does. */
  lemma ParsePadded(t: string)
    requires |t| > 0 && !IsSpace(t[0]) && !IsSpace(t[|t| - 1])
    ensures ParseDate(" " + t + " ") == ParseDate(t)
  {
    var s := " " + t + " ";
    assert s[1..] == t + " ";
    assert TrimStart(t + " ") == t + " ";
    assert (t + " ")[..|t|] == t;
    assert TrimEnd(t) == t;
    assert Trim(s) == t;
    ParseDateTrims(s);
    ParseDateTrims(t);
    TrimIdempotent(t);
  }

  /** Slash text not in three fields prints trimmed and unchanged: "1/2"
      prints as "1/2". */
  lemma FormatTwoSlashFields(a: string, b: string, showYear: bool)
    requires AllDigits(a) && AllDigits(b)
    ensures FormatDateBR(a + "/" + b, showYear) == a + "/" + b
  {
    TwoFields(a, '/', b);
  }
}
