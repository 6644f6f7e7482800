/**
 The volume of an item in cubic metres: a manual `m3` override when it
 parses, otherwise the leftmost dimension triple `A x B x C` (millimetres)
 found in the description, multiplied by the requested quantity.
 The scanner reads the pattern
   (\d+(?:[.,]\d+)?)\s*[xX*]\s*(\d+(?:[.,]\d+)?)\s*[xX*]\s*(\d+(?:[.,]\d+)?)
 position by position. Every choice in that pattern is forced (a digit run
 can only end before a non-digit, a fraction is taken whenever a digit
 follows the mark, white space is skipped entirely). `IsPattern` states
 what an occurrence of the pattern is; `MatchAt` finds every occurrence
 starting at its position, with the groups a backtracking engine reports
 (the last group as long as it goes), and `FindDims` returns the leftmost.
 */
module Volume {

  import opened Optional
  import opened Text
  import opened Numbers
  import opened Domain

  predicate IsTimes(c: char) {
    c == 'x' || c == 'X' || c == '*'
  }

  predicate IsDecimalMark(c: char) {
    c == '.' || c == ','
  }

  /** The text is `\d+(?:[.,]\d+)?`. */
  predicate IsNumberToken(t: string) {
    (|t| > 0 && AllDigits(t))
    || exists k | 0 < k < |t| - 1 :: AllDigits(t[..k]) && IsDecimalMark(t[k]) && AllDigits(t[k + 1..])
  }

  /** The text is `\s*[xX*]\s*`. */
  predicate IsSeparator(t: string) {
    exists k | 0 <= k < |t| :: IsBlank(t[..k]) && IsTimes(t[k]) && IsBlank(t[k + 1..])
  }

  /** End of the digit run starting at `i`. */
  function DigitsEnd(s: string, i: nat): (j: nat)
    requires i <= |s|
    ensures i <= j <= |s|
    ensures AllDigits(s[i..j])
    ensures j < |s| ==> !IsDigit(s[j])
    decreases |s| - i
  {
    if i < |s| && IsDigit(s[i]) then DigitsEnd(s, i + 1) else i
  }

  /** End of the white space starting at `i`. */
  function SpacesEnd(s: string, i: nat): (j: nat)
    requires i <= |s|
    ensures i <= j <= |s|
    ensures IsBlank(s[i..j])
    ensures j < |s| ==> !IsSpace(s[j])
    decreases |s| - i
  {
    if i < |s| && IsSpace(s[i]) then SpacesEnd(s, i + 1) else i
  }

  /** End of the greedy number token starting at digit `i`. */
  function NumberEnd(s: string, i: nat): (j: nat)
    requires i < |s| && IsDigit(s[i])
    ensures i < j <= |s|
    ensures IsNumberToken(s[i..j])
    ensures j < |s| ==> !IsDigit(s[j])
    ensures j == DigitsEnd(s, i) ==> !(j + 1 < |s| && IsDecimalMark(s[j]) && IsDigit(s[j + 1]))
  {
    var k := DigitsEnd(s, i);
    if k + 1 < |s| && IsDecimalMark(s[k]) && IsDigit(s[k + 1]) then
      var j := DigitsEnd(s, k + 1);
      var t := s[i..j];
      assert t[..k - i] == s[i..k];
      assert t[k - i + 1..] == s[k + 1..j];
      assert t[k - i] == s[k];
      assert 0 < k - i < |t| - 1;
      j
    else k
  }

  /** End of the separator `\s*[xX*]\s*` starting at `i`, if there is one. */
  function SeparatorEnd(s: string, i: nat): (r: Option<nat>)
    requires i <= |s|
    ensures r.Some? ==> i < r.value <= |s| && IsSeparator(s[i..r.value])
  {
    var p := SpacesEnd(s, i);
    if p < |s| && IsTimes(s[p]) then
      var q := SpacesEnd(s, p + 1);
      assert s[i..q][..p - i] == s[i..p];
      assert s[i..q][p - i + 1..] == s[p + 1..q];
      Some(q)
    else None
  }

  /** Positions of one match: three number tokens `[start, aEnd)`,
      `[bStart, bEnd)` and `[cStart, cEnd)`. */
  datatype Match = Match(start: nat, aEnd: nat, bStart: nat, bEnd: nat, cStart: nat, cEnd: nat)

  predicate WellPlaced(s: string, m: Match) {
    m.start < m.aEnd < m.bStart < m.bEnd < m.cStart < m.cEnd <= |s|
  }

  /** An occurrence of the pattern in `s` with its groups at `m`'s positions. */
  predicate IsPattern(s: string, m: Match) {
    && WellPlaced(s, m)
    && IsNumberToken(s[m.start..m.aEnd])
    && IsSeparator(s[m.aEnd..m.bStart])
    && IsNumberToken(s[m.bStart..m.bEnd])
    && IsSeparator(s[m.bEnd..m.cStart])
    && IsNumberToken(s[m.cStart..m.cEnd])
  }

  /** `r` starts where `m` does, has `m`'s first two groups and separators,
      and its last group reaches at least as far as `m`'s. */
  predicate Covers(r: Match, m: Match) {
    && r.start == m.start && r.aEnd == m.aEnd && r.bStart == m.bStart
    && r.bEnd == m.bEnd && r.cStart == m.cStart && m.cEnd <= r.cEnd
  }

  /** The pattern read from position `i`: an occurrence exactly when the
      pattern occurs at `i`, and then the one with the longest last group. */
  function MatchAt(s: string, i: nat): (r: Option<Match>)
    ensures r.Some? ==> r.value.start == i && IsPattern(s, r.value)
    ensures forall m :: IsPattern(s, m) && m.start == i ==> r.Some? && Covers(r.value, m)
  {
    assert forall m | IsPattern(s, m) && m.start == i :: ReadsAs(s, m) by {
      forall m | IsPattern(s, m) && m.start == i ensures ReadsAs(s, m) {
        PatternReading(s, m);
      }
    }
    if i < |s| && IsDigit(s[i]) then
      var aEnd := NumberEnd(s, i);
      match SeparatorEnd(s, aEnd)
      case None => None
      case Some(bStart) =>
        if bStart < |s| && IsDigit(s[bStart]) then
          var bEnd := NumberEnd(s, bStart);
          match SeparatorEnd(s, bEnd)
          case None => None
          case Some(cStart) =>
            if cStart < |s| && IsDigit(s[cStart]) then
              Some(Match(i, aEnd, bStart, bEnd, cStart, NumberEnd(s, cStart)))
            else None
        else None
    else None
  }

  /** The reading of the pattern from every position of `s`. */
  function Matches(s: string): (ms: seq<Option<Match>>)
    ensures |ms| == |s|
    ensures forall j :: 0 <= j < |s| ==> ms[j] == MatchAt(s, j)
  {
    seq(|s|, j requires 0 <= j < |s| => MatchAt(s, j))
  }

  /** The first position at or after `from` where `ms` holds something. */
  function FirstIndex(ms: seq<Option<Match>>, from: nat): (r: Option<nat>)
    requires from <= |ms|
    ensures r.Some? ==> from <= r.value < |ms| && ms[r.value].Some?
    ensures forall j :: from <= j < (if r.Some? then r.value else |ms|) ==> ms[j].None?
    decreases |ms| - from
  {
    if from == |ms| then None
    else if ms[from].Some? then Some(from)
    else FirstIndex(ms, from + 1)
  }

  /** A position holding something with nothing before it is the first. */
  lemma {:induction false} FirstIndexAt(ms: seq<Option<Match>>, from: nat, k: nat)
    requires from <= k < |ms| && ms[k].Some?
    requires forall j :: from <= j < k ==> ms[j].None?
    ensures FirstIndex(ms, from) == Some(k)
    decreases k - from
  {
    if from < k {
      FirstIndexAt(ms, from + 1, k);
    }
  }

  /** `s.match(regex)`: the leftmost match at or after `from`. */
  function FindDims(s: string, from: nat): (r: Option<Match>)
    requires from <= |s|
    ensures r.Some? ==> from <= r.value.start && MatchAt(s, r.value.start) == r
    ensures forall j :: from <= j < (if r.Some? then r.value.start else |s|) ==> MatchAt(s, j).None?
    ensures r.Some? ==> IsPattern(s, r.value)
    ensures forall m :: IsPattern(s, m) && from <= m.start ==> r.Some? && r.value.start <= m.start
  {
    var ms := Matches(s);
    assert forall m | IsPattern(s, m) && from <= m.start :: MatchAt(s, m.start).Some?;
    match FirstIndex(ms, from)
    case None => None
    case Some(k) => ms[k]
  }

  /** A match with no match before it is the leftmost one. */
  lemma FirstMatch(s: string, from: nat, m: Match)
    requires from <= m.start && MatchAt(s, m.start) == Some(m)
    requires forall j :: from <= j < m.start ==> MatchAt(s, j).None?
    ensures FindDims(s, from) == Some(m)
  {
    var ms := Matches(s);
    assert ms[m.start] == Some(m);
    FirstIndexAt(ms, from, m.start);
  }

  /** `parseFloat(group.replace(',', '.'))` */
  function TokenValue(t: string): real {
    FloatOrZero(ReplaceFirst(t, ',', '.'))
  }

  predicate IsDecimalText(ip: string, fp: string) {
    |ip| > 0 && AllDigits(ip) && AllDigits(fp)
  }

  /** A matched group reads as the non-negative decimal it spells, with
      either mark as the decimal separator. */
  lemma TokenValueIsDecimal(t: string)
    requires IsNumberToken(t)
    ensures exists ip, fp :: IsDecimalText(ip, fp) && TokenValue(t) == DecimalValue(ip, fp)
    ensures TokenValue(t) >= 0.0
  {
    var ip, fp := TokenParts(t);
  }

  /** The integer and fraction digits a matched group spells. */
  lemma TokenParts(t: string) returns (ip: string, fp: string)
    requires IsNumberToken(t)
    ensures IsDecimalText(ip, fp) && TokenValue(t) == DecimalValue(ip, fp)
  {
    if |t| > 0 && AllDigits(t) {
      WholeTokenValue(t);
      ip, fp := t, "";
    } else {
      var k :| 0 < k < |t| - 1 && AllDigits(t[..k]) && IsDecimalMark(t[k]) && AllDigits(t[k + 1..]);
      ip, fp := FractionParts(t, k);
    }
  }

  lemma FractionParts(t: string, k: nat) returns (ip: string, fp: string)
    requires 0 < k < |t| - 1 && AllDigits(t[..k]) && IsDecimalMark(t[k]) && AllDigits(t[k + 1..])
    ensures IsDecimalText(ip, fp) && TokenValue(t) == DecimalValue(ip, fp)
  {
    ip, fp := t[..k], t[k + 1..];
    assert t == ip + [t[k]] + fp;
    FractionTokenValue(ip, t[k], fp);
  }

  lemma NoCommaInDigits(t: string)
    requires AllDigits(t)
    ensures ',' !in t
  {
    forall i | 0 <= i < |t| ensures t[i] != ',' {
      assert IsDigit(t[i]);
    }
  }

  lemma WholeTokenValue(t: string)
    requires |t| > 0 && AllDigits(t)
    ensures TokenValue(t) == DecimalValue(t, "") >= 0.0
    ensures TokenValue(t) == DigitsValue(t) as real
  {
    NoCommaInDigits(t);
    ParseFloatOfDigits(t);
    NoFraction(t);
  }

  lemma FractionTokenValue(ip: string, mark: char, fp: string)
    requires |ip| > 0 && AllDigits(ip) && IsDecimalMark(mark) && AllDigits(fp)
    ensures TokenValue(ip + [mark] + fp) == DecimalValue(ip, fp) >= 0.0
  {
    NoCommaInDigits(ip);
    NoCommaInDigits(fp);
    ReplaceBehindDigits(ip, mark, fp);
    ParseFloatOfDecimal(ip, fp);
  }

  lemma ReplaceBehindDigits(ip: string, mark: char, fp: string)
    requires ',' !in ip && ',' !in fp && IsDecimalMark(mark)
    ensures ReplaceFirst(ip + [mark] + fp, ',', '.') == ip + "." + fp
  {
    var tail := [mark] + fp;
    assert ip + [mark] + fp == ip + tail;
    ReplaceFirstAfter(ip, tail, ',', '.');
    assert tail[0] == mark && tail[1..] == fp;
    if mark == ',' {
      assert ReplaceFirst(tail, ',', '.') == ['.'] + fp;
    } else {
      assert ReplaceFirst(tail, ',', '.') == ['.'] + ReplaceFirst(fp, ',', '.');
    }
  }

  /** `parseFloat(item.m3.replace(',', '.'))` when `item.m3` is non-empty. */
  function ManualVolume(item: Item): Option<real> {
    if item.m3 != "" then ParseFloat(ReplaceFirst(item.m3, ',', '.')) else None
  }

  /** A dimension group read in millimetres, in metres. */
  function Metres(t: string): (v: real)
    ensures IsNumberToken(t) ==> v >= 0.0
  {
    if IsNumberToken(t) then TokenValueIsDecimal(t); TokenValue(t) / 1000.0
    else TokenValue(t) / 1000.0
  }

  /** The product of three lengths and a count. */
  function Box(a: real, b: real, c: real, count: real): (v: real)
    ensures a >= 0.0 && b >= 0.0 && c >= 0.0 && count >= 0.0 ==> v >= 0.0
  {
    ProductNonNegative(a, b, c, count);
    a * b * c * count
  }

  lemma ProductNonNegative(a: real, b: real, c: real, d: real)
    ensures a >= 0.0 && b >= 0.0 && c >= 0.0 && d >= 0.0 ==> a * b * c * d >= 0.0
  {
    if a >= 0.0 && b >= 0.0 && c >= 0.0 {
      assert a * b >= 0.0;
      assert a * b * c >= 0.0;
    }
  }

  /** The volume from the description's dimensions, times the quantity:
      with a match, the product of the three groups in metres and the
      requested quantity (`real` plays no part); without one, nothing. */
  function DimensionVolume(desc: string, qtd: string): (v: real)
    ensures (forall m :: !IsPattern(desc, m)) ==> v == 0.0
    ensures FindDims(desc, 0).None? <==> forall m :: !IsPattern(desc, m)
    ensures FindDims(desc, 0).Some? ==> v == DimensionsOf(desc, FindDims(desc, 0).value, qtd)
    ensures FloatOrZero(qtd) >= 0.0 ==> v >= 0.0
  {
    match FindDims(desc, 0)
    case None => 0.0
    case Some(m) => DimensionsOf(desc, m, qtd)
  }

  /** The volume a match describes. */
  function DimensionsOf(desc: string, m: Match, qtd: string): (v: real)
    requires MatchAt(desc, m.start) == Some(m)
    ensures FloatOrZero(qtd) >= 0.0 ==> v >= 0.0
  {
    Box(Metres(desc[m.start..m.aEnd]), Metres(desc[m.bStart..m.bEnd]), Metres(desc[m.cStart..m.cEnd]),
        FloatOrZero(qtd))
  }

  /** `calculateVolumeFromDesc` */
  function CalculateVolume(item: Item): (v: real)
    ensures ManualVolume(item).Some? ==> v == ManualVolume(item).value
    ensures ManualVolume(item).None? ==> v == DimensionVolume(item.desc, item.qtd)
    ensures ManualVolume(item).None? && (forall m :: !IsPattern(item.desc, m)) ==> v == 0.0
    ensures ManualVolume(item).None? && FloatOrZero(item.qtd) >= 0.0 ==> v >= 0.0
  {
    match ManualVolume(item)
    case Some(v) => v
    case None => DimensionVolume(item.desc, item.qtd)
  }

  /** `DigitsEnd` stops exactly at the first non-digit. */
  lemma {:induction false} DigitsEndAt(s: string, i: nat, j: nat)
    requires i <= j <= |s|
    requires forall k | i <= k < j :: IsDigit(s[k])
    requires j < |s| ==> !IsDigit(s[j])
    ensures DigitsEnd(s, i) == j
    decreases j - i
  {
    if i < j {
      DigitsEndAt(s, i + 1, j);
    }
  }

  /** `SpacesEnd` stops exactly at the first non-space. */
  lemma {:induction false} SpacesEndAt(s: string, i: nat, j: nat)
    requires i <= j <= |s|
    requires forall k | i <= k < j :: IsSpace(s[k])
    requires j < |s| ==> !IsSpace(s[j])
    ensures SpacesEnd(s, i) == j
    decreases j - i
  {
    if i < j {
      SpacesEndAt(s, i + 1, j);
    }
  }

  /** A digit run ending on a character that is neither space, separator
      nor decimal mark cannot start a match. */
  lemma NoMatchAtStop(s: string, j: nat, e: nat)
    requires j < |s| && IsDigit(s[j]) && e < |s| && DigitsEnd(s, j) == e
    requires !IsSpace(s[e]) && !IsTimes(s[e]) && !IsDecimalMark(s[e])
    ensures MatchAt(s, j).None?
  {
    SpacesEndAt(s, e, e);
  }

  /** What reading the pattern from `m.start` meets at each step when the
      pattern occurs there with groups `m`. */
  predicate ReadsAs(s: string, m: Match)
    requires IsPattern(s, m)
  {
    && IsDigit(s[m.start]) && NumberEnd(s, m.start) == m.aEnd
    && SeparatorEnd(s, m.aEnd) == Some(m.bStart)
    && IsDigit(s[m.bStart]) && NumberEnd(s, m.bStart) == m.bEnd
    && SeparatorEnd(s, m.bEnd) == Some(m.cStart)
    && IsDigit(s[m.cStart]) && m.cEnd <= NumberEnd(s, m.cStart)
  }

  /** Every step of the reading is forced by an occurrence of the pattern. */
  lemma PatternReading(s: string, m: Match)
    requires IsPattern(s, m)
    ensures ReadsAs(s, m)
  {
    var p := SeparatorShape(s, m.aEnd, m.bStart);
    var q := SeparatorShape(s, m.bEnd, m.cStart);
    assert IsSpace(s[m.aEnd]) || IsTimes(s[m.aEnd]);
    assert IsSpace(s[m.bEnd]) || IsTimes(s[m.bEnd]);
    NumberEndForced(s, m.start, m.aEnd);
    NumberEndForced(s, m.bStart, m.bEnd);
    NumberEndCovers(s, m.cStart, m.cEnd);
    SeparatorEndForced(s, m.aEnd, p, m.bStart);
    SeparatorEndForced(s, m.bEnd, q, m.cStart);
  }

  /** A number token followed by white space or the times sign ends where
      the greedy reading ends it. */
  lemma NumberEndForced(s: string, i: nat, a: nat)
    requires i < a < |s| && IsNumberToken(s[i..a])
    requires IsSpace(s[a]) || IsTimes(s[a])
    ensures IsDigit(s[i]) && NumberEnd(s, i) == a
  {
    var p := TokenShape(s, i, a);
    if p == a {
      DigitsEndAt(s, i, a);
    } else {
      DigitsEndAt(s, i, p);
      DigitsEndAt(s, p + 1, a);
    }
  }

  /** The greedy reading of a number token reaches at least its end. */
  lemma NumberEndCovers(s: string, i: nat, f: nat)
    requires i <= f <= |s| && IsNumberToken(s[i..f])
    ensures i < |s| && IsDigit(s[i]) && f <= NumberEnd(s, i)
  {
    var p := TokenShape(s, i, f);
    if p == f {
      DigitsEndReaches(s, i, f);
    } else {
      DigitsEndAt(s, i, p);
      DigitsEndReaches(s, p + 1, f);
    }
  }

  predicate DigitRun(s: string, i: nat, j: nat)
    requires i <= j <= |s|
  {
    forall q | i <= q < j :: IsDigit(s[q])
  }

  predicate SpaceRun(s: string, i: nat, j: nat)
    requires i <= j <= |s|
  {
    forall q | i <= q < j :: IsSpace(s[q])
  }

  /** The positions of a number token `s[i..a]`: digits up to `p` and, when
      `p < a`, a decimal mark at `p` followed by digits up to `a`. */
  lemma TokenShape(s: string, i: nat, a: nat) returns (p: nat)
    requires i <= a <= |s| && IsNumberToken(s[i..a])
    ensures i < p <= a && DigitRun(s, i, p)
    ensures p < a ==> p + 1 < a && IsDecimalMark(s[p]) && DigitRun(s, p + 1, a)
  {
    var t := s[i..a];
    if |t| > 0 && AllDigits(t) {
      DigitsOfSlice(s, i, a);
      p := a;
    } else {
      var k :| 0 < k < |t| - 1 && AllDigits(t[..k]) && IsDecimalMark(t[k]) && AllDigits(t[k + 1..]);
      p := i + k;
      FractionShape(s, i, p, a);
    }
  }

  lemma FractionShape(s: string, i: nat, p: nat, a: nat)
    requires i < p && p + 1 < a <= |s|
    requires AllDigits(s[i..a][..p - i]) && IsDecimalMark(s[i..a][p - i]) && AllDigits(s[i..a][p - i + 1..])
    ensures DigitRun(s, i, p) && IsDecimalMark(s[p]) && DigitRun(s, p + 1, a)
  {
    assert s[i..a][..p - i] == s[i..p];
    assert s[i..a][p - i + 1..] == s[p + 1..a];
    DigitsOfSlice(s, i, p);
    DigitsOfSlice(s, p + 1, a);
  }

  /** The positions of a separator `s[a..b]`: white space up to the times
      sign at `p`, then white space up to `b`. */
  lemma SeparatorShape(s: string, a: nat, b: nat) returns (p: nat)
    requires a <= b <= |s| && IsSeparator(s[a..b])
    ensures a <= p < b && SpaceRun(s, a, p) && IsTimes(s[p]) && SpaceRun(s, p + 1, b)
  {
    var t := s[a..b];
    var k :| 0 <= k < |t| && IsBlank(t[..k]) && IsTimes(t[k]) && IsBlank(t[k + 1..]);
    p := a + k;
    TimesShape(s, a, p, b);
  }

  lemma TimesShape(s: string, a: nat, p: nat, b: nat)
    requires a <= p < b <= |s|
    requires IsBlank(s[a..b][..p - a]) && IsTimes(s[a..b][p - a]) && IsBlank(s[a..b][p - a + 1..])
    ensures SpaceRun(s, a, p) && IsTimes(s[p]) && SpaceRun(s, p + 1, b)
  {
    assert s[a..b][..p - a] == s[a..p];
    assert s[a..b][p - a + 1..] == s[p + 1..b];
    SpacesOfSlice(s, a, p);
    SpacesOfSlice(s, p + 1, b);
  }

  lemma DigitsOfSlice(s: string, i: nat, j: nat)
    requires i <= j <= |s| && AllDigits(s[i..j])
    ensures DigitRun(s, i, j)
  {
    forall q | i <= q < j ensures IsDigit(s[q]) {
      assert s[i..j][q - i] == s[q];
    }
  }

  lemma SpacesOfSlice(s: string, i: nat, j: nat)
    requires i <= j <= |s| && IsBlank(s[i..j])
    ensures SpaceRun(s, i, j)
  {
    forall q | i <= q < j ensures IsSpace(s[q]) {
      assert s[i..j][q - i] == s[q];
    }
  }

  /** A digit run from `i` to `j` is read at least to `j`. */
  lemma {:induction false} DigitsEndReaches(s: string, i: nat, j: nat)
    requires i <= j <= |s|
    requires forall k | i <= k < j :: IsDigit(s[k])
    ensures j <= DigitsEnd(s, i)
    decreases j - i
  {
    if i < j {
      DigitsEndReaches(s, i + 1, j);
    }
  }

  /** A separator followed by a digit ends where the reading ends it. */
  lemma SeparatorEndForced(s: string, a: nat, p: nat, b: nat)
    requires a <= p < b < |s| && IsDigit(s[b])
    requires SpaceRun(s, a, p) && IsTimes(s[p]) && SpaceRun(s, p + 1, b)
    ensures SeparatorEnd(s, a) == Some(b)
  {
    SpacesEndAt(s, a, p);
    SpacesEndAt(s, p + 1, b);
  }
}
