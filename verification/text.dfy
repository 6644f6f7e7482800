/**
 The string primitives the application code relies on, written out over
 `seq<char>`: JavaScript's `trim`, `split`, `includes`, `slice`, `padStart`,
 `toUpperCase` and single-character `replace`. White space and case follow
 the ASCII subset of JavaScript's rules.
 */
module Text {

  import opened Optional

  /** JavaScript `\s` / `trim` white space, restricted to ASCII. */
  predicate IsSpace(c: char) {
    c == ' ' || c == '\t' || c == '\n' || c == '\r' || c == '\U{0B}' || c == '\U{0C}'
  }

  predicate NoSpace(s: string) {
    forall i :: 0 <= i < |s| ==> !IsSpace(s[i])
  }

  /** `s.trimStart()` */
  function TrimStart(s: string): (r: string)
    ensures |r| <= |s| && r == s[|s| - |r|..]
    ensures |r| > 0 ==> !IsSpace(r[0])
    ensures forall i :: 0 <= i < |s| - |r| ==> IsSpace(s[i])
  {
    if |s| > 0 && IsSpace(s[0]) then TrimStart(s[1..]) else s
  }

  /** `s.trimEnd()` */
  function TrimEnd(s: string): (r: string)
    ensures |r| <= |s| && r == s[..|r|]
    ensures |r| > 0 ==> !IsSpace(r[|r| - 1])
    ensures forall i :: |r| <= i < |s| ==> IsSpace(s[i])
  {
    if |s| > 0 && IsSpace(s[|s| - 1]) then TrimEnd(s[..|s| - 1]) else s
  }

  /** `r` is `s` with blank text of lengths `i` and `|s| - i - |r|` cut
      from its two ends. */
  predicate CutFrom(s: string, r: string, i: int) {
    0 <= i && i + |r| <= |s| && r == s[i..i + |r|] && IsBlank(s[..i]) && IsBlank(s[i + |r|..])
  }

  /** `s.trim()`: the text with only leading and trailing white space
      removed, and none left at either end. */
  function Trim(s: string): (r: string)
    ensures |r| <= |s|
    ensures |r| > 0 ==> !IsSpace(r[0]) && !IsSpace(r[|r| - 1])
    ensures exists i :: CutFrom(s, r, i)
    ensures NoSpace(s) ==> r == s
  {
    var a := TrimStart(s);
    var r := TrimEnd(a);
    assert CutFrom(s, r, |s| - |a|) by {
      assert s[|s| - |a|..][..|r|] == s[|s| - |a|..|s| - |a| + |r|];
      assert s[|s| - |a| + |r|..] == a[|r|..];
    }
    r
  }

  /** The text is blank: `s.trim() === ''`. */
  predicate IsBlank(s: string) {
    forall i :: 0 <= i < |s| ==> IsSpace(s[i])
  }

  /** Trimming twice is trimming once. */
  lemma TrimIdempotent(s: string)
    ensures Trim(Trim(s)) == Trim(s)
  {
    var t := Trim(s);
    if |t| > 0 {
      assert TrimStart(t) == t;
      assert TrimEnd(t) == t;
    }
  }

  lemma TrimEmptyIffBlank(s: string)
    ensures Trim(s) == "" <==> IsBlank(s)
  {
    var a := TrimStart(s);
    if |a| > 0 {
      assert !IsSpace(a[0]);
      assert |TrimEnd(a)| > 0;
      assert !IsSpace(s[|s| - |a|]);
    }
  }

  /** `s.replace(/\s+/g, '')` */
  function RemoveSpaces(s: string): (r: string)
    ensures NoSpace(r)
    ensures |r| <= |s|
    ensures NoSpace(s) ==> r == s
  {
    if |s| == 0 then ""
    else if IsSpace(s[0]) then RemoveSpaces(s[1..])
    else [s[0]] + RemoveSpaces(s[1..])
  }

  predicate IsLowerAscii(c: char) {
    'a' <= c <= 'z'
  }

  function UpperChar(c: char): (u: char)
    ensures !IsLowerAscii(u)
    ensures IsSpace(u) <==> IsSpace(c)
  {
    if IsLowerAscii(c) then (c as int - 32) as char else c
  }

  /** `s.toUpperCase()` on the ASCII letters. */
  function ToUpper(s: string): (r: string)
    ensures |r| == |s|
    ensures forall i :: 0 <= i < |s| ==> r[i] == UpperChar(s[i])
  {
    if |s| == 0 then "" else [UpperChar(s[0])] + ToUpper(s[1..])
  }

  /** `sub` occurs in `s` at position `i`. */
  predicate OccursAt(s: string, sub: string, i: int) {
    0 <= i && i + |sub| <= |s| && s[i..i + |sub|] == sub
  }

  /** `s.includes(sub)` */
  predicate Contains(s: string, sub: string) {
    exists i | 0 <= i <= |s| :: OccursAt(s, sub, i)
  }

  /** `s.indexOf(sub)`, as an option: the first position where `sub` occurs. */
  function Find(s: string, sub: string): (r: Option<nat>)
    ensures r.Some? ==> OccursAt(s, sub, r.value)
    ensures r.Some? ==> forall j :: 0 <= j < r.value ==> !OccursAt(s, sub, j)
    ensures r.None? ==> forall j :: !OccursAt(s, sub, j)
  {
    if |s| < |sub| then None
    else if s[..|sub|] == sub then Some(0)
    else
      var t := Find(s[1..], sub);
      assert forall j :: 1 <= j ==> OccursAt(s, sub, j) == OccursAt(s[1..], sub, j - 1) by {
        forall j | 1 <= j ensures OccursAt(s, sub, j) == OccursAt(s[1..], sub, j - 1) {
          if j + |sub| <= |s| {
            assert s[1..][j - 1..j - 1 + |sub|] == s[j..j + |sub|];
          }
        }
      }
      match t
      case None => None
      case Some(k) => Some(k + 1)
  }

  lemma ContainsIffFound(s: string, sub: string)
    ensures Contains(s, sub) <==> Find(s, sub).Some?
  {
  }

  /** `s.split(sep)` for a non-empty separator: the pieces between successive
      non-overlapping occurrences of `sep`, scanning left to right. */
  function SplitOn(s: string, sep: string): (parts: seq<string>)
    requires |sep| > 0
    ensures |parts| >= 1
    ensures forall k :: 0 <= k < |parts| ==> !Contains(parts[k], sep)
    decreases |s|
  {
    match Find(s, sep)
    case None => [s]
    case Some(i) =>
      var head := s[..i];
      assert !Contains(head, sep) by {
        forall j | OccursAt(head, sep, j) ensures false {
          assert head[j..j + |sep|] == s[j..j + |sep|];
          assert OccursAt(s, sep, j);
        }
      }
      [head] + SplitOn(s[i + |sep|..], sep)
  }

  /** `parts.join(sep)` */
  function Join(parts: seq<string>, sep: string): string
    requires |parts| >= 1
  {
    if |parts| == 1 then parts[0] else parts[0] + sep + Join(parts[1..], sep)
  }

  /** Joining the pieces of a split restores the text. */
  lemma {:induction false} JoinSplit(s: string, sep: string)
    requires |sep| > 0
    ensures Join(SplitOn(s, sep), sep) == s
    decreases |s|
  {
    var f := Find(s, sep);
    if f.Some? {
      var i := f.value;
      var rest := s[i + |sep|..];
      var parts := SplitOn(s, sep);
      assert parts == [s[..i]] + SplitOn(rest, sep);
      JoinSplit(rest, sep);
      assert |parts| > 1;
      assert Join(parts, sep) == s[..i] + sep + Join(parts[1..], sep);
      assert parts[1..] == SplitOn(rest, sep);
      assert s[i..i + |sep|] == sep;
      assert s == s[..i] + s[i..i + |sep|] + rest;
    }
  }

  /** `s.split(c)` for a one-character separator. */
  function Split(s: string, c: char): (parts: seq<string>)
    ensures |parts| >= 1
    ensures forall k :: 0 <= k < |parts| ==> c !in parts[k]
  {
    var parts := SplitOn(s, [c]);
    assert forall k :: 0 <= k < |parts| ==> c !in parts[k] by {
      forall k | 0 <= k < |parts| ensures c !in parts[k] {
        if c in parts[k] {
          var j :| 0 <= j < |parts[k]| && parts[k][j] == c;
          assert OccursAt(parts[k], [c], j);
        }
      }
    }
    parts
  }

  lemma NoOccurrenceOfAbsentChar(s: string, c: char)
    requires c !in s
    ensures Find(s, [c]).None?
  {
    forall j | 0 <= j < |s| ensures !OccursAt(s, [c], j) {
      assert s[j..j + 1][0] == s[j];
    }
  }

  /** A text without the separator is a single piece. */
  lemma SplitSingle(s: string, c: char)
    requires c !in s
    ensures Split(s, c) == [s]
  {
    NoOccurrenceOfAbsentChar(s, c);
  }

  /** The first piece is the text up to the first separator, or all of it. */
  lemma SplitFirst(s: string, c: char)
    ensures var p := Split(s, c)[0];
      |p| <= |s| && p == s[..|p|] && (|p| == |s| || s[|p|] == c)
  {
    match Find(s, [c])
    case None =>
      assert Split(s, c) == [s];
    case Some(i) =>
      assert Split(s, c)[0] == s[..i];
      assert s[i..i + 1] == [c];
  }

  /** The first separator ends the first piece. */
  lemma SplitCons(a: string, c: char, b: string)
    requires c !in a
    ensures Split(a + [c] + b, c) == [a] + Split(b, c)
  {
    var s := a + [c] + b;
    assert OccursAt(s, [c], |a|) by {
      assert s[|a|..|a| + 1] == [c];
    }
    forall j | 0 <= j < |a| ensures !OccursAt(s, [c], j) {
      assert s[j..j + 1][0] == a[j];
    }
    var f := Find(s, [c]);
    assert f == Some(|a|);
    assert s[..|a|] == a;
    assert s[|a| + 1..] == b;
  }

  /** Two separators cut a text into three pieces. */
  lemma SplitThree(a: string, b: string, c: string, sep: char)
    requires sep !in a && sep !in b && sep !in c
    ensures Split(a + [sep] + b + [sep] + c, sep) == [a, b, c]
  {
    assert a + [sep] + b + [sep] + c == a + [sep] + (b + [sep] + c);
    SplitCons(a, sep, b + [sep] + c);
    SplitCons(b, sep, c);
    SplitSingle(c, sep);
  }

  /** `parts[i]` read by destructuring: a missing piece prints as "undefined". */
  function Part(parts: seq<string>, i: nat): string {
    if i < |parts| then parts[i] else "undefined"
  }

  /** `s.slice(k)` for `k >= 0`. */
  function Drop(s: string, k: nat): (r: string)
    ensures |s| >= k ==> |r| == |s| - k
  {
    if k <= |s| then s[k..] else ""
  }

  /** `s.slice(-k)` for `k > 0`. */
  function Last(s: string, k: nat): (r: string)
    ensures |r| == if |s| < k then |s| else k
  {
    if |s| <= k then s else s[|s| - k..]
  }

  /** `s.padStart(2, '0')` */
  function Pad2(s: string): (r: string)
    ensures |r| >= 2
    ensures |s| >= 2 ==> r == s
    ensures |s| <= 2 ==> r[2 - |s|..] == s && forall i :: 0 <= i < 2 - |s| ==> r[i] == '0'
  {
    if |s| >= 2 then s else if |s| == 1 then "0" + s else "00"
  }

  /** `s.replace(a, b)` with one-character strings: only the first `a` changes. */
  function ReplaceFirst(s: string, a: char, b: char): (r: string)
    ensures |r| == |s|
    ensures a !in s ==> r == s
  {
    if |s| == 0 then ""
    else if s[0] == a then [b] + s[1..]
    else [s[0]] + ReplaceFirst(s[1..], a, b)
  }

  /** `r` is `s` with the `a` at position `i`, the first one, replaced by `b`. */
  predicate ReplacedAt(s: string, a: char, b: char, r: string, i: int) {
    0 <= i < |s| && s[i] == a && a !in s[..i] && r == s[..i] + [b] + s[i + 1..]
  }

  /** When `a` occurs, its first occurrence, and only that one, becomes `b`. */
  lemma {:induction false} ReplaceFirstAt(s: string, a: char, b: char)
    requires a in s
    ensures exists i :: ReplacedAt(s, a, b, ReplaceFirst(s, a, b), i)
    decreases |s|
  {
    if s[0] == a {
      assert s[..0] + [b] + s[1..] == [b] + s[1..];
      assert ReplacedAt(s, a, b, ReplaceFirst(s, a, b), 0);
    } else {
      var t := s[1..];
      assert s == [s[0]] + t;
      ReplaceFirstAt(t, a, b);
      var i :| ReplacedAt(t, a, b, ReplaceFirst(t, a, b), i);
      ReplaceFirstCons(s[0], t, a, b);
      ReplacedAtCons(s[0], t, a, b, ReplaceFirst(t, a, b), i);
    }
  }

  /** A character other than `a` in front shifts the replaced position by one. */
  lemma ReplacedAtCons(c: char, t: string, a: char, b: char, r: string, i: int)
    requires c != a && ReplacedAt(t, a, b, r, i)
    ensures ReplacedAt([c] + t, a, b, [c] + r, i + 1)
  {
    var s := [c] + t;
    assert s[..i + 1] == [c] + t[..i];
    assert s[i + 2..] == t[i + 1..];
  }

  /** A prefix free of `a` passes through the replacement unchanged. */
  lemma {:induction false} ReplaceFirstAfter(p: string, s: string, a: char, b: char)
    requires a !in p
    ensures ReplaceFirst(p + s, a, b) == p + ReplaceFirst(s, a, b)
    decreases |p|
  {
    if |p| > 0 {
      var q := p[1..];
      assert a !in q;
      ReplaceFirstAfter(q, s, a, b);
      calc {
        ReplaceFirst(p + s, a, b);
        { assert p + s == [p[0]] + (q + s); }
        ReplaceFirst([p[0]] + (q + s), a, b);
        { ReplaceFirstCons(p[0], q + s, a, b); }
        [p[0]] + ReplaceFirst(q + s, a, b);
        [p[0]] + (q + ReplaceFirst(s, a, b));
        { assert p == [p[0]] + q; }
        p + ReplaceFirst(s, a, b);
      }
    } else {
      assert p + s == s;
    }
  }

  lemma ReplaceFirstCons(c: char, t: string, a: char, b: char)
    requires c != a
    ensures ReplaceFirst([c] + t, a, b) == [c] + ReplaceFirst(t, a, b)
  {
    assert ([c] + t)[0] == c;
    assert ([c] + t)[1..] == t;
  }

  predicate StartsWith(s: string, c: char) {
    |s| > 0 && s[0] == c
  }
}
