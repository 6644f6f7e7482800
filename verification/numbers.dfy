/**
 Decimal text and numbers: `String(n)` for integers, and `parseInt` /
 `parseFloat` read as prefix parsers (leading white space, an optional sign,
 digits and, for `parseFloat`, an optional fraction). `NaN` is `None`.
 */
module Numbers {

  import opened Optional
  import opened Text

  predicate IsDigit(c: char) {
    '0' <= c <= '9'
  }

  predicate AllDigits(s: string) {
    forall i :: 0 <= i < |s| ==> IsDigit(s[i])
  }

  function DigitValue(c: char): nat
    requires IsDigit(c)
  {
    c as int - '0' as int
  }

  function DigitChar(d: nat): (c: char)
    requires d < 10
    ensures IsDigit(c) && DigitValue(c) == d
  {
    ('0' as int + d) as char
  }

  /** The value of a run of decimal digits, most significant first. */
  function DigitsValue(s: string): nat
    requires AllDigits(s)
  {
    if |s| == 0 then 0 else DigitsValue(s[..|s| - 1]) * 10 + DigitValue(s[|s| - 1])
  }

  function Pow10(k: nat): (p: nat)
    ensures p >= 1
  {
    if k == 0 then 1 else 10 * Pow10(k - 1)
  }

  /** `String(n)` for a natural number: its shortest decimal digits. */
  function NatToString(n: nat): (s: string)
    ensures |s| >= 1 && AllDigits(s)
    ensures DigitsValue(s) == n
    ensures s[0] == '0' <==> n == 0
    ensures n < 10 <==> |s| == 1
  {
    if n < 10 then [DigitChar(n)]
    else
      var s := NatToString(n / 10) + [DigitChar(n % 10)];
      assert s[..|s| - 1] == NatToString(n / 10);
      s
  }

  /** `String(i)` for an integer. */
  function IntToString(i: int): (s: string)
    ensures |s| >= 1
    ensures i >= 0 ==> AllDigits(s)
    ensures i < 0 ==> s[0] == '-'
  {
    if i < 0 then "-" + NatToString(-i) else NatToString(i)
  }

  /** The longest prefix of `s` made of digits. */
  function LeadingDigits(s: string): (d: string)
    ensures AllDigits(d) && |d| <= |s| && d == s[..|d|]
    ensures |d| < |s| ==> !IsDigit(s[|d|])
    ensures AllDigits(s) ==> d == s
  {
    if |s| > 0 && IsDigit(s[0]) then [s[0]] + LeadingDigits(s[1..]) else ""
  }

  /** An optional leading sign: whether it is `-`, and the text after it. */
  function SplitSign(s: string): (r: (bool, string))
    ensures |r.1| >= |s| - 1
  {
    if StartsWith(s, '-') then (true, s[1..])
    else if StartsWith(s, '+') then (false, s[1..])
    else (false, s)
  }

  function Signed(negative: bool, v: real): real {
    if negative then -v else v
  }

  /** `parseInt(s)` (radix 10). */
  function ParseInt(s: string): (r: Option<int>)
    ensures r.Some? <==> |LeadingDigits(SplitSign(TrimStart(s)).1)| > 0
  {
    var (negative, body) := SplitSign(TrimStart(s));
    var d := LeadingDigits(body);
    if d == "" then None
    else Some(if negative then -(DigitsValue(d) as int) else DigitsValue(d))
  }

  /** The value of the decimal `ip.fp`. */
  function DecimalValue(ip: string, fp: string): (v: real)
    requires AllDigits(ip) && AllDigits(fp)
    ensures v >= 0.0
  {
    DigitsValue(ip) as real + DigitsValue(fp) as real / Pow10(|fp|) as real
  }

  /** The fraction digits at the start of `after`, if it starts with `.`. */
  function FractionDigits(after: string): (fp: string)
    ensures AllDigits(fp)
    ensures !StartsWith(after, '.') ==> fp == ""
  {
    if StartsWith(after, '.') then LeadingDigits(after[1..]) else ""
  }

  /** The unsigned part of `parseFloat`: digits, then an optional `.` and digits. */
  function UnsignedDecimal(body: string): (r: Option<real>)
    ensures r.Some? ==> r.value >= 0.0
  {
    var ip := LeadingDigits(body);
    var fp := FractionDigits(body[|ip|..]);
    if ip == "" && fp == "" then None
    else Some(DecimalValue(ip, fp))
  }

  /** `parseFloat(s)`: an optional sign and an unsigned decimal; no exponent. */
  function ParseFloat(s: string): (r: Option<real>)
    ensures r.Some? <==> UnsignedDecimal(SplitSign(TrimStart(s)).1).Some?
  {
    var (negative, body) := SplitSign(TrimStart(s));
    match UnsignedDecimal(body)
    case None => None
    case Some(v) => Some(Signed(negative, v))
  }

  /** `parseFloat(s) || 0` */
  function FloatOrZero(s: string): real {
    ParseFloat(s).GetOr(0.0)
  }

  /** `parseInt` reads back what `String` wrote, for every integer. */
  lemma ParseIntOfString(i: int)
    ensures ParseInt(IntToString(i)) == Some(i)
  {
    if i < 0 {
      ParseIntOfNegative(NatToString(-i));
    } else {
      ParseIntOfDigits(NatToString(i));
    }
  }

  /** `parseInt` of a minus sign and digits is the negated value of the digits. */
  lemma ParseIntOfNegative(d: string)
    requires |d| > 0 && AllDigits(d)
    ensures ParseInt("-" + d) == Some(-(DigitsValue(d) as int))
  {
    var s := "-" + d;
    assert !IsSpace(s[0]);
    assert TrimStart(s) == s;
    assert s[1..] == d;
    assert SplitSign(s) == (true, d);
  }

  /** Text that starts with a digit has no white space or sign to skip. */
  lemma StartsWithDigit(s: string)
    requires |s| > 0 && IsDigit(s[0])
    ensures SplitSign(TrimStart(s)) == (false, s)
  {
    assert !IsSpace(s[0]);
    assert TrimStart(s) == s;
  }

  /** `parseFloat` of unsigned text is its unsigned decimal reading. */
  lemma ParseFloatUnsigned(s: string)
    requires |s| > 0 && IsDigit(s[0])
    ensures ParseFloat(s) == UnsignedDecimal(s)
  {
    StartsWithDigit(s);
    var u := UnsignedDecimal(s);
    if u.Some? {
      assert Signed(false, u.value) == u.value;
    }
  }

  /** `parseFloat` reads a plain decimal `ip.fp` as its value. */
  lemma ParseFloatOfDecimal(ip: string, fp: string)
    requires AllDigits(ip) && AllDigits(fp) && |ip| > 0
    ensures ParseFloat(ip + "." + fp) == Some(DecimalValue(ip, fp))
  {
    var s := ip + "." + fp;
    var tail := "." + fp;
    assert s == ip + tail;
    ParseFloatUnsigned(s);
    LeadingDigitsStop(ip, tail);
    assert LeadingDigits(s) == ip;
    assert s[|ip|..] == tail;
    assert tail[1..] == fp;
    assert FractionDigits(tail) == fp;
  }

  /** The same, for a text known to be spelled `ip.fp` with value `v`. */
  lemma ParseFloatOfDecimalText(s: string, ip: string, fp: string, v: real)
    requires AllDigits(ip) && AllDigits(fp) && |ip| > 0
    requires s == ip + "." + fp && DecimalValue(ip, fp) == v
    ensures ParseFloat(s) == Some(v)
  {
    ParseFloatOfDecimal(ip, fp);
  }

  /** `parseFloat` reads a plain digit string as its value. */
  lemma ParseFloatOfDigits(ip: string)
    requires AllDigits(ip) && |ip| > 0
    ensures ParseFloat(ip) == Some(DigitsValue(ip) as real)
  {
    ParseFloatUnsigned(ip);
    UnsignedOfDigits(ip);
  }

  /** Digits with nothing after them read as their value. */
  lemma UnsignedOfDigits(ip: string)
    requires AllDigits(ip) && |ip| > 0
    ensures UnsignedDecimal(ip) == Some(DigitsValue(ip) as real)
  {
    assert LeadingDigits(ip) == ip;
    assert ip[|ip|..] == "";
    assert FractionDigits("") == "";
    NoFraction(ip);
  }

  /** An empty fraction adds nothing. */
  lemma NoFraction(ip: string)
    requires AllDigits(ip)
    ensures DecimalValue(ip, "") == DigitsValue(ip) as real
  {
    assert DigitsValue("") == 0;
    assert Pow10(0) == 1;
  }

  /** A digit run followed by a non-digit is read up to the non-digit. */
  lemma {:induction false} LeadingDigitsStop(d: string, rest: string)
    requires AllDigits(d)
    requires |rest| > 0 && !IsDigit(rest[0])
    ensures LeadingDigits(d + rest) == d
    decreases |d|
  {
    if |d| > 0 {
      assert (d + rest)[1..] == d[1..] + rest;
      LeadingDigitsStop(d[1..], rest);
      assert d == [d[0]] + d[1..];
    }
  }

  /** `parseInt` stops at the first non-digit after a digit run. */
  lemma ParseIntStops(d: string, rest: string)
    requires |d| > 0 && AllDigits(d)
    requires |rest| > 0 && !IsDigit(rest[0])
    ensures ParseInt(d + rest) == ParseInt(d)
  {
    StartsWithDigit(d + rest);
    StartsWithDigit(d);
    LeadingDigitsStop(d, rest);
  }

  /** A leading zero does not change a digit string's value. */
  lemma {:induction false} LeadingZero(s: string)
    requires AllDigits(s)
    ensures AllDigits("0" + s) && DigitsValue("0" + s) == DigitsValue(s)
    decreases |s|
  {
    var z := "0" + s;
    assert AllDigits(z) by {
      forall i | 0 <= i < |z| ensures IsDigit(z[i]) {
        if i > 0 {
          assert z[i] == s[i - 1];
        }
      }
    }
    if |s| > 0 {
      assert z[..|z| - 1] == "0" + s[..|s| - 1];
      assert z[|z| - 1] == s[|s| - 1];
      LeadingZero(s[..|s| - 1]);
    } else {
      assert z[..0] == "";
    }
  }

  /** `parseInt` of a digit string is the value of its digits. */
  lemma ParseIntOfDigits(s: string)
    requires |s| > 0 && AllDigits(s)
    ensures ParseInt(s) == Some(DigitsValue(s))
  {
    StartsWithDigit(s);
  }

  /** `parseInt(String(n).padStart(2, '0'))` reads back `n`. */
  lemma ParseIntOfPadded(n: nat)
    ensures AllDigits(Pad2(NatToString(n)))
    ensures ParseInt(Pad2(NatToString(n))) == Some(n)
  {
    var s := NatToString(n);
    if |s| == 1 {
      LeadingZero(s);
      assert Pad2(s) == "0" + s;
    }
    ParseIntOfDigits(Pad2(s));
  }

  /** Digit strings hold no sign or separator. */
  lemma NoCharOutsideDigits(s: string, c: char)
    requires AllDigits(s) && !IsDigit(c)
    ensures c !in s
  {
    forall i | 0 <= i < |s| ensures s[i] != c {
      assert IsDigit(s[i]);
    }
  }
}
