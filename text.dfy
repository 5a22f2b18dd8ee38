/** Text handling shared by the loaders: the parts of .NET's `string` and
    number parsing/formatting that the source relies on, read over ASCII.
    Strings are `seq<char>`. */
module Text {
  import opened Base

  /** The white-space characters that `NumberStyles` allows and `Trim`
      removes (ASCII only). */
  predicate IsWhite(c: char)
  {
    c == ' ' || c == '\t' || c == '\n' || c == '\r' || c == '\U{000B}' || c == '\U{000C}'
  }

  predicate IsDigit(c: char) { '0' <= c <= '9' }

  predicate AllDigits(s: string) { forall i :: 0 <= i < |s| ==> IsDigit(s[i]) }

  /** No character of `s` is `c`. */
  predicate Excludes(s: string, c: char) { forall i :: 0 <= i < |s| ==> s[i] != c }

  predicate IsBlank(s: string) { forall i :: 0 <= i < |s| ==> IsWhite(s[i]) }

  function TrimStart(s: string): (r: string)
    ensures |r| <= |s| && r == s[|s| - |r|..]
    ensures |r| > 0 ==> !IsWhite(r[0])
    ensures IsBlank(s[..|s| - |r|])
  {
    if |s| > 0 && IsWhite(s[0]) then TrimStart(s[1..]) else s
  }

  function TrimEnd(s: string): (r: string)
    ensures |r| <= |s| && r == s[..|r|]
    ensures |r| > 0 ==> !IsWhite(r[|r| - 1])
    ensures IsBlank(s[|r|..])
  {
    if |s| > 0 && IsWhite(s[|s| - 1]) then TrimEnd(s[..|s| - 1]) else s
  }

  /** `string.Trim()`. */
  function Trim(s: string): (r: string)
    ensures |r| > 0 ==> !IsWhite(r[0]) && !IsWhite(r[|r| - 1])
  {
    TrimEnd(TrimStart(s))
  }

  /** A string whose ends are not white space is its own trim. */
  lemma TrimKeeps(s: string)
    requires |s| > 0 && !IsWhite(s[0]) && !IsWhite(s[|s| - 1])
    ensures Trim(s) == s
  {
    assert TrimStart(s) == s;
  }

  function StartsWith(s: string, p: string): bool { |p| <= |s| && s[..|p|] == p }

  function EndsWith(s: string, p: string): bool { |p| <= |s| && s[|s| - |p|..] == p }

  function ToLowerChar(c: char): char
  {
    if 'A' <= c <= 'Z' then (c as int - 'A' as int + 'a' as int) as char else c
  }

  /** `ToLower` / `OrdinalIgnoreCase` over ASCII letters. */
  function ToLower(s: string): (r: string)
    ensures |r| == |s| && forall i :: 0 <= i < |s| ==> r[i] == ToLowerChar(s[i])
  {
    if s == [] then [] else [ToLowerChar(s[0])] + ToLower(s[1..])
  }

  /** `p` occurs in `s` at position `k`. */
  predicate OccursAt(s: string, p: string, k: int)
  {
    0 <= k && k + |p| <= |s| && s[k..k + |p|] == p
  }

  function IndexFrom(s: string, p: string, k: nat): (r: Option<nat>)
    requires k <= |s|
    ensures r.Some? ==> k <= r.value && OccursAt(s, p, r.value)
    ensures forall j :: k <= j && (r.None? || j < r.value) ==> !OccursAt(s, p, j)
    decreases |s| - k
  {
    if k + |p| > |s| then None
    else if s[k..k + |p|] == p then Some(k)
    else if k == |s| then None
    else IndexFrom(s, p, k + 1)
  }

  /** `string.IndexOf(p)`: the first position where `p` occurs. */
  function IndexOf(s: string, p: string): (r: Option<nat>)
    ensures r.Some? ==> OccursAt(s, p, r.value)
    ensures forall j :: 0 <= j && (r.None? || j < r.value) ==> !OccursAt(s, p, j)
  {
    IndexFrom(s, p, 0)
  }

  /** `string.Split(seps)`: the pieces between separators, empty pieces
      kept. */
  function Split(s: string, seps: set<char>): (r: seq<string>)
    ensures |r| >= 1
    ensures forall k, i :: 0 <= k < |r| && 0 <= i < |r[k]| ==> r[k][i] !in seps
  {
    if |s| == 0 then [""]
    else
      var rest := Split(s[1..], seps);
      if s[0] in seps then [""] + rest
      else [[s[0]] + rest[0]] + rest[1..]
  }

  function NonEmpty(parts: seq<string>): (r: seq<string>)
    ensures |r| <= |parts|
    ensures forall k :: 0 <= k < |r| ==> r[k] != ""
  {
    if parts == [] then []
    else if parts[0] == "" then NonEmpty(parts[1..])
    else [parts[0]] + NonEmpty(parts[1..])
  }

  /** `string.Split(seps, StringSplitOptions.RemoveEmptyEntries)`. */
  function SplitNonEmpty(s: string, seps: set<char>): seq<string>
  {
    NonEmpty(Split(s, seps))
  }

  /** `string.Join(sep, parts)`. */
  function Join(parts: seq<string>, sep: string): string
  {
    if |parts| == 0 then ""
    else if |parts| == 1 then parts[0]
    else parts[0] + sep + Join(parts[1..], sep)
  }

  lemma {:induction false} SplitWithoutSeparator(a: string, seps: set<char>)
    requires forall i :: 0 <= i < |a| ==> a[i] !in seps
    ensures Split(a, seps) == [a]
  {
    if |a| > 0 {
      SplitWithoutSeparator(a[1..], seps);
      assert [a[0]] + a[1..] == a;
    }
  }

  lemma {:induction false} SplitAtSeparator(a: string, c: char, b: string, seps: set<char>)
    requires forall i :: 0 <= i < |a| ==> a[i] !in seps
    requires c in seps
    ensures Split(a + [c] + b, seps) == [a] + Split(b, seps)
  {
    var s := a + [c] + b;
    if |a| == 0 {
      assert s[1..] == b;
    } else {
      assert s[1..] == a[1..] + [c] + b;
      SplitAtSeparator(a[1..], c, b, seps);
      assert [a[0]] + a[1..] == a;
    }
  }

  /** Splitting a joined line on its one-character separator gives the parts
      back, as long as no part contains the separator. */
  lemma {:induction false} SplitJoin(parts: seq<string>, c: char)
    requires |parts| >= 1
    requires forall k :: 0 <= k < |parts| ==> Excludes(parts[k], c)
    ensures Split(Join(parts, [c]), {c}) == parts
  {
    if |parts| == 1 {
      SplitWithoutSeparator(parts[0], {c});
    } else {
      SplitJoin(parts[1..], c);
      assert parts[0] + [c] + Join(parts[1..], [c]) == Join(parts, [c]);
      SplitAtSeparator(parts[0], c, Join(parts[1..], [c]), {c});
      assert [parts[0]] + parts[1..] == parts;
    }
  }

  /** `StringReader.ReadLine` repeated to the end: lines end at `\n`, `\r`
      or `\r\n`, and a final line break yields no extra empty line. */
  function ReadLines(s: string): (r: seq<string>)
    ensures forall k :: 0 <= k < |r| ==> Excludes(r[k], '\n') && Excludes(r[k], '\r')
    decreases |s|
  {
    if |s| == 0 then []
    else
      var k := LineBreak(s, 0);
      if k == |s| then [s]
      else if s[k] == '\r' && k + 1 < |s| && s[k + 1] == '\n' then [s[..k]] + ReadLines(s[k + 2..])
      else [s[..k]] + ReadLines(s[k + 1..])
  }

  /** The first line break at or after `k`, or |s|. */
  function LineBreak(s: string, k: nat): (r: nat)
    requires k <= |s|
    ensures k <= r <= |s|
    ensures r < |s| ==> s[r] == '\n' || s[r] == '\r'
    ensures forall i :: k <= i < r ==> s[i] != '\n' && s[i] != '\r'
    decreases |s| - k
  {
    if k == |s| || s[k] == '\n' || s[k] == '\r' then k else LineBreak(s, k + 1)
  }

  function DigitValue(c: char): nat
    requires IsDigit(c)
  {
    c as int - '0' as int
  }

  function DigitChar(d: nat): (c: char)
    requires d < 10
    ensures IsDigit(c) && DigitValue(c) == d
  {
    ('0' as int + d) as char
  }

  /** The value of a string of decimal digits. */
  function DigitsValue(ds: string): nat
    requires AllDigits(ds)
  {
    if |ds| == 0 then 0 else 10 * DigitsValue(ds[..|ds| - 1]) + DigitValue(ds[|ds| - 1])
  }

  /** The shortest decimal digits of `n`. */
  function NatToString(n: nat): (s: string)
    ensures |s| >= 1 && AllDigits(s)
  {
    if n < 10 then [DigitChar(n)] else NatToString(n / 10) + [DigitChar(n % 10)]
  }

  lemma {:induction false} NatToStringValue(n: nat)
    ensures DigitsValue(NatToString(n)) == n
  {
    if n >= 10 {
      var s := NatToString(n);
      NatToStringValue(n / 10);
      assert s[..|s| - 1] == NatToString(n / 10);
    }
  }

  /** `int.ToString()` in the invariant culture. */
  function IntToString(i: int): string
  {
    if i < 0 then "-" + NatToString(-i) else NatToString(i)
  }

  /** The longest prefix of `s` made of digits. */
  function LeadingDigits(s: string): (r: string)
    ensures |r| <= |s| && r == s[..|r|] && AllDigits(r)
    ensures |r| < |s| ==> !IsDigit(s[|r|])
  {
    if |s| > 0 && IsDigit(s[0]) then [s[0]] + LeadingDigits(s[1..]) else ""
  }

  /** The longest suffix of `s` made of digits. */
  function TrailingDigits(s: string): (r: string)
    ensures |r| <= |s| && r == s[|s| - |r|..] && AllDigits(r)
    ensures |r| < |s| ==> !IsDigit(s[|s| - |r| - 1])
  {
    if |s| > 0 && IsDigit(s[|s| - 1]) then TrailingDigits(s[..|s| - 1]) + [s[|s| - 1]] else ""
  }

  /** `int.TryParse(s, NumberStyles.Integer, invariant)`: optional white
      space around an optional sign and at least one digit, within the 32-bit
      range. */
  function ParseInt32(s: string): (r: Option<int>)
    ensures r.Some? ==> IsInt32(r.value)
  {
    ParseSigned(Trim(s))
  }

  /** An optional sign and at least one digit, within the 32-bit range. */
  function ParseSigned(t: string): (r: Option<int>)
    ensures r.Some? ==> IsInt32(r.value)
  {
    var neg := |t| > 0 && t[0] == '-';
    var body := if |t| > 0 && (t[0] == '-' || t[0] == '+') then t[1..] else t;
    if |body| == 0 || !AllDigits(body) then None
    else
      var v := if neg then -(DigitsValue(body) as int) else DigitsValue(body) as int;
      if IsInt32(v) then Some(v) else None
  }

  /** Printing a 32-bit integer and parsing it back gives it back. */
  lemma IntToStringParses(i: int)
    requires IsInt32(i)
    ensures ParseInt32(IntToString(i)) == Some(i)
  {
    var s := IntToString(i);
    var m: nat := if i < 0 then -i else i;
    var d := NatToString(m);
    NatToStringValue(m);
    assert IsDigit(d[0]) && IsDigit(d[|d| - 1]);
    if i < 0 {
      assert s == "-" + d;
      assert s[1..] == d;
      assert s[|s| - 1] == d[|d| - 1];
      assert ParseSigned(s) == Some(i);
    } else {
      assert s == d;
      assert ParseSigned(s) == Some(i);
    }
    TrimKeeps(s);
  }


  /** `m` times ten to the power `e`, one factor of ten at a time. */
  function ApplyExponent(m: real, e: int): real
    decreases if e >= 0 then e else -e
  {
    if e == 0 then m
    else if e > 0 then 10.0 * ApplyExponent(m, e - 1)
    else ApplyExponent(m, e + 1) / 10.0
  }

  /** The value of the digits after a decimal point. */
  function FractionValue(fp: string): (r: real)
    requires AllDigits(fp)
    ensures 0.0 <= r <= 1.0
  {
    if fp == "" then 0.0 else (DigitValue(fp[0]) as real + FractionValue(fp[1..])) / 10.0
  }

  /** The exponent part "e±digits" of a number, if `s` is exactly one. */
  function ParseExponent(s: string): Option<int>
  {
    if |s| < 2 || (s[0] != 'e' && s[0] != 'E') then None
    else
      var neg := s[1] == '-';
      var ds := if s[1] == '-' || s[1] == '+' then s[2..] else s[1..];
      if |ds| == 0 || !AllDigits(ds) then None
      else Some(if neg then -(DigitsValue(ds) as int) else DigitsValue(ds) as int)
  }

  /** `float.TryParse(s, NumberStyles.Float, invariant)` over exact reals:
      optional white space, an optional sign, digits with an optional
      fraction (at least one digit in all), and an optional exponent. */
  function ParseReal(s: string): Option<real>
  {
    var t := Trim(s);
    var neg := |t| > 0 && t[0] == '-';
    var body := if |t| > 0 && (t[0] == '-' || t[0] == '+') then t[1..] else t;
    var ip := LeadingDigits(body);
    var rest := body[|ip|..];
    var fp := if |rest| > 0 && rest[0] == '.' then LeadingDigits(rest[1..]) else "";
    var tail := if |rest| > 0 && rest[0] == '.' then rest[1 + |fp|..] else rest;
    if |ip| + |fp| == 0 then None
    else
      var mantissa := DigitsValue(ip) as real + FractionValue(fp);
      var e := if tail == "" then Some(0) else ParseExponent(tail);
      if e.None? then None
      else
        var v := ApplyExponent(mantissa, e.value);
        Some(if neg then -v else v)
  }

  /** Left-pads with zeros to width `w`. */
  function PadZeros(s: string, w: nat): (r: string)
    ensures |r| == MaxI(|s|, w)
    ensures r[|r| - |s|..] == s
    ensures forall i :: 0 <= i < |r| - |s| ==> r[i] == '0'
  {
    if |s| >= w then s else seq(w - |s|, _ => '0') + s
  }

  /** The "D<w>" format of an integer: a minus sign for a negative value, then
      at least `w` digits. */
  function FormatD(i: int, w: nat): string
  {
    if i < 0 then "-" + PadZeros(NatToString(-i), w) else PadZeros(NatToString(i), w)
  }

  /** Rounds a non-negative value half away from zero. */
  function RoundHalfUp(x: real): nat
    requires x >= 0.0
  {
    (x + 0.5).Floor
  }

  /** The digits of the "F<d>" format of a non-negative value `n / 10^d`:
      the integer part, a point and `d` fraction digits. */
  function FixedDigits(n: nat, d: nat): (s: string)
    ensures Excludes(s, ',')
  {
    var p := Pow10(d);
    DivModNat(n, p);
    var a := NatToString(n / p);
    var m := NatToString(n % p);
    var b := PadZeros(m, d);
    DigitsExclude(a, ',');
    PaddedDigitsExclude(m, d, ',');
    ExcludesConcat(".", b, ',');
    ExcludesConcat(a, "." + b, ',');
    ExcludesConcat(a, "", ',');
    a + (if d == 0 then "" else "." + b)
  }

  lemma DivModNat(n: nat, p: nat)
    requires p >= 1
    ensures n / p >= 0 && 0 <= n % p < p
  {
  }

  lemma ExcludesConcat(a: string, b: string, c: char)
    requires Excludes(a, c) && Excludes(b, c)
    ensures Excludes(a + b, c)
  {
  }

  /** The "F<d>" format of a number in the invariant culture, rounding half
      away from zero on the exact value. It never contains a comma, so it can
      stand as a CSV field. */
  function FormatFixed(r: real, d: nat): (s: string)
    ensures Excludes(s, ',')
  {
    (if r < 0.0 then "-" else "") + FixedDigits(RoundHalfUp(Shifted(Abs(r), d)), d)
  }

  lemma NonNegProduct(a: real, b: real)
    requires a >= 0.0 && b >= 0.0
    ensures a * b >= 0.0
  {
  }

  lemma NonPosProduct(a: real, b: real)
    requires a <= 0.0 && b >= 0.0
    ensures a * b <= 0.0
  {
  }

  /** `x * 10^d`, one factor of ten at a time. */
  function Shifted(x: real, d: nat): (r: real)
    requires x >= 0.0
    ensures r >= 0.0
  {
    if d == 0 then x else 10.0 * Shifted(x, d - 1)
  }

  lemma DigitsExclude(s: string, c: char)
    requires AllDigits(s) && !IsDigit(c)
    ensures Excludes(s, c)
  {
  }

  lemma PaddedDigitsExclude(s: string, w: nat, c: char)
    requires AllDigits(s) && !IsDigit(c)
    ensures Excludes(PadZeros(s, w), c)
  {
    var p := PadZeros(s, w);
    forall i | 0 <= i < |p| ensures p[i] != c {
      if i >= |p| - |s| { assert p[i] == p[|p| - |s|..][i - (|p| - |s|)]; }
    }
  }

  lemma IntToStringNoComma(i: int)
    ensures Excludes(IntToString(i), ',')
  {
    if i < 0 { DigitsExclude(NatToString(-i), ','); } else { DigitsExclude(NatToString(i), ','); }
  }

  /** A printed integer holds only digits and a leading minus sign. */
  lemma IntToStringExcludes(i: int, c: char)
    requires !IsDigit(c) && c != '-'
    ensures Excludes(IntToString(i), c)
  {
    if i < 0 { DigitsExclude(NatToString(-i), c); } else { DigitsExclude(NatToString(i), c); }
  }

  /** A joined line starts with its first part. */
  lemma {:induction false} JoinStartsWith(parts: seq<string>, sep: string)
    requires |parts| >= 1
    ensures |parts[0]| <= |Join(parts, sep)| && Join(parts, sep)[..|parts[0]|] == parts[0]
  {
  }

  /** `bool.ToString()`. */
  function BoolText(b: bool): string { if b then "True" else "False" }
}
