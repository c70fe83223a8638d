/**
 * The JavaScript string and number built-ins the application relies on:
 * `String(n)` for integers, `padStart`, `trim`, `parseInt`, `Number(s)` and the
 * `<` comparison of strings. Strings are sequences of Unicode scalar values.
 */
module JsText {
  import opened Wrappers


  /**
   * The WhiteSpace and LineTerminator code points of ECMA-262 (sections 12.2 and 12.3):
   * tab, line feed, vertical tab, form feed and carriage return (U+0009 to U+000D), the
   * space, and the wide ones below.
   */
  predicate IsWhiteSpace(c: char) {
    c == ' ' || ('\t' <= c <= '\r') || ('\U{A0}' <= c && IsWideWhiteSpace(c))
  }

  /** The white space code points from U+00A0 on. */
  predicate IsWideWhiteSpace(c: char) {
    c == '\U{A0}' || c == '\U{1680}' || ('\U{2000}' <= c <= '\U{200A}') || c == '\U{2028}'
    || c == '\U{2029}' || c == '\U{202F}' || c == '\U{205F}' || c == '\U{3000}' || c == '\U{FEFF}'
  }

  predicate AllWhiteSpace(s: string) {
    forall i :: 0 <= i < |s| ==> IsWhiteSpace(s[i])
  }

  /** The number of white space characters `s` starts with. */
  function LeadingWhiteSpace(s: string): (n: nat)
    ensures n <= |s| && AllWhiteSpace(s[..n])
    ensures n < |s| ==> !IsWhiteSpace(s[n])
  {
    if s != [] && IsWhiteSpace(s[0]) then
      var m := LeadingWhiteSpace(s[1..]);
      assert s[..m + 1] == [s[0]] + s[1..][..m];
      m + 1
    else 0
  }

  /** The number of white space characters `s` ends with. */
  function TrailingWhiteSpace(s: string): (n: nat)
    ensures n <= |s| && AllWhiteSpace(s[|s| - n..])
    ensures n < |s| ==> !IsWhiteSpace(s[|s| - n - 1])
  {
    if s != [] && IsWhiteSpace(s[|s| - 1]) then
      var init := s[..|s| - 1];
      var m := TrailingWhiteSpace(init);
      assert s[|s| - (m + 1)..] == init[|init| - m..] + [s[|s| - 1]];
      m + 1
    else 0
  }

  /** Leading white space removed: what `parseInt` skips before its sign. */
  function TrimStart(s: string): (r: string) {
    s[LeadingWhiteSpace(s)..]
  }

  /** Trailing white space removed. */
  function TrimEnd(s: string): (r: string) {
    s[..|s| - TrailingWhiteSpace(s)]
  }

  /** `String.prototype.trim`: the longest infix that neither starts nor ends with white space. */
  function Trim(s: string): (r: string)
    ensures |r| <= |s|
    ensures r == [] <==> AllWhiteSpace(s)
    ensures r != [] ==> !IsWhiteSpace(r[0]) && !IsWhiteSpace(r[|r| - 1])
  {
    TrimmedEmptyMeansBlank(s);
    TrimEnd(TrimStart(s))
  }

  /** A string whose first character is not white space has none to skip at its start. */
  lemma {:induction false} NoLeadingWhiteSpace(s: string)
    requires s == [] || !IsWhiteSpace(s[0])
    ensures TrimStart(s) == s
  {
    assert LeadingWhiteSpace(s) == 0;
  }

  /** A string whose last character is not white space has none to drop at its end. */
  lemma {:induction false} NoTrailingWhiteSpace(s: string)
    requires s == [] || !IsWhiteSpace(s[|s| - 1])
    ensures TrimEnd(s) == s
  {
    assert TrailingWhiteSpace(s) == 0;
  }

  /** Trimming a trimmed string changes nothing. */
  lemma {:induction false} TrimIsIdempotent(s: string)
    ensures Trim(Trim(s)) == Trim(s)
  {
    var r := Trim(s);
    NoLeadingWhiteSpace(r);
    NoTrailingWhiteSpace(r);
  }

  /**
   * `trim` removes white space and only white space, from both ends: the result is the
   * infix of `s` between its leading and its trailing white space.
   */
  lemma {:induction false} TrimIsInfix(s: string)
    ensures var a, r := LeadingWhiteSpace(s), Trim(s);
      a + |r| <= |s| && r == s[a..a + |r|]
      && AllWhiteSpace(s[..a]) && AllWhiteSpace(s[a + |r|..])
  {
    var a := LeadingWhiteSpace(s);
    var t := s[a..];
    var b := TrailingWhiteSpace(t);
    var r := t[..|t| - b];
    assert r == Trim(s);
    assert r == s[a..a + |r|];
    assert s[a + |r|..] == t[|t| - b..];
  }

  /** Only a string of white space trims to nothing. */
  lemma {:induction false} TrimmedEmptyMeansBlank(s: string)
    ensures TrimEnd(TrimStart(s)) == [] <==> AllWhiteSpace(s)
  {
    var a := LeadingWhiteSpace(s);
    var t := s[a..];
    var b := TrailingWhiteSpace(t);
    if b == |t| {
      assert t[|t| - b..] == t;
      assert a == |s|;
      assert s[..a] == s;
    }
    if AllWhiteSpace(s) {
      assert a == |s|;
    }
  }

  predicate IsDecimalDigit(c: char) {
    '0' <= c <= '9'
  }

  predicate AllDecimalDigits(s: string) {
    forall i :: 0 <= i < |s| ==> IsDecimalDigit(s[i])
  }

  function DigitChar(d: int): (c: char)
    requires 0 <= d < 10
    ensures IsDecimalDigit(c) && c as int - '0' as int == d
  {
    ('0' as int + d) as char
  }

  /** `String(n)` for a non-negative integer: its decimal numeral without leading zeros. */
  function NatToString(n: nat): (r: string)
    ensures |r| >= 1 && AllDecimalDigits(r)
    ensures r[0] == '0' ==> n == 0
    ensures n < 10 <==> |r| == 1
  {
    if n < 10 then [DigitChar(n)]
    else NatToString(n / 10) + [DigitChar(n % 10)]
  }

  /** `String(n)` for an integer (below 10^21, where JavaScript switches to exponent notation). */
  function IntToString(n: int): (r: string)
    ensures |r| >= 1
    ensures n >= 0 ==> r == NatToString(n)
    ensures n < 0 ==> r == "-" + NatToString(-n)
  {
    if n < 0 then "-" + NatToString(-n) else NatToString(n)
  }

  /** `s.padStart(width, fill)` with a one-character fill. */
  function PadStart(s: string, width: nat, fill: char): (r: string)
    ensures |s| >= width ==> r == s
    ensures |s| < width ==> |r| == width && r[width - |s|..] == s
    ensures forall i :: 0 <= i < |r| - |s| ==> r[i] == fill
  {
    if |s| >= width then s else seq(width - |s|, _ => fill) + s
  }

  /** The value of a radix digit (0-9, a-z, A-Z), or none for any other character. */
  function DigitValue(c: char): (v: int)
    ensures -1 <= v < 36
    ensures v == -1 <==> !(IsDecimalDigit(c) || 'a' <= c <= 'z' || 'A' <= c <= 'Z')
    ensures v < 10 ==> (v >= 0 <==> IsDecimalDigit(c))
  {
    if IsDecimalDigit(c) then c as int - '0' as int
    else if 'a' <= c <= 'z' then c as int - 'a' as int + 10
    else if 'A' <= c <= 'Z' then c as int - 'A' as int + 10
    else -1
  }

  predicate IsRadixDigit(c: char, radix: nat) {
    0 <= DigitValue(c) < radix
  }

  /** The length of the longest prefix of `s` made of digits of `radix`. */
  function DigitPrefixLength(s: string, radix: nat): (n: nat)
    ensures n <= |s|
    ensures forall i :: 0 <= i < n ==> IsRadixDigit(s[i], radix)
    ensures n < |s| ==> !IsRadixDigit(s[n], radix)
  {
    if s == [] || !IsRadixDigit(s[0], radix) then 0
    else 1 + DigitPrefixLength(s[1..], radix)
  }

  /** The number that a string of radix digits denotes, most significant digit first. */
  function ValueInRadix(z: string, radix: nat): (v: nat)
    requires forall i :: 0 <= i < |z| ==> IsRadixDigit(z[i], radix)
  {
    if z == [] then 0
    else
      var init := z[..|z| - 1];
      assert forall i :: 0 <= i < |init| ==> init[i] == z[i];
      var high: nat := ValueInRadix(init, radix);
      assert IsRadixDigit(z[|z| - 1], radix);
      var d := DigitValue(z[|z| - 1]);
      NaturalProduct(high, radix);
      high * radix + d
  }

  lemma {:induction false} NaturalProduct(a: nat, b: nat)
    ensures a * b >= 0
  {
  }

  /**
   * The unsigned part of `parseInt`: after `0x` or `0X` the digits are read in radix 16,
   * otherwise in radix 10; the longest run of digits is read, and none at all gives NaN.
   */
  function ParseUnsigned(u: string): (r: Option<nat>)
    ensures r.None? <==>
      if |u| >= 2 && u[0] == '0' && (u[1] == 'x' || u[1] == 'X')
      then u[2..] == [] || !IsRadixDigit(u[2], 16)
      else u == [] || !IsDecimalDigit(u[0])
  {
    var hex := |u| >= 2 && u[0] == '0' && (u[1] == 'x' || u[1] == 'X');
    var radix := if hex then 16 else 10;
    var body := if hex then u[2..] else u;
    var z := body[..DigitPrefixLength(body, radix)];
    if z == [] then None else Some(ValueInRadix(z, radix))
  }

  /**
   * `parseInt(s)` with the radix argument omitted (section 19.2.5 of ECMA-262): skip
   * leading white space, read an optional sign, then the unsigned numeral.
   * `None` stands for NaN; -0 is reported as 0.
   */
  function ParseInt(s: string): (r: Option<int>)
    ensures AllWhiteSpace(s) ==> r.None?
  {
    var t := TrimStart(s);
    var negative := |t| > 0 && t[0] == '-';
    var u := if |t| > 0 && (t[0] == '-' || t[0] == '+') then t[1..] else t;
    match ParseUnsigned(u)
    case None => None
    case Some(v) => Some(if negative then -(v as int) else v as int)
  }

  /** Reading back a decimal numeral gives the number it was printed from. */
  lemma {:induction false} ValueOfNatToString(n: nat)
    ensures ValueInRadix(NatToString(n), 10) == n
  {
    var s := NatToString(n);
    if n >= 10 {
      ValueOfNatToString(n / 10);
      assert s[..|s| - 1] == NatToString(n / 10);
    }
  }

  /** A run of digits of a radix is also read entirely when followed by a non-digit. */
  lemma {:induction false} DigitPrefixOfNumeral(z: string, rest: string, radix: nat)
    requires forall i :: 0 <= i < |z| ==> IsRadixDigit(z[i], radix)
    requires rest == [] || !IsRadixDigit(rest[0], radix)
    ensures DigitPrefixLength(z + rest, radix) == |z|
  {
    if z != [] {
      assert (z + rest)[1..] == z[1..] + rest;
      DigitPrefixOfNumeral(z[1..], rest, radix);
    } else {
      assert z + rest == rest;
    }
  }

  /** A decimal numeral followed by a non-digit reads back as the number it was printed from. */
  lemma {:induction false} ParseUnsignedReadsNumeral(a: nat, rest: string)
    requires rest == [] || !IsDecimalDigit(rest[0])
    requires a == 0 ==> rest == [] || (rest[0] != 'x' && rest[0] != 'X')
    ensures ParseUnsigned(NatToString(a) + rest) == Some(a)
  {
    var digits := NatToString(a);
    var u := digits + rest;
    assert !(|u| >= 2 && u[0] == '0' && (u[1] == 'x' || u[1] == 'X')) by {
      if |u| >= 2 && u[0] == '0' {
        assert a == 0 && |digits| == 1;
        assert u[1] == rest[0];
      }
    }
    forall i | 0 <= i < |digits| ensures IsRadixDigit(digits[i], 10) {
      assert IsDecimalDigit(digits[i]);
    }
    DigitPrefixOfNumeral(digits, rest, 10);
    assert u[..|digits|] == digits;
    ValueOfNatToString(a);
  }

  /**
   * `parseInt` reads back every integer printed by `String(n)`, and stops at the first
   * character that is not a digit (so `parseInt("30abc")` is 30), except that a zero
   * followed by `x` or `X` switches to hexadecimal.
   */
  lemma {:induction false} ParseIntReadsLeadingNumeral(n: int, rest: string)
    requires rest == [] || !IsDecimalDigit(rest[0])
    requires n == 0 ==> rest == [] || (rest[0] != 'x' && rest[0] != 'X')
    ensures ParseInt(IntToString(n) + rest) == Some(n)
  {
    var a := if n < 0 then -n else n;
    var digits := NatToString(a);
    ParseUnsignedReadsNumeral(a, rest);
    assert IsDecimalDigit((digits + rest)[0]);
    SignedNumeral(n, rest);
    ParseIntOfSignedNumeral(n < 0, digits + rest, a);
  }

  /** The printed form of `n` is its sign followed by the digits of its magnitude. */
  lemma {:induction false} SignedNumeral(n: int, rest: string)
    ensures IntToString(n) + rest == (if n < 0 then "-" else "") + (NatToString(if n < 0 then -n else n) + rest)
  {
  }

  /** `parseInt` of an optional minus sign followed by an unsigned numeral. */
  lemma {:induction false} ParseIntOfSignedNumeral(negative: bool, u: string, v: nat)
    requires u != [] && IsDecimalDigit(u[0])
    requires ParseUnsigned(u) == Some(v)
    ensures ParseInt((if negative then "-" else "") + u) == Some(if negative then -(v as int) else v as int)
  {
    var s := (if negative then "-" else "") + u;
    assert s[0] == (if negative then '-' else u[0]);
    assert !IsWhiteSpace(s[0]);
    NoLeadingWhiteSpace(s);
    var t := TrimStart(s);
    var rest := if |t| > 0 && (t[0] == '-' || t[0] == '+') then t[1..] else t;
    assert rest == u by {
      if negative {
        assert s[1..] == u;
      } else {
        assert s == u;
      }
    }
    assert ParseUnsigned(rest) == Some(v);
  }

  /** The result of JavaScript's `Number(s)`, restricted to integers and NaN. */
  datatype JsNumber = Num(value: int) | NaN {
    /** Whether `n || x` keeps `n`: zero and NaN are falsy. */
    predicate Truthy() {
      Num? && value != 0
    }
  }

  /** Decimal digits are the digits of radix 10. */
  lemma {:induction false} DecimalDigitsAreRadixDigits(z: string)
    requires AllDecimalDigits(z)
    ensures forall i :: 0 <= i < |z| ==> IsRadixDigit(z[i], 10)
  {
    forall i | 0 <= i < |z|
      ensures IsRadixDigit(z[i], 10)
    {
      assert IsDecimalDigit(z[i]);
    }
  }

  /** A trimmed, non-empty string read as an optionally signed run of decimal digits. */
  function SignedDecimal(t: string): (r: JsNumber)
    requires t != []
    ensures AllDecimalDigits(t) ==> r.Num?
  {
    var body := if t[0] == '-' || t[0] == '+' then t[1..] else t;
    if body != [] && AllDecimalDigits(body) then
      DecimalDigitsAreRadixDigits(body);
      var v: int := ValueInRadix(body, 10);
      Num(if t[0] == '-' then -v else v)
    else NaN
  }

  /**
   * `Number(s)` for strings that hold an optionally signed decimal integer: surrounding
   * white space is ignored and an empty or all-blank string converts to 0.
   */
  function StringToNumber(s: string): (r: JsNumber)
    ensures AllWhiteSpace(s) ==> r == Num(0)
    ensures r.NaN? ==> !AllDecimalDigits(s)
  {
    DigitsNeedNoTrim(s);
    var t := Trim(s);
    if t == [] then Num(0) else SignedDecimal(t)
  }

  /** A string of decimal digits has no white space to trim. */
  lemma {:induction false} DigitsNeedNoTrim(s: string)
    ensures AllDecimalDigits(s) ==> Trim(s) == s
  {
    if AllDecimalDigits(s) && s != [] {
      assert !IsWhiteSpace(s[0]) && !IsWhiteSpace(s[|s| - 1]);
      NoLeadingWhiteSpace(s);
      NoTrailingWhiteSpace(s);
    }
  }

  /** `Number` reads a plain string of decimal digits as the number it denotes. */
  lemma {:induction false} StringToNumberOfDigits(s: string)
    requires AllDecimalDigits(s) && s != []
    ensures forall i :: 0 <= i < |s| ==> IsRadixDigit(s[i], 10)
    ensures StringToNumber(s) == Num(ValueInRadix(s, 10))
  {
    DigitsNeedNoTrim(s);
    DecimalDigitsAreRadixDigits(s);
    assert IsDecimalDigit(s[0]);
    assert SignedDecimal(s) == Num(ValueInRadix(s, 10));
  }

  /** JavaScript's `a < b` on strings: lexicographic order, a proper prefix first. */
  predicate StringLess(a: string, b: string) {
    if b == [] then false
    else if a == [] then true
    else if a[0] != b[0] then a[0] < b[0]
    else StringLess(a[1..], b[1..])
  }

  lemma {:induction false} StringLessIrreflexive(a: string)
    ensures !StringLess(a, a)
  {
    if a != [] {
      StringLessIrreflexive(a[1..]);
    }
  }

  lemma {:induction false} StringLessTransitive(a: string, b: string, c: string)
    requires StringLess(a, b) && StringLess(b, c)
    ensures StringLess(a, c)
  {
    if a != [] && a[0] == b[0] && b[0] == c[0] {
      StringLessTransitive(a[1..], b[1..], c[1..]);
    }
  }

  /** Any two different strings are ordered one way or the other. */
  lemma {:induction false} StringLessTotal(a: string, b: string)
    requires a != b
    ensures StringLess(a, b) || StringLess(b, a)
  {
    if a != [] && b != [] && a[0] == b[0] {
      assert a == [a[0]] + a[1..] && b == [b[0]] + b[1..];
      StringLessTotal(a[1..], b[1..]);
    }
  }

  /** Comparing two strings whose first parts have equal length: the first parts decide unless they are equal. */
  lemma {:induction false} StringLessConcat(p: string, x: string, q: string, y: string)
    requires |p| == |q|
    ensures StringLess(p + x, q + y) == if p == q then StringLess(x, y) else StringLess(p, q)
  {
    if p != [] {
      assert (p + x)[1..] == p[1..] + x && (q + y)[1..] == q[1..] + y;
      StringLessConcat(p[1..], x, q[1..], y);
      if p[0] == q[0] {
        assert p == [p[0]] + p[1..] && q == [q[0]] + q[1..];
      }
    } else {
      assert p + x == x && q + y == y;
    }
  }

  /** Appending one digit keeps the order of the numbers it is appended to. */
  lemma {:induction false} PlaceValueOrder(h: nat, d: int, k: nat, e: int)
    requires 0 <= d < 10 && 0 <= e < 10
    ensures h * 10 + d < k * 10 + e <==> h < k || (h == k && d < e)
    ensures h * 10 + d == k * 10 + e <==> h == k && d == e
  {
    if h < k {
      assert h * 10 + 10 <= k * 10;
    } else if k < h {
      assert k * 10 + 10 <= h * 10;
    }
  }

  /** For decimal numerals of the same length, string order is numeric order. */
  lemma {:induction false} DigitStringLess(u: string, v: string)
    requires |u| == |v| && AllDecimalDigits(u) && AllDecimalDigits(v)
    ensures forall i :: 0 <= i < |u| ==> IsRadixDigit(u[i], 10) && IsRadixDigit(v[i], 10)
    ensures StringLess(u, v) <==> ValueInRadix(u, 10) < ValueInRadix(v, 10)
    ensures u == v <==> ValueInRadix(u, 10) == ValueInRadix(v, 10)
  {
    DecimalDigitsAreRadixDigits(u);
    DecimalDigitsAreRadixDigits(v);
    if u != [] {
      var n := |u| - 1;
      var u', v' := u[..n], v[..n];
      DigitStringLess(u', v');
      assert u == u' + [u[n]] && v == v' + [v[n]];
      StringLessConcat(u', [u[n]], v', [v[n]]);
      if u' != v' {
        StringLessTotal(u', v');
      }
      assert IsDecimalDigit(u[n]) && IsDecimalDigit(v[n]);
      var d, e := DigitValue(u[n]), DigitValue(v[n]);
      assert ValueInRadix(u, 10) == ValueInRadix(u', 10) * 10 + d;
      assert ValueInRadix(v, 10) == ValueInRadix(v', 10) * 10 + e;
      PlaceValueOrder(ValueInRadix(u', 10), d, ValueInRadix(v', 10), e);
      assert StringLess([u[n]], [v[n]]) <==> d < e;
    }
  }
}
