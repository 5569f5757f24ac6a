/**
 * The pieces of JavaScript's string and number semantics that the application
 * relies on: `trim`, `toLowerCase`/`toUpperCase` (ASCII letters), `parseInt`,
 * `Number.prototype.toString` on integers, the string order (by code point) used by
 * `Array.prototype.sort`, and `Math.round` on a non-negative ratio.
 */
module Js {
  import opened Wrappers

  /** WhiteSpace and LineTerminator code points of ECMAScript: what `trim` and `parseInt` skip. */
  predicate IsWhitespace(c: char) {
    c == '\t' || c == '\n' || c == '\U{0B}' || c == '\U{0C}' || c == '\r' || c == ' '
    || c == '\U{A0}' || c == '\U{1680}' || ('\U{2000}' <= c <= '\U{200A}')
    || c == '\U{2028}' || c == '\U{2029}' || c == '\U{202F}' || c == '\U{205F}'
    || c == '\U{3000}' || c == '\U{FEFF}'
  }

  /** `String.prototype.trimStart`: the longest suffix that does not start with whitespace. */
  function TrimStart(s: string): (r: string)
    ensures |r| <= |s|
    decreases |s|
  {
    if s != [] && IsWhitespace(s[0]) then TrimStart(s[1..]) else s
  }

  /** `trimStart` keeps a suffix, drops only whitespace, and stops at the first other character. */
  lemma {:induction false} TrimStartSuffix(s: string)
    ensures TrimStart(s) == s[|s| - |TrimStart(s)|..]
    ensures forall k :: 0 <= k < |s| - |TrimStart(s)| ==> IsWhitespace(s[k])
    ensures TrimStart(s) == [] || !IsWhitespace(TrimStart(s)[0])
    decreases |s|
  {
    if s != [] && IsWhitespace(s[0]) {
      TrimStartSuffix(s[1..]);
      var n := |s| - |TrimStart(s)|;
      assert s[1..][n - 1..] == s[n..];
      forall k | 0 <= k < n
        ensures IsWhitespace(s[k])
      {
        if k > 0 {
          assert s[k] == s[1..][k - 1];
        }
      }
    }
  }

  /** `String.prototype.trimEnd`: the longest prefix that does not end with whitespace. */
  function TrimEnd(s: string): (r: string)
    ensures |r| <= |s|
    decreases |s|
  {
    if s != [] && IsWhitespace(s[|s| - 1]) then TrimEnd(s[..|s| - 1]) else s
  }

  /** `trimEnd` keeps a prefix, drops only whitespace, and stops at the last other character. */
  lemma {:induction false} TrimEndPrefix(s: string)
    ensures TrimEnd(s) == s[..|TrimEnd(s)|]
    ensures forall k :: |TrimEnd(s)| <= k < |s| ==> IsWhitespace(s[k])
    ensures TrimEnd(s) == [] || !IsWhitespace(TrimEnd(s)[|TrimEnd(s)| - 1])
    decreases |s|
  {
    if s != [] && IsWhitespace(s[|s| - 1]) {
      var p := s[..|s| - 1];
      TrimEndPrefix(p);
      assert p[..|TrimEnd(s)|] == s[..|TrimEnd(s)|];
      forall k | |TrimEnd(s)| <= k < |s|
        ensures IsWhitespace(s[k])
      {
        if k < |s| - 1 {
          assert s[k] == p[k];
        }
      }
    }
  }

  /** `String.prototype.trim`: whitespace removed from both ends. */
  function Trim(s: string): (r: string)
    ensures |r| <= |s|
  {
    TrimEnd(TrimStart(s))
  }

  /** What `trim` keeps neither starts nor ends with whitespace. */
  lemma TrimBorders(s: string)
    ensures Trim(s) == [] || (!IsWhitespace(Trim(s)[0]) && !IsWhitespace(Trim(s)[|Trim(s)| - 1]))
  {
    var t := TrimStart(s);
    TrimStartSuffix(s);
    TrimEndPrefix(t);
    if Trim(s) != [] {
      assert Trim(s)[0] == t[0];
    }
  }

  /** What `trim` keeps is the infix of `s` that starts where `trimStart` starts. */
  lemma TrimInfix(s: string)
    ensures |s| - |TrimStart(s)| + |Trim(s)| <= |s|
    ensures Trim(s) == s[|s| - |TrimStart(s)|..|s| - |TrimStart(s)| + |Trim(s)|]
  {
    var t := TrimStart(s);
    TrimStartSuffix(s);
    TrimEndPrefix(t);
    var i := |s| - |t|;
    assert t == s[i..];
  }

  /** What `trim` drops at either end is whitespace. */
  lemma TrimDropsWhitespace(s: string)
    ensures forall k :: 0 <= k < |s| - |TrimStart(s)| ==> IsWhitespace(s[k])
    ensures forall k :: |s| - |TrimStart(s)| + |Trim(s)| <= k < |s| ==> IsWhitespace(s[k])
  {
    var t := TrimStart(s);
    TrimStartSuffix(s);
    TrimEndPrefix(t);
    var r := Trim(s);
    var i := |s| - |t|;
    forall k | i + |r| <= k < |s| ensures IsWhitespace(s[k]) {
      assert s[k] == t[k - i];
    }
  }

  lemma TrimIdempotent(s: string)
    ensures Trim(Trim(s)) == Trim(s)
  {
    var r := Trim(s);
    TrimBorders(s);
    assert TrimStart(r) == r;
    assert TrimEnd(r) == r;
  }

  /** `toLowerCase` on one character; only the ASCII letters A-Z are mapped. */
  function LowerChar(c: char): char {
    if 'A' <= c <= 'Z' then (c as int + 32) as char else c
  }

  /** `toUpperCase` on one character; only the ASCII letters a-z are mapped. */
  function UpperChar(c: char): char {
    if 'a' <= c <= 'z' then (c as int - 32) as char else c
  }

  lemma LowerCharIdempotent(c: char)
    ensures LowerChar(LowerChar(c)) == LowerChar(c)
  {
  }

  function ToLower(s: string): (r: string)
    ensures |r| == |s|
  {
    seq(|s|, k requires 0 <= k < |s| => LowerChar(s[k]))
  }

  function ToUpper(s: string): (r: string)
    ensures |r| == |s|
  {
    if s == [] then [] else [UpperChar(s[0])] + ToUpper(s[1..])
  }

  /** Lower-casing twice is lower-casing once. */
  lemma ToLowerIdempotent(s: string)
    ensures ToLower(ToLower(s)) == ToLower(s)
  {
    forall k | 0 <= k < |s| ensures ToLower(ToLower(s))[k] == ToLower(s)[k] {
      LowerCharIdempotent(s[k]);
    }
  }

  /** Lower-casing works character by character, so it commutes with taking a slice. */
  lemma ToLowerSlice(s: string, i: nat, j: nat)
    requires i <= j <= |s|
    ensures ToLower(s[i..j]) == ToLower(s)[i..j]
  {
  }

  /** Lower-casing commutes with trimming, so lower-casing and trimming twice is doing it once. */
  lemma ToLowerTrimIdempotent(s: string)
    ensures Trim(ToLower(Trim(ToLower(s)))) == Trim(ToLower(s))
  {
    var y := ToLower(s);
    var t := Trim(y);
    var i := |y| - |TrimStart(y)|;
    TrimInfix(y);
    ToLowerSlice(y, i, i + |t|);
    ToLowerIdempotent(s);
    assert ToLower(t) == t;
    TrimIdempotent(y);
  }

  /** The value of a digit in radix up to 36, or 36 for a character that is no digit at all. */
  function DigitValue(c: char): nat {
    if '0' <= c <= '9' then c as int - '0' as int
    else if 'a' <= c <= 'z' then c as int - 'a' as int + 10
    else if 'A' <= c <= 'Z' then c as int - 'A' as int + 10
    else 36
  }

  /** The longest prefix of `s` made of digits of the given radix. */
  function DigitPrefix(s: string, radix: nat): (z: string)
  {
    if s != [] && DigitValue(s[0]) < radix then [s[0]] + DigitPrefix(s[1..], radix) else []
  }

  /** The prefix read is made of digits of the radix, and the character after it (if any) is not one. */
  lemma {:induction false} DigitPrefixMaximal(s: string, radix: nat)
    ensures |DigitPrefix(s, radix)| <= |s| && DigitPrefix(s, radix) == s[..|DigitPrefix(s, radix)|]
    ensures forall k :: 0 <= k < |DigitPrefix(s, radix)| ==> DigitValue(DigitPrefix(s, radix)[k]) < radix
    ensures |DigitPrefix(s, radix)| == |s| || DigitValue(s[|DigitPrefix(s, radix)|]) >= radix
    decreases |s|
  {
    if s != [] && DigitValue(s[0]) < radix {
      DigitPrefixMaximal(s[1..], radix);
      var z := DigitPrefix(s, radix);
      var t := DigitPrefix(s[1..], radix);
      assert z == [s[0]] + t;
      assert forall k :: 1 <= k < |z| ==> z[k] == t[k - 1];
      if |z| < |s| {
        assert s[|z|] == s[1..][|t|];
      }
    }
  }

  /** The number written by the digit string `z` in the given radix, most significant digit first. */
  function DigitsValue(z: string, radix: nat): nat
    decreases |z|
  {
    if z == [] then 0 else DigitsValue(z[..|z| - 1], radix) * radix + DigitValue(z[|z| - 1])
  }

  /**
   * The unsigned part of `parseInt`: a `0x`/`0X` prefix selects radix 16,
   * otherwise radix 10, and the longest run of digits is read. `None` stands
   * for `NaN` (no digit at all).
   */
  function ParseUnsigned(u: string): Option<nat> {
    var hex := |u| >= 2 && u[0] == '0' && (u[1] == 'x' || u[1] == 'X');
    var radix := if hex then 16 else 10;
    var z := DigitPrefix(if hex then u[2..] else u, radix);
    if z == [] then None else Some(DigitsValue(z, radix))
  }

  /**
   * Global `parseInt(s)` without a radix: skip leading whitespace, read an
   * optional sign, then the unsigned part. `None` stands for `NaN`.
   */
  function ParseInt(s: string): Option<int> {
    var t := TrimStart(s);
    var negativo := t != [] && t[0] == '-';
    var sinal := t != [] && (t[0] == '-' || t[0] == '+');
    match ParseUnsigned(if sinal then t[1..] else t)
    case None => None
    case Some(n) => var v: int := n; Some(if negativo then -v else v)
  }

  function DigitChar(d: nat): char
    requires d < 10
  {
    ('0' as int + d) as char
  }

  /**
   * `Number.prototype.toString()` (and template-literal interpolation) of an
   * integer: a minus sign for a negative one, then its decimal digits
   * without leading zeros.
   */
  function ToStr(i: int): (r: string)
    ensures r != []
    decreases if i < 0 then 1 - i else i
  {
    if i < 0 then "-" + ToStr(-i)
    else if i < 10 then [DigitChar(i)]
    else ToStr(i / 10) + [DigitChar(i % 10)]
  }

  /** A non-negative integer is written as decimal digits without a leading zero that read back as it. */
  lemma {:induction false} ToStrDigitos(n: nat)
    ensures forall k :: 0 <= k < |ToStr(n)| ==> '0' <= ToStr(n)[k] <= '9'
    ensures n > 0 ==> ToStr(n)[0] != '0'
    ensures DigitsValue(ToStr(n), 10) == n
    decreases n
  {
    if n >= 10 {
      ToStrDigitos(n / 10);
      var r := ToStr(n);
      assert r[..|r| - 1] == ToStr(n / 10);
    }
  }

  /** `toString` of an integer writes only a minus sign and decimal digits. */
  lemma ToStrCaracteres(i: int)
    ensures forall k :: 0 <= k < |ToStr(i)| ==> ToStr(i)[k] == '-' || '0' <= ToStr(i)[k] <= '9'
  {
    var s := ToStr(i);
    if i < 0 {
      ToStrDigitos(-i);
      var d := ToStr(-i);
      assert s == "-" + d;
      forall k | 0 <= k < |s|
        ensures s[k] == '-' || '0' <= s[k] <= '9'
      {
        if k > 0 {
          assert s[k] == d[k - 1];
        }
      }
    } else {
      ToStrDigitos(i);
    }
  }

  /** No other character, such as a space or an `x`, appears in an integer's text. */
  lemma ToStrSemCaractere(i: int, c: char)
    requires c != '-' && !('0' <= c <= '9')
    ensures forall k :: 0 <= k < |ToStr(i)| ==> ToStr(i)[k] != c
  {
    ToStrCaracteres(i);
  }

  /** A single digit is written as one character. */
  lemma ToStrDigito(d: int)
    requires 0 <= d <= 9
    ensures |ToStr(d)| == 1
  {
  }

  lemma {:induction false} DigitPrefixOfDigits(d: string, rest: string, radix: nat)
    requires forall k :: 0 <= k < |d| ==> DigitValue(d[k]) < radix
    requires rest == [] || DigitValue(rest[0]) >= radix
    ensures DigitPrefix(d + rest, radix) == d
    decreases |d|
  {
    if d == [] {
      assert d + rest == rest;
    } else {
      assert (d + rest)[0] == d[0];
      assert (d + rest)[1..] == d[1..] + rest;
      DigitPrefixOfDigits(d[1..], rest, radix);
      assert [d[0]] + d[1..] == d;
    }
  }

  lemma TrimStartNoop(s: string)
    requires s != [] && !IsWhitespace(s[0])
    ensures TrimStart(s) == s
  {
  }

  lemma ParseUnsignedDecimal(n: nat, rest: string)
    requires rest == [] || !('0' <= rest[0] <= '9' || rest[0] == 'x' || rest[0] == 'X')
    ensures ParseUnsigned(ToStr(n) + rest) == Some(n)
  {
    ToStrDigitos(n);
    var d := ToStr(n);
    var u := d + rest;
    assert u[0] == d[0];
    assert !(|u| >= 2 && u[0] == '0' && (u[1] == 'x' || u[1] == 'X')) by {
      if |d| >= 2 {
        assert u[1] == d[1];
      } else if |u| >= 2 {
        assert u[1] == rest[0];
      }
    }
    DigitPrefixOfDigits(d, rest, 10);
  }

  /** `parseInt` of a minus sign followed by an unsigned number is its negation. */
  lemma ParseIntNegative(n: nat, u: string)
    requires ParseUnsigned(u) == Some(n)
    ensures ParseInt("-" + u) == Some(-(n as int))
  {
    var s := "-" + u;
    TrimStartNoop(s);
    assert s[1..] == u;
  }

  /** `parseInt` of text starting with a digit is its unsigned reading. */
  lemma ParseIntUnsigned(n: nat, u: string)
    requires ParseUnsigned(u) == Some(n)
    requires u != [] && '0' <= u[0] <= '9'
    ensures ParseInt(u) == Some(n)
  {
    TrimStartNoop(u);
  }

  lemma ParseIntToStrNegative(i: int, rest: string)
    requires i < 0
    requires rest == [] || !('0' <= rest[0] <= '9' || rest[0] == 'x' || rest[0] == 'X')
    ensures ParseInt(ToStr(i) + rest) == Some(i)
  {
    assert ToStr(i) + rest == "-" + (ToStr(-i) + rest);
    ParseUnsignedDecimal(-i, rest);
    ParseIntNegative(-i, ToStr(-i) + rest);
  }

  lemma ParseIntToStrNonNegative(i: int, rest: string)
    requires i >= 0
    requires rest == [] || !('0' <= rest[0] <= '9' || rest[0] == 'x' || rest[0] == 'X')
    ensures ParseInt(ToStr(i) + rest) == Some(i)
  {
    var d := ToStr(i);
    ToStrDigitos(i);
    ParseUnsignedDecimal(i, rest);
    assert (d + rest)[0] == d[0];
    ParseIntUnsigned(i, d + rest);
  }

  /**
   * Reading back what `ToStr` wrote: `parseInt` recovers the integer as long as
   * the text that follows does not continue the number (a digit) or turn a lone
   * `0` into a hexadecimal prefix.
   */
  lemma ParseIntToStr(i: int, rest: string)
    requires rest == [] || !('0' <= rest[0] <= '9' || rest[0] == 'x' || rest[0] == 'X')
    ensures ParseInt(ToStr(i) + rest) == Some(i)
  {
    if i < 0 {
      ParseIntToStrNegative(i, rest);
    } else {
      ParseIntToStrNonNegative(i, rest);
    }
  }

  /** Different integers are written differently. */
  lemma ToStrInjective(a: int, b: int)
    requires ToStr(a) == ToStr(b)
    ensures a == b
  {
    ParseIntToStr(a, []);
    ParseIntToStr(b, []);
    assert ToStr(a) + [] == ToStr(a);
    assert ToStr(b) + [] == ToStr(b);
  }

  /**
   * The order `Array.prototype.sort` uses on strings: lexicographic, a
   * proper prefix coming first. Characters are compared by code point, where
   * JavaScript compares UTF-16 code units; the two agree below U+E000.
   */
  predicate StrLt(a: string, b: string)
    decreases |a|
  {
    if a == [] then b != []
    else if b == [] then false
    else if a[0] != b[0] then a[0] < b[0]
    else StrLt(a[1..], b[1..])
  }

  lemma {:induction false} StrLtIrreflexive(a: string)
    ensures !StrLt(a, a)
    decreases |a|
  {
    if a != [] {
      StrLtIrreflexive(a[1..]);
    }
  }

  lemma {:induction false} StrLtTransitive(a: string, b: string, c: string)
    requires StrLt(a, b) && StrLt(b, c)
    ensures StrLt(a, c)
    decreases |a|
  {
    if a != [] && a[0] == b[0] && b[0] == c[0] {
      StrLtTransitive(a[1..], b[1..], c[1..]);
    }
  }

  lemma {:induction false} StrLtTotal(a: string, b: string)
    requires a != b
    ensures StrLt(a, b) || StrLt(b, a)
    decreases |a|
  {
    if a != [] && b != [] && a[0] == b[0] {
      assert a == [a[0]] + a[1..] && b == [b[0]] + b[1..];
      StrLtTotal(a[1..], b[1..]);
    }
  }

  /**
   * `Math.round(p / q)` for non-negative `p` and positive `q`: the nearest
   * integer, halves rounded up, i.e. `floor(p / q + 1/2)`.
   */
  function RoundRatio(p: nat, q: nat): (r: nat)
    requires q > 0
    ensures 2 * q * r <= 2 * p + q < 2 * q * r + 2 * q
  {
    (2 * p + q) / (2 * q)
  }

  lemma {:induction false} RoundRatioMonotonic(p1: nat, p2: nat, q: nat)
    requires q > 0 && p1 <= p2
    ensures RoundRatio(p1, q) <= RoundRatio(p2, q)
  {
    var r1, r2 := RoundRatio(p1, q), RoundRatio(p2, q);
    assert 2 * q * r1 < 2 * q * (r2 + 1);
    MulStrictCancel(2 * q, r1, r2 + 1);
  }

  lemma MulStrictCancel(k: nat, a: nat, b: nat)
    requires k * a < k * b
    ensures a < b
  {
  }

  /** `Math.round(c / t * 100)`, the percentage used throughout the application. */
  function Percent(c: nat, t: nat): (r: nat)
    requires t > 0
  {
    RoundRatio(100 * c, t)
  }

  lemma MulMonotonic(x: nat, a: nat, b: nat)
    requires a <= b
    ensures x * a <= x * b
  {
  }

  /** A percentage of a part is at most 100, 0 for no part, 100 for the whole. */
  lemma PercentBounds(c: nat, t: nat)
    requires t > 0
    ensures c <= t ==> Percent(c, t) <= 100
    ensures c == 0 ==> Percent(c, t) == 0
    ensures c == t ==> Percent(c, t) == 100
  {
    var r := Percent(c, t);
    assert 2 * t * r <= 200 * c + t < 2 * t * r + 2 * t;
    if c <= t {
      MulMonotonic(200, c, t);
      assert 2 * t * r < 2 * t * 101;
      MulStrictCancel(2 * t, r, 101);
    }
    if c == t {
      assert 2 * t * 99 < 2 * t * r;
      MulStrictCancel(2 * t, 99, r);
    }
    if c == 0 {
      assert 2 * t * r < 2 * t * 1;
      MulStrictCancel(2 * t, r, 1);
    }
  }
}
