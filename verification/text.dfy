/**
 * The JavaScript string operations the application relies on, over strings
 * taken as sequences of characters (Unicode scalar values). JavaScript counts
 * a character outside the Basic Multilingual Plane as two UTF-16 characters;
 * here it is one character.
 *
 * Case mapping is restricted to ASCII letters; every other character is left
 * as it is.
 */
module Text {
  import opened Wrappers

  /** `s.startsWith(prefix)`. */
  predicate StartsWith(s: string, prefix: string) {
    prefix <= s
  }

  /** `s.endsWith(suffix)`. */
  predicate EndsWith(s: string, suffix: string) {
    |suffix| <= |s| && s[|s| - |suffix|..] == suffix
  }

  /** A concatenation starts with its left part and ends with its right part. */
  lemma ConcatEnds(a: string, b: string)
    ensures StartsWith(a + b, a)
    ensures EndsWith(a + b, b)
  {
    assert (a + b)[..|a|] == a;
    assert (a + b)[|a|..] == b;
  }

  /** `s.includes(sub)`: some position of `s` starts an occurrence of `sub`. */
  predicate Contains(s: string, sub: string)
    decreases |s|
  {
    StartsWith(s, sub) || (|s| > 0 && Contains(s[1..], sub))
  }

  /** Every string contains the empty string. */
  lemma ContainsEmpty(s: string)
    ensures Contains(s, "")
  {
  }

  /** An occurrence at an explicit position is found by `Contains`. */
  lemma {:induction false} ContainsAt(s: string, sub: string, i: nat)
    requires i + |sub| <= |s| && s[i..i + |sub|] == sub
    ensures Contains(s, sub)
    decreases i
  {
    if i == 0 {
      assert s[..|sub|] == sub;
    } else {
      assert s[1..][i - 1..i - 1 + |sub|] == s[i..i + |sub|];
      ContainsAt(s[1..], sub, i - 1);
    }
  }

  /** `Contains` finds an occurrence at an explicit position. */
  lemma {:induction false} ContainsWitness(s: string, sub: string) returns (i: nat)
    requires Contains(s, sub)
    ensures i + |sub| <= |s| && s[i..i + |sub|] == sub
    decreases |s|
  {
    if StartsWith(s, sub) {
      i := 0;
    } else {
      var j := ContainsWitness(s[1..], sub);
      assert s[1..][j..j + |sub|] == s[j + 1..j + 1 + |sub|];
      i := j + 1;
    }
  }

  /** A suffix is in particular an occurrence. */
  lemma EndsWithContains(s: string, sub: string)
    requires EndsWith(s, sub)
    ensures Contains(s, sub)
  {
    ContainsAt(s, sub, |s| - |sub|);
  }

  /** Every character of an occurring string occurs in the containing string. */
  lemma ContainsChar(s: string, sub: string, c: char)
    requires Contains(s, sub) && c in sub
    ensures c in s
  {
    var i := ContainsWitness(s, sub);
    var k :| 0 <= k < |sub| && sub[k] == c;
    assert s[i + k] == s[i..i + |sub|][k];
  }

  /** The index of the last `c` in `s`, or -1: `s.lastIndexOf(c)`. */
  function LastIndexOf(s: string, c: char): (i: int)
    ensures -1 <= i < |s|
    ensures i >= 0 ==> s[i] == c
    ensures forall j :: i < j < |s| ==> s[j] != c
    decreases |s|
  {
    if |s| == 0 then -1
    else if s[|s| - 1] == c then |s| - 1
    else LastIndexOf(s[..|s| - 1], c)
  }

  /** The index of the first `c` in `s`, or -1: `s.indexOf(c)`. */
  function IndexOf(s: string, c: char): (i: int)
    ensures -1 <= i < |s|
    ensures i >= 0 ==> s[i] == c
    ensures forall j :: 0 <= j < |s| && (i < 0 || j < i) ==> s[j] != c
    decreases |s|
  {
    if |s| == 0 then -1
    else if s[0] == c then 0
    else var k := IndexOf(s[1..], c); if k < 0 then -1 else k + 1
  }

  /** `s.split(c).pop()`: the text after the last `c`, or all of `s`. */
  function LastSegment(s: string, c: char): (r: string)
    ensures forall j :: 0 <= j < |r| ==> r[j] != c
    ensures LastIndexOf(s, c) < 0 ==> r == s
    ensures LastIndexOf(s, c) >= 0 ==> s == s[..LastIndexOf(s, c)] + [c] + r
  {
    var i := LastIndexOf(s, c);
    s[i + 1..]
  }

  /** The last segment of `a + [c] + e` is `e` when `e` holds no `c`. */
  lemma LastSegmentAppend(a: string, c: char, e: string)
    requires forall j :: 0 <= j < |e| ==> e[j] != c
    ensures LastSegment(a + [c] + e, c) == e
  {
    var s := a + [c] + e;
    var i := LastIndexOf(s, c);
    assert s[|a|] == c;
    assert forall j :: |a| < j < |s| ==> s[j] == e[j - |a| - 1];
    assert i == |a|;
    assert s[i + 1..] == e;
  }

  /** `s.split(c)[1]`: the text between the first and second `c`, if any. */
  function SecondSegment(s: string, c: char): (r: Option<string>)
    ensures IndexOf(s, c) < 0 <==> r.None?
    ensures r.Some? ==> c !in r.value
    ensures r.Some? ==> StartsWith(s[IndexOf(s, c) + 1..], r.value)
    ensures r.Some? ==> var rest := s[IndexOf(s, c) + 1..]; |r.value| == |rest| || rest[|r.value|] == c
  {
    var i := IndexOf(s, c);
    if i < 0 then None
    else
      var rest := s[i + 1..];
      var j := IndexOf(rest, c);
      if j < 0 then Some(rest) else Some(rest[..j])
  }

  // ---------------------------------------------------------------------
  // Case mapping (ASCII only)
  // ---------------------------------------------------------------------

  function LowerChar(c: char): char {
    if 'A' <= c <= 'Z' then (c as int + 32) as char else c
  }

  function UpperChar(c: char): char {
    if 'a' <= c <= 'z' then (c as int - 32) as char else c
  }

  /** `s.toLowerCase()` for ASCII letters. */
  function Lower(s: string): (r: string)
    ensures |r| == |s|
    ensures forall i :: 0 <= i < |s| ==> r[i] == LowerChar(s[i])
  {
    seq(|s|, i requires 0 <= i < |s| => LowerChar(s[i]))
  }

  /** `s.toUpperCase()` for ASCII letters. */
  function Upper(s: string): (r: string)
    ensures |r| == |s|
    ensures forall i :: 0 <= i < |s| ==> r[i] == UpperChar(s[i])
  {
    seq(|s|, i requires 0 <= i < |s| => UpperChar(s[i]))
  }

  // ---------------------------------------------------------------------
  // Whitespace and trimming
  // ---------------------------------------------------------------------

  /** The characters `String.prototype.trim` removes: WhiteSpace and LineTerminator. */
  predicate IsSpace(c: char) {
    || c == '\t' || c == '\n' || c == '\U{000B}' || c == '\U{000C}' || c == '\r'
    || c == ' ' || c == '\U{00A0}' || c == '\U{1680}'
    || ('\U{2000}' <= c <= '\U{200A}')
    || c == '\U{2028}' || c == '\U{2029}' || c == '\U{202F}' || c == '\U{205F}'
    || c == '\U{3000}' || c == '\U{FEFF}'
  }

  /** `s.trimStart()`. */
  function TrimStart(s: string): (r: string)
    ensures EndsWith(s, r)
    ensures |r| > 0 ==> !IsSpace(r[0])
    ensures forall i :: 0 <= i < |s| - |r| ==> IsSpace(s[i])
    decreases |s|
  {
    if |s| > 0 && IsSpace(s[0]) then
      var r := TrimStart(s[1..]);
      TrimStartStep(s, r);
      r
    else s
  }

  /** A leading space in front of a trimmed tail leaves the tail's trimming valid for the whole. */
  lemma TrimStartStep(s: string, r: string)
    requires |s| > 0 && IsSpace(s[0])
    requires EndsWith(s[1..], r)
    requires forall i :: 0 <= i < |s| - 1 - |r| ==> IsSpace(s[1..][i])
    ensures EndsWith(s, r)
    ensures forall i :: 0 <= i < |s| - |r| ==> IsSpace(s[i])
  {
    assert s[|s| - |r|..] == s[1..][|s| - 1 - |r|..];
    forall i | 0 <= i < |s| - |r|
      ensures IsSpace(s[i])
    {
      if i > 0 {
        assert s[i] == s[1..][i - 1];
      }
    }
  }

  /** `s.trimEnd()`. */
  function TrimEnd(s: string): (r: string)
    ensures StartsWith(s, r)
    ensures |r| > 0 ==> !IsSpace(r[|r| - 1])
    ensures forall i :: |r| <= i < |s| ==> IsSpace(s[i])
    decreases |s|
  {
    if |s| > 0 && IsSpace(s[|s| - 1]) then TrimEnd(s[..|s| - 1]) else s
  }

  /** `s.trim()`. */
  function Trim(s: string): (r: string)
  {
    TrimEnd(TrimStart(s))
  }

  // ---------------------------------------------------------------------
  // Decimal rendering and parseInt
  // ---------------------------------------------------------------------

  predicate IsDecimalDigit(c: char) {
    '0' <= c <= '9'
  }

  /** The value of `c` as a digit in base `radix` (10 or 16), if it is one. */
  function DigitValue(c: char, radix: nat): (d: Option<nat>)
    ensures d.Some? ==> d.value < radix
  {
    if '0' <= c <= '9' && (c as int - '0' as int) < radix then Some(c as int - '0' as int)
    else if radix == 16 && 'a' <= c <= 'f' then Some(c as int - 'a' as int + 10)
    else if radix == 16 && 'A' <= c <= 'F' then Some(c as int - 'A' as int + 10)
    else None
  }

  /** `n.toString()` for a non-negative integer below 10^21. */
  function Decimal(n: nat): (s: string)
    ensures |s| >= 1
    ensures forall i :: 0 <= i < |s| ==> IsDecimalDigit(s[i]) && DigitValue(s[i], 10).Some?
    decreases n
  {
    var last := ('0' as int + n % 10) as char;
    if n < 10 then [last] else Decimal(n / 10) + [last]
  }

  /** The longest prefix of `s` made of base-`radix` digits. */
  function DigitPrefix(s: string, radix: nat): (z: string)
    ensures StartsWith(s, z)
    ensures forall i :: 0 <= i < |z| ==> DigitValue(z[i], radix).Some?
    ensures |z| < |s| ==> DigitValue(s[|z|], radix).None?
    decreases |s|
  {
    if |s| > 0 && DigitValue(s[0], radix).Some? then [s[0]] + DigitPrefix(s[1..], radix) else ""
  }

  /** The value of a string of base-`radix` digits, most significant first. */
  function DigitsValue(z: string, radix: nat): nat
    requires forall i :: 0 <= i < |z| ==> DigitValue(z[i], radix).Some?
    decreases |z|
  {
    if |z| == 0 then 0
    else DigitsValue(z[..|z| - 1], radix) * radix + DigitValue(z[|z| - 1], radix).value
  }

  /**
   * `parseInt(s)` with no radix argument: skip leading white space, read an
   * optional sign, read a `0x`/`0X` prefix as base 16, then the longest run
   * of digits. `None` stands for NaN (no digits at all).
   */
  function ParseInt(s: string): Option<int>
  {
    var t := TrimStart(s);
    var negative := |t| > 0 && t[0] == '-';
    ParseUnsigned(if |t| > 0 && (t[0] == '-' || t[0] == '+') then t[1..] else t, negative)
  }

  /** The part of `parseInt` after the sign: radix prefix, then digits. */
  function ParseUnsigned(u: string, negative: bool): Option<int>
  {
    if |u| >= 2 && u[0] == '0' && (u[1] == 'x' || u[1] == 'X') then ParseDigits(u[2..], 16, negative)
    else ParseDigits(u, 10, negative)
  }

  /** The value of the longest digit prefix, or NaN when it is empty. */
  function ParseDigits(v: string, radix: nat, negative: bool): Option<int>
  {
    var z := DigitPrefix(v, radix);
    if z == "" then None
    else
      var m: int := DigitsValue(z, radix);
      Some(if negative then -m else m)
  }

  /** A string of decimal digits is its own longest digit prefix. */
  lemma {:induction false} DigitPrefixOfDigits(s: string)
    requires forall i :: 0 <= i < |s| ==> DigitValue(s[i], 10).Some?
    ensures DigitPrefix(s, 10) == s
    decreases |s|
  {
    if |s| > 0 {
      DigitPrefixOfDigits(s[1..]);
    }
  }

  /** Reading back a rendered number gives the number. */
  lemma {:induction false} DecimalValue(n: nat)
    ensures DigitsValue(Decimal(n), 10) == n
    decreases n
  {
    var s := Decimal(n);
    if n >= 10 {
      DecimalValue(n / 10);
      assert s[..|s| - 1] == Decimal(n / 10);
    }
  }

  /** `parseInt(String(n))` is `n`: a stored time stamp reads back unchanged. */
  lemma ParseIntDecimal(n: nat)
    ensures ParseInt(Decimal(n)) == Some(n)
  {
    var s := Decimal(n);
    ParseIntDigits(s);
    DecimalValue(n);
  }

  /** A non-empty string of decimal digits parses to its value. */
  lemma ParseIntDigits(s: string)
    requires |s| >= 1
    requires forall i :: 0 <= i < |s| ==> IsDecimalDigit(s[i]) && DigitValue(s[i], 10).Some?
    ensures ParseInt(s) == Some(DigitsValue(s, 10))
  {
    UnsignedStart(s);
    DecimalStart(s);
    DigitPrefixOfDigits(s);
  }

  /** Text starting with a digit has no space or sign to skip. */
  lemma UnsignedStart(s: string)
    requires |s| >= 1 && IsDecimalDigit(s[0])
    ensures ParseInt(s) == ParseUnsigned(s, false)
  {
    assert TrimStart(s) == s;
  }

  /** Text whose first two characters are digits has no `0x` prefix. */
  lemma DecimalStart(s: string)
    requires |s| >= 1 && IsDecimalDigit(s[0]) && (|s| >= 2 ==> IsDecimalDigit(s[1]))
    ensures ParseUnsigned(s, false) == ParseDigits(s, 10, false)
  {
  }


}
