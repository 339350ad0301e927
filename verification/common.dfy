/**
 * Shared vocabulary: an Option type and the handful of Python string
 * built-ins the tutoring backend leans on (`str.strip`, `str.lower`,
 * `str(int)`, `startswith`, `in` on strings, truthiness of text).
 */
module Common {

  datatype Option<T> = None | Some(value: T)

  /** Python truthiness of an optional string: present and non-empty. */
  predicate Truthy(s: Option<string>) {
    s.Some? && s.value != ""
  }

  /** The characters for which Python's `str.isspace()` holds (also what `\s` matches in a `str` regex). */
  predicate IsPySpace(c: char) {
    var n := c as int;
    || 0x09 <= n <= 0x0D
    || 0x1C <= n <= 0x20
    || n == 0x85 || n == 0xA0 || n == 0x1680
    || 0x2000 <= n <= 0x200A
    || n == 0x2028 || n == 0x2029 || n == 0x202F || n == 0x205F || n == 0x3000
  }

  predicate AllSpace(s: string) {
    forall i :: 0 <= i < |s| ==> IsPySpace(s[i])
  }

  function LStrip(s: string): (r: string)
    ensures |r| <= |s| && r == s[|s| - |r|..]
    ensures AllSpace(s[..|s| - |r|])
    ensures r == [] || !IsPySpace(r[0])
  {
    if s == [] || !IsPySpace(s[0]) then s
    else
      var t := LStrip(s[1..]);
      assert s[1..][..|s[1..]| - |t|] == s[1..|s| - |t|];
      t
  }

  function RStrip(s: string): (r: string)
    ensures |r| <= |s| && r == s[..|r|]
    ensures AllSpace(s[|r|..])
    ensures r == [] || !IsPySpace(r[|r| - 1])
  {
    if s == [] || !IsPySpace(s[|s| - 1]) then s
    else
      var t := RStrip(s[..|s| - 1]);
      assert s[..|s| - 1][|t|..] == s[|t|..|s| - 1];
      t
  }

  /** Python's `str.strip()` with no argument. */
  function Strip(s: string): (r: string)
    ensures |r| <= |s|
    ensures r == [] || (!IsPySpace(r[0]) && !IsPySpace(r[|r| - 1]))
  {
    RStrip(LStrip(s))
  }

  lemma {:induction false} LStripOfBlank(s: string)
    requires AllSpace(s)
    ensures LStrip(s) == []
  {
    if s != [] {
      LStripOfBlank(s[1..]);
    }
  }

  /** A string strips to "" exactly when every character is whitespace. */
  lemma StripEmptyIffBlank(s: string)
    ensures Strip(s) == [] <==> AllSpace(s)
  {
    var l := LStrip(s);
    if AllSpace(s) {
      LStripOfBlank(s);
    }
    if Strip(s) == [] {
      assert AllSpace(l[|RStrip(l)|..]);
      assert s == s[..|s| - |l|] + l;
    }
  }

  /** Text with no whitespace at either end strips to itself. */
  lemma StripOfTrimmed(s: string)
    requires s == [] || (!IsPySpace(s[0]) && !IsPySpace(s[|s| - 1]))
    ensures Strip(s) == s
  {
  }

  function LowerChar(c: char): char {
    if 'A' <= c <= 'Z' then (c as int + 32) as char else c
  }

  /** Lowering never turns whitespace into text or text into whitespace. */
  lemma LowerCharKeepsSpace(c: char)
    ensures IsPySpace(LowerChar(c)) <==> IsPySpace(c)
  {
    if 'A' <= c <= 'Z' {
      assert 97 <= LowerChar(c) as int <= 122;
    }
  }

  /** Python's `str.lower()` restricted to ASCII letters. */
  function Lower(s: string): (r: string)
    ensures |r| == |s|
    ensures forall i :: 0 <= i < |s| ==> r[i] == LowerChar(s[i])
  {
    if s == [] then [] else [LowerChar(s[0])] + Lower(s[1..])
  }

  predicate IsDigit(c: char) { '0' <= c <= '9' }
  predicate IsLowerAscii(c: char) { 'a' <= c <= 'z' }
  predicate IsAsciiLetter(c: char) { 'a' <= c <= 'z' || 'A' <= c <= 'Z' }
  predicate IsAsciiAlnum(c: char) { IsAsciiLetter(c) || IsDigit(c) }

  predicate AllDigits(s: string) {
    forall i :: 0 <= i < |s| ==> IsDigit(s[i])
  }

  function DigitChar(d: nat): char
    requires d < 10
  {
    ('0' as int + d) as char
  }

  /** Decimal rendering of a natural number, as Python's `str(n)` prints it. */
  function NatToString(n: nat): (r: string)
    ensures |r| >= 1 && AllDigits(r)
    ensures n < 10 <==> |r| == 1
    decreases n
  {
    if n < 10 then [DigitChar(n)] else NatToString(n / 10) + [DigitChar(n % 10)]
  }

  /** Python's `str(i)` for an int of either sign. */
  function IntToString(i: int): string {
    if i < 0 then "-" + NatToString(-i) else NatToString(i)
  }

  /** Value of a run of ASCII digits, as Python's `int(text)` reads it (leading zeros allowed). */
  function DigitsValue(s: string): nat
    requires AllDigits(s)
  {
    if s == [] then 0 else DigitsValue(s[..|s| - 1]) * 10 + (s[|s| - 1] as int - '0' as int)
  }

  /** `int(str(n)) == n`: the rendering is read back exactly. */
  lemma {:induction false} NatToStringRoundTrip(n: nat)
    ensures DigitsValue(NatToString(n)) == n
    decreases n
  {
    if n >= 10 {
      var s := NatToString(n);
      NatToStringRoundTrip(n / 10);
      assert s[..|s| - 1] == NatToString(n / 10);
    }
  }

  /** Number of decimal digits of `n`. */
  lemma {:induction false} NatToStringLength(n: nat, k: nat)
    ensures n < Pow10(k) ==> |NatToString(n)| <= if k == 0 then 1 else k
    decreases n
  {
    if n >= 10 && k > 0 {
      NatToStringLength(n / 10, k - 1);
    }
  }

  function Pow10(k: nat): nat {
    if k == 0 then 1 else 10 * Pow10(k - 1)
  }

  predicate StartsWith(s: string, prefix: string) {
    |prefix| <= |s| && s[..|prefix|] == prefix
  }

  /** Python's `sub in s` on strings. */
  predicate Contains(s: string, sub: string) {
    exists i :: 0 <= i <= |s| - |sub| && OccursAt(s, sub, i)
  }

  predicate OccursAt(s: string, sub: string, i: int) {
    0 <= i <= |s| - |sub| && s[i..i + |sub|] == sub
  }

  lemma OccursAtEnd(h: string, x: string)
    ensures OccursAt(h + x, x, |h|)
  {
    assert (h + x)[|h|..|h| + |x|] == x;
  }

  lemma OccursExtend(s: string, x: string, i: int, more: string)
    requires OccursAt(s, x, i)
    ensures OccursAt(s + more, x, i)
  {
    assert (s + more)[i..i + |x|] == s[i..i + |x|];
  }

  /** In `a + b + c + d + e` the pieces b and d sit at their offsets. */
  lemma Splice5(a: string, b: string, c: string, d: string, e: string)
    ensures OccursAt(a + b + c + d + e, b, |a|)
    ensures OccursAt(a + b + c + d + e, d, |a| + |b| + |c|)
  {
    OccursAtEnd(a, b);
    OccursExtend(a + b, b, |a|, c);
    OccursExtend(a + b + c, b, |a|, d);
    OccursExtend(a + b + c + d, b, |a|, e);
    OccursAtEnd(a + b + c, d);
    OccursExtend(a + b + c + d, d, |a| + |b| + |c|, e);
  }

  /** In `a + b + c + d + e + f + g` the pieces b, d and f sit at their offsets. */
  lemma Splice7(a: string, b: string, c: string, d: string, e: string, f: string, g: string)
    ensures OccursAt(a + b + c + d + e + f + g, b, |a|)
    ensures OccursAt(a + b + c + d + e + f + g, d, |a| + |b| + |c|)
    ensures OccursAt(a + b + c + d + e + f + g, f, |a| + |b| + |c| + |d| + |e|)
  {
    Splice5(a, b, c, d, e);
    OccursExtend(a + b + c + d + e, b, |a|, f);
    OccursExtend(a + b + c + d + e + f, b, |a|, g);
    OccursExtend(a + b + c + d + e, d, |a| + |b| + |c|, f);
    OccursExtend(a + b + c + d + e + f, d, |a| + |b| + |c|, g);
    OccursAtEnd(a + b + c + d + e, f);
    OccursExtend(a + b + c + d + e + f, f, |a| + |b| + |c| + |d| + |e|, g);
  }

  /** Python's `s[:e]` for an int `e` of either sign (negative counts from the end, clamped at 0). */
  function PrefixSlice<T>(s: seq<T>, e: int): (r: seq<T>)
    ensures |r| <= |s| && r == s[..|r|]
    ensures e >= 0 ==> |r| == if e < |s| then e else |s|
    ensures e < 0 ==> |r| == if |s| + e > 0 then |s| + e else 0
  {
    if e >= 0 then (if e < |s| then s[..e] else s)
    else if |s| + e > 0 then s[..|s| + e] else []
  }
}
