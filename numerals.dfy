/**
 * Rendering of natural numbers as Python does it: `'%d' % n` in base 10 and the digits of
 * `hex(n)` in base 16 (lower-case letters, no leading zeros), and the matching parser.
 */
module Numerals {

  type Base = b: nat | 2 <= b <= 16 witness 10

  /** The digit character for d; a..f for 10..15 as Python's hex() prints them. */
  function DigitChar(d: nat): (c: char)
    requires d < 16
    ensures DigitValue(c) == d
  {
    if d < 10 then ('0' as int + d) as char else ('a' as int + (d - 10)) as char
  }

  /** The value of a digit character, or -1 for a character that is not one. */
  function DigitValue(c: char): int
  {
    if '0' <= c <= '9' then c as int - '0' as int
    else if 'a' <= c <= 'f' then c as int - 'a' as int + 10
    else -1
  }

  predicate IsDigit(c: char, base: Base)
  {
    0 <= DigitValue(c) < base
  }

  predicate AllDigits(s: string, base: Base)
  {
    forall i :: 0 <= i < |s| ==> IsDigit(s[i], base)
  }

  /** The canonical rendering of n in the given base: most significant digit first. */
  function Show(n: nat, base: Base): (s: string)
    ensures |s| >= 1 && AllDigits(s, base)
    ensures n >= base ==> DigitValue(s[0]) != 0
    decreases n
  {
    if n < base then [DigitChar(n)]
    else
      DivStep(n, base);
      Show(n / base, base) + [DigitChar(n % base)]
  }

  /** Dividing a number of two or more digits by the base leaves a smaller, non-zero quotient. */
  lemma DivStep(n: nat, base: Base)
    requires n >= base
    ensures 1 <= n / base < n && n % base < base
    ensures n == n / base * base + n % base
  {
  }

  /** The number a string of digits denotes. */
  function Value(s: string, base: Base): nat
    requires AllDigits(s, base)
  {
    if s == [] then 0 else Value(s[..|s| - 1], base) * base + DigitValue(s[|s| - 1])
  }

  /** Parsing undoes rendering. */
  lemma {:induction false} ValueOfShow(n: nat, base: Base)
    ensures Value(Show(n, base), base) == n
    decreases n
  {
    if n < base {
      assert Show(n, base)[..0] == [];
    } else {
      DivStep(n, base);
      var q, d := n / base, n % base;
      ValueOfShow(q, base);
      ValueOfAppend(Show(q, base), DigitChar(d), base);
    }
  }

  /** Appending a digit multiplies the value by the base and adds the digit. */
  lemma ValueOfAppend(s: string, c: char, base: Base)
    requires AllDigits(s, base) && IsDigit(c, base)
    ensures AllDigits(s + [c], base)
    ensures Value(s + [c], base) == Value(s, base) * base + DigitValue(c)
  {
    assert (s + [c])[..|s|] == s;
  }

  /** The length of the leading run of decimal digits. */
  function DigitRun(s: string): (r: nat)
    ensures r <= |s|
    ensures AllDigits(s[..r], 10)
    ensures r < |s| ==> !IsDigit(s[r], 10)
  {
    if s != [] && IsDigit(s[0], 10) then
      var r := 1 + DigitRun(s[1..]);
      assert s[..r] == [s[0]] + s[1..][..r - 1];
      r
    else 0
  }

  /** A run of digits followed by a non-digit (or nothing) is read up to its end. */
  lemma {:induction false} DigitRunConcat(d: string, rest: string)
    requires AllDigits(d, 10)
    requires rest == [] || !IsDigit(rest[0], 10)
    ensures DigitRun(d + rest) == |d|
  {
    if d != [] {
      assert (d + rest)[1..] == d[1..] + rest;
      DigitRunConcat(d[1..], rest);
    } else {
      assert d + rest == rest;
    }
  }
}
