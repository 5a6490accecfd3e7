/**
 * Character classes and text helpers shared by the generator: the maximal
 * prefix run that the module's regular expressions consume, and the decimal and
 * hexadecimal renderings of integers used by Python's str() and format codes.
 */
module Strings {

  /** `[0-9]` */
  predicate IsDigit(c: char) {
    '0' <= c <= '9'
  }

  /** `[_A-Z]`, the prefix class of the type and range patterns */
  predicate IsTypeChar(c: char) {
    'A' <= c <= 'Z' || c == '_'
  }

  /** `[a-zA-Z_0-9]`, the class of the word pattern */
  predicate IsWordChar(c: char) {
    'a' <= c <= 'z' || 'A' <= c <= 'Z' || IsDigit(c) || c == '_'
  }

  /** `[-0-9]`, the class of the bounds inside a range name */
  predicate IsRangeChar(c: char) {
    c == '-' || IsDigit(c)
  }

  predicate All(p: char -> bool, s: string) {
    forall i :: 0 <= i < |s| ==> p(s[i])
  }

  /** Length of the longest prefix of `s` made of characters satisfying `p`:
      what a greedy `[class]*` consumes at the start of `s`. */
  function Span(p: char -> bool, s: string): (n: nat)
    ensures n <= |s|
    ensures All(p, s[..n])
    ensures n < |s| ==> !p(s[n])
    decreases |s|
  {
    if s == [] || !p(s[0]) then 0 else 1 + Span(p, s[1..])
  }

  /** Cutting `s` where its leading run ends. */
  lemma SpanSplit(p: char -> bool, s: string) returns (run: string, after: string)
    ensures run == s[..Span(p, s)] && after == s[Span(p, s)..]
    ensures s == run + after && All(p, run)
  {
    run, after := s[..Span(p, s)], s[Span(p, s)..];
    assert s == run + after;
  }

  /** A run followed by a character outside the class is exactly what Span measures. */
  lemma {:induction false} SpanOf(p: char -> bool, u: string, rest: string)
    requires All(p, u)
    requires rest == [] || !p(rest[0])
    ensures Span(p, u + rest) == |u|
    decreases |u|
  {
    if u != [] {
      assert (u + rest)[1..] == u[1..] + rest;
      SpanOf(p, u[1..], rest);
    }
  }

  /** The two bases the generator prints in. */
  predicate IsBase(base: nat) {
    base == 10 || base == 16
  }

  function DigitChar(d: nat, upper: bool): char
    requires d < 16
  {
    if d < 10 then ('0' as int + d) as char
    else if upper then ('A' as int + d - 10) as char
    else ('a' as int + d - 10) as char
  }

  /** Value of one hexadecimal digit of either case (0 for anything else). */
  function DigitValue(c: char): nat {
    if '0' <= c <= '9' then c as int - '0' as int
    else if 'A' <= c <= 'F' then c as int - 'A' as int + 10
    else if 'a' <= c <= 'f' then c as int - 'a' as int + 10
    else 0
  }

  /** Digits of `n` in `base`, most significant first, without leading zeros:
      Python's `{n:d}`, `{n:X}` and `{n:x}` for a non-negative `n`. */
  function NatToDigits(n: nat, base: nat, upper: bool): (s: string)
    requires IsBase(base)
    ensures 1 <= |s|
    ensures |s| > 1 ==> s[0] != '0'
    ensures s[0] != '-'
    decreases n
  {
    if n < base then [DigitChar(n, upper)]
    else
      DivisionStep(n, base);
      NatToDigits(n / base, base, upper) + [DigitChar(n % base, upper)]
  }

  /** What one step of digit extraction needs to know about `/` and `%`. */
  lemma DivisionStep(n: nat, base: nat)
    requires IsBase(base) && base <= n
    ensures 1 <= n / base < n
    ensures 0 <= n % base < base
    ensures n == n / base * base + n % base
  {
    if base == 10 {
      assert n == n / 10 * 10 + n % 10;
    } else {
      assert n == n / 16 * 16 + n % 16;
    }
  }

  /** Value of a digit string read in `base`: Python's `int(s, base)` on a digit run. */
  function DigitsValue(s: string, base: nat): nat {
    if s == [] then 0 else DigitsValue(s[..|s| - 1], base) * base + DigitValue(s[|s| - 1])
  }

  lemma {:induction false} DigitsRoundTrip(n: nat, base: nat, upper: bool)
    requires IsBase(base)
    ensures DigitsValue(NatToDigits(n, base, upper), base) == n
    decreases n
  {
    var s := NatToDigits(n, base, upper);
    if n < base {
      DigitCharValue(n, upper);
      assert s[..0] == [];
    } else {
      DivisionStep(n, base);
      var q, r := n / base, n % base;
      DigitsRoundTrip(q, base, upper);
      DigitCharValue(r, upper);
      var front := NatToDigits(q, base, upper);
      var last := DigitChar(r, upper);
      assert s == front + [last];
      assert s[..|s| - 1] == front && s[|s| - 1] == last;
      assert DigitsValue(s, base) == DigitsValue(front, base) * base + DigitValue(last);
      assert DigitsValue(front, base) == q && DigitValue(last) == r;
    }
  }

  lemma DigitCharValue(d: nat, upper: bool)
    requires d < 16
    ensures DigitValue(DigitChar(d, upper)) == d
  {
  }

  /** Decimal digits of a natural number are digits. */
  lemma {:induction false} DecimalDigits(n: nat)
    ensures All(IsDigit, NatToDigits(n, 10, true))
    decreases n
  {
    if n >= 10 {
      DecimalDigits(n / 10);
    }
  }

  /** `[0-9A-F]`, the digits of `{n:X}` */
  predicate IsUpperHexDigit(c: char) {
    IsDigit(c) || 'A' <= c <= 'F'
  }

  /** `[0-9a-f]`, the digits of `{n:x}` */
  predicate IsLowerHexDigit(c: char) {
    IsDigit(c) || 'a' <= c <= 'f'
  }

  /** The digits are printed in the requested case. */
  lemma {:induction false} DigitsCase(n: nat, base: nat, upper: bool)
    requires IsBase(base)
    ensures upper ==> All(IsUpperHexDigit, NatToDigits(n, base, upper))
    ensures !upper ==> All(IsLowerHexDigit, NatToDigits(n, base, upper))
    decreases n
  {
    if n >= base {
      DivisionStep(n, base);
      DigitsCase(n / base, base, upper);
    }
  }

  /** A leading zero does not change the value of a digit string. */
  lemma {:induction false} LeadingZero(s: string, base: nat)
    ensures DigitsValue("0" + s, base) == DigitsValue(s, base)
    decreases |s|
  {
    if s != [] {
      LeadingZero(s[..|s| - 1], base);
      assert ("0" + s)[..|s|] == "0" + s[..|s| - 1];
    }
  }

  /** Python's `str(v)` for an integer. */
  function IntToDecimal(v: int): string {
    if v < 0 then "-" + NatToDigits(-v, 10, true) else NatToDigits(v, 10, true)
  }

  /** Reads back an optionally signed decimal literal. */
  function DecimalToInt(s: string): int {
    if |s| > 0 && s[0] == '-' then -(DigitsValue(s[1..], 10) as int) else DigitsValue(s, 10)
  }

  lemma DecimalRoundTrip(v: int)
    ensures DecimalToInt(IntToDecimal(v)) == v
  {
    if v < 0 {
      DigitsRoundTrip(-v, 10, true);
      assert IntToDecimal(v)[1..] == NatToDigits(-v, 10, true);
    } else {
      DigitsRoundTrip(v, 10, true);
    }
  }

  /** Python's `{n:X}`. */
  function UpperHex(n: nat): string {
    NatToDigits(n, 16, true)
  }

  /** Python's `{n:02X}` (upper) and `{n:02x}` (lower): zero-padded to two digits. */
  function Hex2(n: nat, upper: bool): (s: string)
    ensures 2 <= |s|
    ensures DigitsValue(s, 16) == n
    ensures upper ==> All(IsUpperHexDigit, s)
    ensures !upper ==> All(IsLowerHexDigit, s)
    ensures s[0] == '0' ==> |s| == 2 && n < 16
  {
    var h := NatToDigits(n, 16, upper);
    DigitsRoundTrip(n, 16, upper);
    DigitsCase(n, 16, upper);
    if |h| < 2 then (LeadingZero(h, 16); "0" + h) else h
  }
}
