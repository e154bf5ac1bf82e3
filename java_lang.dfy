/**
 * The small pieces of the Java platform the core relies on: 32-bit `int`
 * arithmetic (`AtomicInteger.incrementAndGet`), `Integer.parseInt`,
 * `Integer.toString` and `String.equalsIgnoreCase`.
 */
module JavaLang {
  import opened Wrappers

  const MinInt: int := -0x8000_0000
  const MaxInt: int := 0x7FFF_FFFF

  /** Java's 32-bit signed `int`. */
  newtype int32 = x: int | -0x8000_0000 <= x <= 0x7FFF_FFFF

  /**
   * `x + 1` in two's complement: the 32-bit value congruent to `x + 1`
   * modulo 2^32, which is `x + 1` itself below the largest value.
   */
  function Increment(x: int32): (r: int32)
    ensures (r as int - (x as int + 1)) % 0x1_0000_0000 == 0
    ensures x as int < MaxInt ==> r as int == x as int + 1
  {
    if x == 0x7FFF_FFFF then -0x8000_0000 else x + 1
  }

  // ---------------------------------------------------------------------
  // Decimal digits
  // ---------------------------------------------------------------------

  predicate IsDigit(c: char) {
    '0' <= c <= '9'
  }

  predicate AllDigits(s: string) {
    forall i :: 0 <= i < |s| ==> IsDigit(s[i])
  }

  function DigitValue(c: char): nat
    requires IsDigit(c)
  {
    c as int - '0' as int
  }

  function DigitChar(d: nat): (c: char)
    requires d < 10
    ensures IsDigit(c) && DigitValue(c) == d
  {
    ('0' as int + d) as char
  }

  /** The value of a run of decimal digits, most significant first. */
  function DigitsValue(s: string): nat
    requires AllDigits(s)
    decreases |s|
  {
    if s == [] then 0
    else 10 * DigitsValue(s[..|s| - 1]) + DigitValue(s[|s| - 1])
  }

  // ---------------------------------------------------------------------
  // Integer.parseInt(s) (radix 10)
  // ---------------------------------------------------------------------

  /**
   * `Integer.parseInt(s)`: an optional leading '-' or '+', then one or more
   * decimal digits whose signed value fits in 32 bits. `None` stands for
   * the `NumberFormatException` Java throws for every other string.
   */
  function ParseInt(s: string): (r: Option<int32>)
    ensures s == [] ==> r.None?
    ensures r.Some? ==> var digits := if s[0] == '-' || s[0] == '+' then s[1..] else s;
      digits != [] && AllDigits(digits) &&
      r.value as int == if s[0] == '-' then -(DigitsValue(digits) as int) else DigitsValue(digits)
  {
    if s == [] then None
    else
      var digits := if s[0] == '-' || s[0] == '+' then s[1..] else s;
      if digits == [] || !AllDigits(digits) then None
      else
        var v := if s[0] == '-' then -(DigitsValue(digits) as int) else DigitsValue(digits);
        if MinInt <= v <= MaxInt then Some(v as int32) else None
  }

  // ---------------------------------------------------------------------
  // Integer.toString(n)
  // ---------------------------------------------------------------------

  /** The decimal spelling of a natural number, without leading zeros. */
  function FormatNat(n: nat): (s: string)
    ensures s != [] && IsDigit(s[0])
    decreases n
  {
    if n < 10 then [DigitChar(n)] else FormatNat(n / 10) + [DigitChar(n % 10)]
  }

  /** `Integer.toString(n)`: a '-' for negative values, then the digits. */
  function FormatInt(n: int32): (s: string)
    ensures s != [] && (s[0] == '-' <==> n < 0)
  {
    if n < 0 then "-" + FormatNat(-(n as int)) else FormatNat(n as nat)
  }

  lemma {:induction false} FormatNatValue(n: nat)
    ensures AllDigits(FormatNat(n)) && DigitsValue(FormatNat(n)) == n
    decreases n
  {
    if n >= 10 {
      FormatNatValue(n / 10);
      var s := FormatNat(n);
      assert s[..|s| - 1] == FormatNat(n / 10);
    }
  }

  /** Parsing what `Integer.toString` prints gives the number back. */
  lemma ParseFormatRoundTrip(n: int32)
    ensures ParseInt(FormatInt(n)) == Some(n)
  {
    if n < 0 {
      FormatNatValue(-(n as int));
      assert FormatInt(n)[1..] == FormatNat(-(n as int));
    } else {
      FormatNatValue(n as nat);
    }
  }

  /** A character other than a digit after the optional sign makes parseInt fail. */
  lemma ParseIntRejectsNonDigit(s: string, i: nat)
    requires i < |s| && !IsDigit(s[i])
    requires i > 0 || (s[0] != '-' && s[0] != '+')
    ensures ParseInt(s).None?
  {
  }

  // ---------------------------------------------------------------------
  // String.equalsIgnoreCase
  // ---------------------------------------------------------------------

  /**
   * `Character.toUpperCase` on the characters that matter to this program:
   * the ASCII letters, and U+017F LATIN SMALL LETTER LONG S, whose upper
   * case is 'S'. Every other character maps to itself here.
   */
  function UpperCase(c: char): char {
    if 'a' <= c <= 'z' then (c as int - 32) as char
    else if c == '\U{017F}' then 'S'
    else c
  }

  /** `Character.toLowerCase` on the ASCII letters; every other character maps to itself here. */
  function LowerCase(c: char): char {
    if 'A' <= c <= 'Z' then (c as int + 32) as char else c
  }

  /** The per-character test of `String.regionMatches(true, ...)`. */
  predicate CharEqualsIgnoreCase(a: char, b: char) {
    a == b || UpperCase(a) == UpperCase(b) || LowerCase(UpperCase(a)) == LowerCase(UpperCase(b))
  }

  /**
   * `a.equalsIgnoreCase(b)`: a null `b` never matches; otherwise the lengths
   * agree and the characters match pairwise ignoring case.
   */
  function EqualsIgnoreCase(a: string, b: Option<string>): (r: bool)
    ensures b.None? ==> !r
    ensures b == Some(a) ==> r
    ensures r ==> |b.value| == |a|
  {
    b.Some? && |a| == |b.value| &&
    forall i :: 0 <= i < |a| ==> CharEqualsIgnoreCase(a[i], b.value[i])
  }

  /** Ignoring case is symmetric: the two strings may be swapped. */
  lemma EqualsIgnoreCaseSymmetric(a: string, b: string)
    ensures EqualsIgnoreCase(a, Some(b)) == EqualsIgnoreCase(b, Some(a))
  {
  }

  /** A string matches its own upper-cased spelling. */
  lemma EqualsIgnoreCaseUpper(a: string)
    ensures EqualsIgnoreCase(a, Some(seq(|a|, i requires 0 <= i < |a| => UpperCase(a[i]))))
  {
  }
}
