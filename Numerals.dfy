/** The numeric conversions the evaluator applies to literal tokens: std::stoll
    in bases 16 and 2 and std::stold in base 10, on the digit strings the lexer
    produces. Each reads the longest prefix of acceptable characters and throws
    when that prefix is empty or, for stoll, when the value exceeds a signed
    64-bit integer. */
module Numerals {
  import opened Wrappers

  const LLONG_MAX: nat := 0x7FFF_FFFF_FFFF_FFFF

  /** The value of a digit character in any base up to 16, or 16 for any other character. */
  function DigitValue(c: char): (v: nat)
    ensures v <= 16
  {
    if '0' <= c <= '9' then c as nat - '0' as nat
    else if 'a' <= c <= 'f' then c as nat - 'a' as nat + 10
    else if 'A' <= c <= 'F' then c as nat - 'A' as nat + 10
    else 16
  }

  predicate IsDigitOf(c: char, base: nat) {
    DigitValue(c) < base
  }

  predicate AllDigitsOf(s: string, base: nat) {
    forall k :: 0 <= k < |s| ==> IsDigitOf(s[k], base)
  }

  /** The length of the longest prefix of `s` made of digits of `base`. */
  function PrefixLength(s: string, base: nat): (n: nat)
    ensures n <= |s|
    ensures AllDigitsOf(s[..n], base)
    ensures n < |s| ==> !IsDigitOf(s[n], base)
  {
    if |s| == 0 || !IsDigitOf(s[0], base) then 0
    else
      var n := 1 + PrefixLength(s[1..], base);
      assert s[..n] == [s[0]] + s[1..][..n - 1];
      n
  }

  /** The value of a digit string, most significant digit first. */
  function ValueOf(s: string, base: nat): nat
    requires AllDigitsOf(s, base)
  {
    if |s| == 0 then 0 else ValueOf(s[..|s| - 1], base) * base + DigitValue(s[|s| - 1])
  }

  /** std::stoll(text, nullptr, base) on a string of letters and digits. */
  function ParseInteger(text: string, base: nat): (r: Result<int>)
    ensures r.Success? <==> PrefixLength(text, base) > 0 && ValueOf(text[..PrefixLength(text, base)], base) <= LLONG_MAX
    ensures r.Success? ==> r.value == ValueOf(text[..PrefixLength(text, base)], base)
  {
    var n := PrefixLength(text, base);
    if n == 0 then Failure(HostError("stoll: no conversion could be performed"))
    else
      var v := ValueOf(text[..n], base);
      if v > LLONG_MAX then Failure(HostError("stoll: value out of range"))
      else Success(v)
  }

  function Power(base: nat, k: nat): (p: nat)
    ensures base > 0 ==> p > 0
  {
    if k == 0 then 1 else base * Power(base, k - 1)
  }

  /** The value of an integer part and a fraction part, when at least one is non-empty. */
  function Fixed(whole: string, fraction: string): (r: Result<real>)
    requires AllDigitsOf(whole, 10) && AllDigitsOf(fraction, 10)
    ensures r.Success? <==> |whole| > 0 || |fraction| > 0
    ensures r.Success? ==> r.value >= ValueOf(whole, 10) as real >= 0.0
  {
    if |whole| == 0 && |fraction| == 0 then Failure(HostError("stold: no conversion could be performed"))
    else Success(ValueOf(whole, 10) as real + ValueOf(fraction, 10) as real / Power(10, |fraction|) as real)
  }

  /** The exact value of "whole.fraction": the integer all its digits spell,
      divided by ten to the number of fraction digits; so it lies below the
      next integer after the whole part. */
  lemma FixedValue(whole: string, fraction: string)
    requires AllDigitsOf(whole, 10) && AllDigitsOf(fraction, 10) && (|whole| > 0 || |fraction| > 0)
    ensures AllDigitsOf(whole + fraction, 10)
    ensures Fixed(whole, fraction).value == ValueOf(whole + fraction, 10) as real / Power(10, |fraction|) as real
    ensures Fixed(whole, fraction).value < ValueOf(whole, 10) as real + 1.0
  {
    ValueOfAppend(whole, fraction, 10);
    ValueOfBound(fraction, 10);
    var x, p, n := Fixed(whole, fraction).value, Power(10, |fraction|), ValueOf(whole + fraction, 10);
    ScaledFraction(x, ValueOf(whole, 10), ValueOf(fraction, 10), p, n);
  }

  /** A whole number plus a fraction f / p with f < p is (w * p + f) / p, and
      it lies below w + 1. */
  lemma ScaledFraction(x: real, w: int, f: int, p: int, n: int)
    requires 0 <= f < p && x == w as real + f as real / p as real && n == w * p + f
    ensures x == n as real / p as real && x < w as real + 1.0
  {
    assert (f as real / p as real) * p as real == f as real;
    assert (w * p) as real == w as real * p as real;
    assert x * p as real == n as real;
  }

  /** Appending digits shifts the value of the leading ones by a power of the base. */
  lemma {:induction false} ValueOfAppend(a: string, b: string, base: nat)
    requires AllDigitsOf(a, base) && AllDigitsOf(b, base)
    ensures AllDigitsOf(a + b, base)
    ensures ValueOf(a + b, base) == ValueOf(a, base) * Power(base, |b|) + ValueOf(b, base)
    decreases |b|
  {
    if |b| == 0 {
      assert a + b == a;
    } else {
      var init := b[..|b| - 1];
      assert (a + b)[..|a + b| - 1] == a + init;
      ValueOfAppend(a, init, base);
      ShiftStep(ValueOf(a, base), Power(base, |init|), ValueOf(init, base), base, DigitValue(b[|b| - 1]));
    }
  }

  lemma ShiftStep(x: nat, q: nat, y: nat, base: nat, d: nat)
    ensures (x * q + y) * base + d == x * (base * q) + (y * base + d)
  {
  }

  /** A digit string of length k is worth less than base^k. */
  lemma {:induction false} ValueOfBound(s: string, base: nat)
    requires AllDigitsOf(s, base)
    ensures ValueOf(s, base) < Power(base, |s|)
  {
    if |s| > 0 {
      var init := s[..|s| - 1];
      ValueOfBound(init, base);
      assert IsDigitOf(s[|s| - 1], base);
      BoundStep(ValueOf(init, base), Power(base, |init|), base, DigitValue(s[|s| - 1]));
    }
  }

  lemma BoundStep(v: nat, q: nat, base: nat, d: nat)
    requires v < q && d < base
    ensures v * base + d < base * q
  {
    assert v * base <= (q - 1) * base;
  }

  /** std::stold(text) on a string of decimal digits and dots: the longest prefix
      made of an integer part, then optionally a dot and a fraction part. */
  function ParseDecimal(text: string): Result<real> {
    var n := PrefixLength(text, 10);
    if n < |text| && text[n] == '.' then
      var rest := text[n + 1..];
      Fixed(text[..n], rest[..PrefixLength(rest, 10)])
    else Fixed(text[..n], "")
  }

  /** The digit character of a value below 16, in lower case. */
  function DigitChar(d: nat): (c: char)
    requires d < 16
    ensures DigitValue(c) == d
  {
    if d < 10 then ('0' as int + d) as char else ('a' as int + d - 10) as char
  }

  /** The digits of `v` in `base`, without leading zeros. */
  function Digits(v: nat, base: nat): (s: string)
    requires 2 <= base <= 16
    ensures |s| > 0 && AllDigitsOf(s, base)
    decreases v
  {
    if v < base then [DigitChar(v)]
    else
      DivMod(v, base);
      Digits(v / base, base) + [DigitChar(v % base)]
  }

  lemma DivMod(v: nat, base: nat)
    requires 2 <= base <= v
    ensures v == (v / base) * base + v % base
    ensures 0 <= v % base < base && 0 < v / base < v
  {
  }

  /** Reading the digits of a value gives the value back. */
  lemma {:induction false} ValueOfDigits(v: nat, base: nat)
    requires 2 <= base <= 16
    ensures ValueOf(Digits(v, base), base) == v
    decreases v
  {
    var s := Digits(v, base);
    if v >= base {
      DivMod(v, base);
      ValueOfDigits(v / base, base);
      assert s[..|s| - 1] == Digits(v / base, base);
    }
  }

  /** A prefix made entirely of digits is read whole. */
  lemma {:induction false} PrefixLengthOfDigits(s: string, t: string, base: nat)
    requires AllDigitsOf(s, base)
    requires |t| == 0 || !IsDigitOf(t[0], base)
    ensures PrefixLength(s + t, base) == |s|
  {
    if |s| > 0 {
      assert (s + t)[1..] == s[1..] + t;
      PrefixLengthOfDigits(s[1..], t, base);
    }
  }

  /** stoll reads back the digits of any value it can represent, and ignores
      whatever follows them. */
  lemma ParseIntegerOfDigits(v: nat, base: nat, t: string)
    requires 2 <= base <= 16 && v <= LLONG_MAX
    requires |t| == 0 || !IsDigitOf(t[0], base)
    ensures ParseInteger(Digits(v, base) + t, base) == Success(v)
  {
    var s := Digits(v, base);
    PrefixLengthOfDigits(s, t, base);
    assert (s + t)[..|s|] == s;
    ValueOfDigits(v, base);
  }

  /** stold reads a digit string with a fraction exactly, whatever follows the fraction's digits. */
  lemma ParseDecimalOfDigits(whole: string, fraction: string, t: string)
    requires AllDigitsOf(whole, 10) && AllDigitsOf(fraction, 10)
    requires |t| == 0 || !IsDigitOf(t[0], 10)
    ensures ParseDecimal(whole + "." + fraction + t) == Fixed(whole, fraction)
  {
    var text := whole + ("." + fraction + t);
    assert whole + "." + fraction + t == text;
    PrefixLengthOfDigits(whole, "." + fraction + t, 10);
    assert text[..|whole|] == whole;
    assert text[|whole|] == '.';
    var rest := text[|whole| + 1..];
    assert rest == fraction + t;
    PrefixLengthOfDigits(fraction, t, 10);
    assert rest[..|fraction|] == fraction;
  }

  /** ... and a digit string without a dot as the integer it spells. */
  lemma ParseDecimalOfWhole(whole: string)
    requires AllDigitsOf(whole, 10) && |whole| > 0
    ensures ParseDecimal(whole) == Success(ValueOf(whole, 10) as real)
  {
    PrefixLengthOfDigits(whole, "", 10);
    assert whole + "" == whole;
    assert whole[..|whole|] == whole;
    assert ParseDecimal(whole) == Fixed(whole, "");
    FixedWithoutFraction(whole);
  }

  lemma FixedWithoutFraction(whole: string)
    requires AllDigitsOf(whole, 10) && |whole| > 0
    ensures Fixed(whole, "") == Success(ValueOf(whole, 10) as real)
  {
    assert ValueOf("", 10) == 0 && Power(10, 0) == 1;
  }
}
