/** Decimal rendering of integers, as Go's strconv.Itoa writes them, and a
    reference parser for the same syntax. strconv is not part of this model;
    this module states what the attribute builder relies on: the text is the
    shortest decimal form of the number and reads back to it. */
module Decimal {
  import opened Wrappers

  predicate IsDigit(c: char) {
    '0' <= c <= '9'
  }

  predicate AllDigits(s: string) {
    forall k | 0 <= k < |s| :: IsDigit(s[k])
  }

  function DigitChar(d: nat): (c: char)
    requires d < 10
    ensures IsDigit(c) && c as int - '0' as int == d
  {
    ('0' as int + d) as char
  }

  function DigitValue(c: char): (d: nat)
    requires IsDigit(c)
    ensures d < 10 && DigitChar(d) == c
  {
    c as int - '0' as int
  }

  /** The digits of a natural number as Itoa writes them: at least one
      digit, and no leading zero except in "0" itself. */
  predicate IsCanonicalNat(s: string) {
    |s| > 0 && AllDigits(s) && (s[0] == '0' ==> |s| == 1)
  }

  /** An Itoa text: the digits of a natural number, or a minus sign followed
      by the digits of a positive one (so never "-0"). */
  predicate IsCanonical(s: string) {
    IsCanonicalNat(s) || (|s| >= 2 && s[0] == '-' && IsCanonicalNat(s[1..]) && s[1] != '0')
  }

  function NatDigits(n: nat): (s: string)
    ensures IsCanonicalNat(s)
    ensures s[0] == '0' <==> n == 0
  {
    if n < 10 then [DigitChar(n)] else NatDigits(n / 10) + [DigitChar(n % 10)]
  }

  /** strconv.Itoa: a leading '-' exactly for negative numbers, then the
      digits of the magnitude without leading zeros. */
  function Itoa(i: int): (s: string)
    ensures IsCanonical(s)
    ensures s[0] == '-' <==> i < 0
  {
    if i < 0 then
      var digits := NatDigits(-i);
      assert ("-" + digits)[1..] == digits;
      "-" + digits
    else
      NatDigits(i)
  }

  /** The number a string of digits denotes. */
  function DigitsValue(s: string): nat
    requires AllDigits(s)
  {
    if s == [] then 0 else DigitsValue(s[..|s| - 1]) * 10 + DigitValue(s[|s| - 1])
  }

  /** Reference parser: an optional sign, then one or more decimal digits
      (the syntax strconv.Atoi accepts, without its 64-bit range check). */
  function ParseDecimal(s: string): Option<int> {
    if |s| > 0 && (s[0] == '-' || s[0] == '+') then
      if |s| > 1 && AllDigits(s[1..]) then
        var magnitude: int := DigitsValue(s[1..]);
        Some(if s[0] == '-' then -magnitude else magnitude)
      else
        None
    else if |s| > 0 && AllDigits(s) then
      Some(DigitsValue(s))
    else
      None
  }

  lemma {:induction false} NatDigitsValue(n: nat)
    ensures DigitsValue(NatDigits(n)) == n
  {
    if n >= 10 {
      var s := NatDigits(n);
      assert s[..|s| - 1] == NatDigits(n / 10);
      NatDigitsValue(n / 10);
    }
  }

  /** Reading back what Itoa wrote yields the original integer. */
  lemma ParseItoa(i: int)
    ensures ParseDecimal(Itoa(i)) == Some(i)
  {
    if i < 0 {
      assert Itoa(i)[1..] == NatDigits(-i);
      NatDigitsValue(-i);
    } else {
      NatDigitsValue(i);
    }
  }

  lemma {:induction false} LeadingNonZero(s: string)
    requires |s| > 0 && AllDigits(s) && s[0] != '0'
    ensures DigitsValue(s) > 0
  {
    if |s| > 1 {
      LeadingNonZero(s[..|s| - 1]);
    }
  }

  lemma {:induction false} DigitsRoundTrip(s: string)
    requires IsCanonicalNat(s)
    ensures NatDigits(DigitsValue(s)) == s
  {
    var last := s[|s| - 1];
    if |s| > 1 {
      var init := s[..|s| - 1];
      assert IsCanonicalNat(init);
      DigitsRoundTrip(init);
      LeadingNonZero(init);
      var n := DigitsValue(s);
      assert n / 10 == DigitsValue(init) && n % 10 == DigitValue(last);
      assert s == init + [last];
    } else {
      assert s == [last];
    }
  }

  /** Every Itoa text is the rendering of the number it denotes: Itoa and
      ParseDecimal are inverse on canonical texts. */
  lemma ItoaParse(s: string)
    requires IsCanonical(s)
    ensures ParseDecimal(s).Some? && Itoa(ParseDecimal(s).value) == s
  {
    if IsCanonicalNat(s) {
      DigitsRoundTrip(s);
    } else {
      var digits := s[1..];
      DigitsRoundTrip(digits);
      LeadingNonZero(digits);
      assert s == "-" + digits;
    }
  }
}
