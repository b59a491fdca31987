/** Decimal rendering of unsigned integers and the parser behind Rust's `str::parse`. */
module Decimal {
  import opened Wrappers

  const U32_MAX: nat := 0xFFFF_FFFF
  const U64_MAX: nat := 0xFFFF_FFFF_FFFF_FFFF
  const I64_MAX: nat := 0x7FFF_FFFF_FFFF_FFFF

  predicate IsDigit(c: char) {
    '0' <= c <= '9'
  }

  predicate AllDigits(s: string) {
    forall i :: 0 <= i < |s| ==> IsDigit(s[i])
  }

  function Digit(d: nat): (c: char)
    requires d < 10
    ensures IsDigit(c) && c as int - '0' as int == d
  {
    ('0' as int + d) as char
  }

  function ToDecimal(n: nat): (s: string)
    ensures |s| > 0 && AllDigits(s)
  {
    if n < 10 then [Digit(n)] else ToDecimal(n / 10) + [Digit(n % 10)]
  }

  function DigitsValue(s: string): nat
    requires AllDigits(s)
  {
    if s == [] then 0
    else 10 * DigitsValue(s[..|s| - 1]) + (s[|s| - 1] as int - '0' as int)
  }

  /** `parse::<u32>` and `parse::<usize>`: one optional `+`, then digits; overflow is an error. */
  function ParseUnsigned(s: string, max: nat): Option<nat> {
    var digits := if |s| > 0 && s[0] == '+' then s[1..] else s;
    if digits == [] || !AllDigits(digits) then None
    else if DigitsValue(digits) > max then None
    else Some(DigitsValue(digits))
  }

  lemma {:induction false} DecimalValue(n: nat)
    ensures DigitsValue(ToDecimal(n)) == n
  {
    if n >= 10 {
      DecimalValue(n / 10);
      var s := ToDecimal(n);
      assert s[..|s| - 1] == ToDecimal(n / 10);
    }
  }

  lemma {:induction false} ParseRoundTrip(n: nat, max: nat)
    ensures ParseUnsigned(ToDecimal(n), max) == if n <= max then Some(n) else None
  {
    DecimalValue(n);
    assert IsDigit(ToDecimal(n)[0]);
  }

  /** Digits for this number, with leading zeros or a plus sign if they are there. */
  ghost predicate IsNumeral(s: string, n: nat) {
    exists digits: string :: (s == digits || s == "+" + digits)
                             && digits != "" && AllDigits(digits) && DigitsValue(digits) == n
  }

  /** A number is parsed exactly from its numerals, and only up to the limit. */
  lemma {:induction false} ParseUnsignedIff(s: string, max: nat, n: nat)
    ensures ParseUnsigned(s, max) == Some(n) <==> n <= max && IsNumeral(s, n)
  {
    if ParseUnsigned(s, max) == Some(n) {
      var digits := if |s| > 0 && s[0] == '+' then s[1..] else s;
      assert s == digits || s == "+" + digits;
    }
    forall digits: string | digits != "" && AllDigits(digits)
      ensures ParseUnsigned(digits, max) == ParseUnsigned("+" + digits, max)
           == if DigitsValue(digits) <= max then Some(DigitsValue(digits)) else None
    {
      assert IsDigit(digits[0]) && ("+" + digits)[1..] == digits;
    }
  }

  lemma {:induction false} DecimalInjective(m: nat, n: nat)
    requires ToDecimal(m) == ToDecimal(n)
    ensures m == n
  {
    DecimalValue(m);
    DecimalValue(n);
  }

  function Zeros(k: nat): (s: string)
    ensures |s| == k && AllDigits(s)
  {
    if k == 0 then [] else ['0'] + Zeros(k - 1)
  }

  /** `{:0width$}`: at least `width` digits, filled with zeros on the left. */
  function PaddedDecimal(n: nat, width: nat): (s: string)
    ensures AllDigits(s)
  {
    var digits := ToDecimal(n);
    if |digits| < width then Zeros(width - |digits|) + digits else digits
  }

  lemma {:induction false} LeadingZeros(k: nat, s: string)
    requires AllDigits(s)
    ensures DigitsValue(Zeros(k) + s) == DigitsValue(s)
  {
    var t := Zeros(k) + s;
    if s == [] {
      if k > 0 {
        ZerosSnoc(k - 1);
        LeadingZeros(k - 1, []);
        assert Zeros(k - 1) + [] == Zeros(k - 1);
        assert t == Zeros(k - 1) + ['0'] && t[..|t| - 1] == Zeros(k - 1);
      }
    } else {
      LeadingZeros(k, s[..|s| - 1]);
      assert t[..|t| - 1] == Zeros(k) + s[..|s| - 1];
    }
  }

  lemma {:induction false} ZerosSnoc(k: nat)
    ensures Zeros(k + 1) == Zeros(k) + ['0']
  {
    if k > 0 {
      ZerosSnoc(k - 1);
    }
  }

  /** The value, in as many digits as it needs but at least `width`. */
  lemma {:induction false} PaddedMeaning(n: nat, width: nat)
    ensures DigitsValue(PaddedDecimal(n, width)) == n
    ensures |PaddedDecimal(n, width)| >= width
    ensures |PaddedDecimal(n, width)| > width && |PaddedDecimal(n, width)| > 1 ==> PaddedDecimal(n, width)[0] != '0'
  {
    DecimalValue(n);
    NoLeadingZero(n);
    LeadingZeros(if |ToDecimal(n)| < width then width - |ToDecimal(n)| else 0, ToDecimal(n));
  }

  lemma {:induction false} NoLeadingZero(n: nat)
    ensures n > 0 ==> ToDecimal(n)[0] != '0'
    ensures n == 0 ==> ToDecimal(n) == "0"
  {
    if n >= 10 {
      NoLeadingZero(n / 10);
    }
  }

  lemma {:induction false} PaddedInjective(m: nat, n: nat, width: nat)
    requires PaddedDecimal(m, width) == PaddedDecimal(n, width)
    ensures m == n
  {
    PaddedMeaning(m, width);
    PaddedMeaning(n, width);
  }
}
