/** Integers written in decimal, and read back. */
module Decimal {

  const MIN_INT64 := -0x8000_0000_0000_0000
  const MAX_INT64 := 0x7FFF_FFFF_FFFF_FFFF

  datatype Number = NotANumber | Number(value: int)

  predicate IsDigit(c: char) {
    '0' <= c <= '9'
  }

  function Digit(d: nat): (c: char)
    requires d < 10
    ensures IsDigit(c) && DigitValue(c) == d
  {
    ('0' as int + d) as char
  }

  function DigitValue(c: char): nat
    requires IsDigit(c)
  {
    c as int - '0' as int
  }

  function Digits(n: nat): (s: string)
    ensures s != "" && forall c | c in s :: IsDigit(c)
  {
    if n < 10 then [Digit(n)] else Digits(n / 10) + [Digit(n % 10)]
  }

  function Format(n: int): (s: string)
    ensures s != ""
  {
    if n < 0 then "-" + Digits(-n) else Digits(n)
  }

  function Value(s: string): nat
    requires forall c | c in s :: IsDigit(c)
  {
    if s == "" then 0
    else
      assert forall c | c in s[..|s| - 1] :: c in s;
      10 * Value(s[..|s| - 1]) + DigitValue(s[|s| - 1])
  }

  function ParseDigits(s: string): Number {
    if s != "" && forall c | c in s :: IsDigit(c) then Number(Value(s)) else NotANumber
  }

  /** An optional sign and digits, of any size. */
  function ParseSigned(s: string): Number {
    if s != "" && s[0] == '-' then
      var digits := ParseDigits(s[1..]);
      if digits.Number? then Number(-digits.value) else NotANumber
    else if s != "" && s[0] == '+' then ParseDigits(s[1..])
    else ParseDigits(s)
  }

  predicate IsInt64(n: int) {
    MIN_INT64 <= n <= MAX_INT64
  }

  /** A number outside the 64-bit range is an error. */
  function ParseInt(s: string): Number {
    var n := ParseSigned(s);
    if n.Number? && IsInt64(n.value) then n else NotANumber
  }

  lemma {:induction false} ValueOfDigits(n: nat)
    ensures Value(Digits(n)) == n
  {
    if n >= 10 {
      ValueOfDigits(n / 10);
      assert Digits(n)[..|Digits(n)| - 1] == Digits(n / 10);
    } else {
      assert Digits(n)[..0] == "";
    }
  }

  lemma DigitsParse(n: nat)
    ensures ParseDigits(Digits(n)) == Number(n)
    ensures Digits(n)[0] != '-' && Digits(n)[0] != '+'
  {
    ValueOfDigits(n);
    assert Digits(n)[0] in Digits(n);
  }

  lemma ParseOfFormat(n: int)
    ensures ParseSigned(Format(n)) == Number(n)
  {
    hide ParseDigits, Digits, Value;
    if n < 0 {
      DigitsParse(-n);
      assert Format(n)[1..] == Digits(-n);
    } else {
      DigitsParse(n);
    }
  }

  /** A 64-bit number, and no other, is read back as itself. */
  lemma IntReadsBack(n: int)
    ensures ParseInt(Format(n)) == Number(n) <==> -9223372036854775808 <= n <= 9223372036854775807
  {
    ParseOfFormat(n);
  }

  lemma FormatIsInjective(a: int, b: int)
    ensures Format(a) == Format(b) <==> a == b
  {
    ParseOfFormat(a);
    ParseOfFormat(b);
  }

  /** The text is canonical: a minus sign for negative numbers only, then digits without a leading zero. */
  lemma FormatIsCanonical(n: int)
    ensures var digits := if n < 0 then Format(n)[1..] else Format(n);
            && (n < 0 ==> Format(n)[0] == '-')
            && digits != "" && (forall c | c in digits :: IsDigit(c)) && (digits[0] == '0' ==> n == 0 && |digits| == 1)
  {
    DigitsHaveNoLeadingZero(if n < 0 then -n else n);
  }

  lemma {:induction false} DigitsHaveNoLeadingZero(n: nat)
    ensures Digits(n)[0] == '0' ==> n == 0 && |Digits(n)| == 1
  {
    if n >= 10 {
      DigitsHaveNoLeadingZero(n / 10);
    } else {
      assert DigitValue('0') == 0 && Digit(n) == '0' ==> n == 0;
    }
  }

  lemma FormatHasNoOther(n: int, sep: char)
    requires !IsDigit(sep) && sep != '-'
    ensures sep !in Format(n)
  {
  }
}
