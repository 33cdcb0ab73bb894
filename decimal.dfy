/** The `data-slide` attribute of a dot: the slide number printed in decimal by
    the template literal `${i}`, and read back as a number. */
module Decimal {

  predicate IsDigit(c: char)
  {
    '0' <= c <= '9'
  }

  predicate AllDigits(s: string)
  {
    forall j :: 0 <= j < |s| ==> IsDigit(s[j])
  }

  function DigitChar(d: nat): (c: char)
    requires d < 10
    ensures IsDigit(c) && c as int - '0' as int == d
  {
    ('0' as int + d) as char
  }

  /** Decimal text of `k`, without leading zeros. */
  function Digits(k: nat): (s: string)
    ensures |s| >= 1 && AllDigits(s)
    ensures s[0] == '0' <==> k == 0
    ensures k < 10 <==> |s| == 1
  {
    if k < 10 then [DigitChar(k)] else Digits(k / 10) + [DigitChar(k % 10)]
  }

  /** Numeric value of a string of digits, as `Number(s)` computes it. */
  function ParseDigits(s: string): nat
    requires AllDigits(s)
  {
    if s == [] then 0
    else 10 * ParseDigits(s[..|s| - 1]) + (s[|s| - 1] as int - '0' as int)
  }

  /** Reading a printed slide number gives the number back. */
  lemma {:induction false} ParseDigitsOfDigits(k: nat)
    ensures ParseDigits(Digits(k)) == k
  {
    var s := Digits(k);
    if k >= 10 {
      assert s[..|s| - 1] == Digits(k / 10);
      ParseDigitsOfDigits(k / 10);
    }
  }

  /** Distinct slides get distinct `data-slide` labels. */
  lemma DigitsInjective(a: nat, b: nat)
    ensures Digits(a) == Digits(b) <==> a == b
  {
    if Digits(a) == Digits(b) {
      ParseDigitsOfDigits(a);
      ParseDigitsOfDigits(b);
    }
  }

  /** Appending the character '1' to the label of a positive `t` gives the
      label of `10 * t + 1`. */
  lemma AppendOne(t: nat)
    requires t >= 1
    ensures Digits(t) + "1" == Digits(10 * t + 1)
  {
  }
}
