/** Decimal numerals as the %d verb prints them. */
module Decimals {

  predicate IsDigit(c: char) {
    '0' <= c <= '9'
  }

  function DigitChar(d: nat): (c: char)
    requires d < 10
    ensures IsDigit(c) && DigitValue(c) == d
  {
    ('0' as int + d) as char
  }

  function DigitValue(c: char): (d: nat)
    requires IsDigit(c)
    ensures d < 10
  {
    c as int - '0' as int
  }

  function Decimal(n: nat): (s: string)
    ensures s != [] && forall i :: 0 <= i < |s| ==> IsDigit(s[i])
  {
    if n < 10 then [DigitChar(n)] else Decimal(n / 10) + [DigitChar(n % 10)]
  }

  function SignedDecimal(n: int): string {
    if n < 0 then "-" + Decimal(-n) else Decimal(n)
  }

  /** The number a string of digits stands for. */
  function Numeral(s: string): nat
    requires forall i :: 0 <= i < |s| ==> IsDigit(s[i])
  {
    if s == [] then 0 else Numeral(s[..|s| - 1]) * 10 + DigitValue(s[|s| - 1])
  }

  lemma {:induction false} NumeralOfDecimal(n: nat)
    ensures Numeral(Decimal(n)) == n
  {
    var s := Decimal(n);
    if n < 10 {
      assert s[..0] == [];
    } else {
      NumeralOfDecimal(n / 10);
      assert s[..|s| - 1] == Decimal(n / 10);
    }
  }

  /** A numeral without leading zeros. */
  predicate Plain(s: string) {
    s != [] && (forall i :: 0 <= i < |s| ==> IsDigit(s[i])) && (s[0] == '0' ==> |s| == 1)
  }

  lemma {:induction false} DecimalIsPlain(n: nat)
    ensures Plain(Decimal(n)) && (n > 0 ==> Decimal(n)[0] != '0')
  {
    if n >= 10 {
      DecimalIsPlain(n / 10);
    }
  }

  lemma {:induction false} PlainIsPositive(s: string)
    requires Plain(s) && s[0] != '0'
    ensures Numeral(s) > 0
  {
    if |s| > 1 {
      PlainIsPositive(s[..|s| - 1]);
    } else {
      assert Numeral(s[..0]) == 0;
    }
  }

  /** Printing the number a plain numeral stands for gives the numeral back. */
  lemma {:induction false} DecimalOfNumeral(s: string)
    requires Plain(s)
    ensures Decimal(Numeral(s)) == s
  {
    var front := s[..|s| - 1];
    if |s| == 1 {
      assert Numeral(front) == 0;
    } else {
      PlainIsPositive(front);
      DecimalOfNumeral(front);
      assert s == front + [s[|s| - 1]];
    }
  }

  lemma {:induction false} SignedDecimalInjective(m: int, n: int)
    requires SignedDecimal(m) == SignedDecimal(n)
    ensures m == n
  {
    var s := SignedDecimal(m);
    assert m < 0 ==> s[0] == '-' && s[1..] == Decimal(-m);
    assert n < 0 ==> s[0] == '-' && s[1..] == Decimal(-n);
    assert m >= 0 ==> IsDigit(s[0]);
    assert n >= 0 ==> IsDigit(s[0]);
    NumeralOfDecimal(if m < 0 then -m else m);
    NumeralOfDecimal(if n < 0 then -n else n);
  }
}
