/** Whole numbers in decimal, as they are written and as they are read. */
module Decimal {
  import opened Common

  const ZERO: Byte := 48
  const MINUS: Byte := 45
  const PLUS: Byte := 43

  predicate IsDigit(b: Byte) { 48 <= b < 58 }

  function Digit(b: Byte): nat
    requires IsDigit(b)
  {
    b - 48
  }

  predicate AllDigits(s: Bytes) { forall i | 0 <= i < |s| :: IsDigit(s[i]) }

  /** The digits of a number, without leading zeros. */
  function Digits(n: nat): Bytes {
    if n < 10 then [48 + n] else Digits(n / 10) + [48 + n % 10]
  }

  /** strconv.FormatInt in base 10. */
  function Written(n: int): Bytes {
    if n < 0 then [MINUS] + Digits(-n) else Digits(n)
  }

  function Value(s: Bytes): nat
    requires AllDigits(s)
  {
    if s == [] then 0 else Value(s[..|s| - 1]) * 10 + Digit(s[|s| - 1])
  }

  /** strconv.ParseInt in base 10 for 64 bits: one optional sign, then digits,
      and a value in range. */
  function ParseInt(s: Bytes): Option<int> {
    var signed := s != [] && (s[0] == MINUS || s[0] == PLUS);
    var digits := if signed then s[1..] else s;
    if digits == [] || !AllDigits(digits) then None
    else
      var v: int := if signed && s[0] == MINUS then 0 - Value(digits) else Value(digits);
      if -MAX_INT64 - 1 <= v <= MAX_INT64 then Some(v) else None
  }

  lemma {:induction false} DigitsValue(n: nat)
    ensures Digits(n) != [] && AllDigits(Digits(n)) && Value(Digits(n)) == n
    ensures n > 0 ==> Digits(n)[0] != ZERO
  {
    if n >= 10 {
      DigitsValue(n / 10);
      var d := Digits(n / 10);
      assert (d + [48 + n % 10])[..|d|] == d;
    } else {
      assert [48 + n][..0] == [];
    }
  }

  /** Reading back what was written. */
  lemma ParseWritten(n: int)
    requires -MAX_INT64 - 1 <= n <= MAX_INT64
    ensures ParseInt(Written(n)) == Some(n)
  {
    hide Digits, Value;
    if n < 0 {
      DigitsValue(-n);
      assert Written(n)[1..] == Digits(-n);
    } else {
      DigitsValue(n);
      assert IsDigit(Digits(n)[0]);
    }
  }

  /** Written numbers hold no line breaks. */
  lemma WrittenPlain(n: int)
    ensures Written(n) != [] && forall i | 0 <= i < |Written(n)| :: Written(n)[i] == MINUS || IsDigit(Written(n)[i])
  {
    DigitsValue(if n < 0 then -n else n);
  }

  lemma DigitsInjective(a: nat, b: nat)
    requires Digits(a) == Digits(b)
    ensures a == b
  {
    DigitsValue(a);
    DigitsValue(b);
  }
}
