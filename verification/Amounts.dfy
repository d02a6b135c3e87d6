/** Money on the wire: minor units written as the provider's major-unit
    numbers and read back without floating point (services/core/cmd/api/kora.go). */
module Amounts {
  import opened Common
  import opened Decimal
  import Policy

  const DOT: Byte := 46
  const MAX_WHOLE := 0x10_0000_0000_0000

  function TwoDigits(n: nat): Bytes
    requires n < 100
  {
    [48 + n / 10, 48 + n % 10]
  }

  /** majorAmount, for an amount that is not negative. */
  function MajorAmount(minor: nat): Bytes {
    if minor % 100 == 0 then Digits(minor / 100) else Digits(minor / 100) + [DOT] + TwoDigits(minor % 100)
  }

  /** strings.Cut at the first dot. */
  function BeforeDot(text: Bytes): Bytes {
    if text == [] || text[0] == DOT then [] else [text[0]] + BeforeDot(text[1..])
  }

  function AfterDot(text: Bytes): Bytes {
    if text == [] then [] else if text[0] == DOT then text[1..] else AfterDot(text[1..])
  }

  /** The minor units of a fraction's digits, halves up. */
  function Cents(frac: Bytes): nat
    requires AllDigits(frac)
  {
    if frac == [] then 0
    else if |frac| == 1 then Digit(frac[0]) * 10
    else Digit(frac[0]) * 10 + Digit(frac[1]) + (if |frac| > 2 && frac[2] >= 53 then 1 else 0)
  }

  function Unsigned(text: Bytes): Option<int> {
    var whole := if BeforeDot(text) == [] then [ZERO] else BeforeDot(text);
    var w := ParseInt(whole);
    if w.None? || w.value > MAX_WHOLE || !AllDigits(AfterDot(text)) then None
    else Some(Policy.Wrap(Policy.Wrap(w.value * 100) + Cents(AfterDot(text))))
  }

  /** What parseMajor reads; None is an error. */
  function Parsed(text: Bytes): Option<int> {
    if text != [] && text[0] == MINUS then
      var v := Unsigned(text[1..]);
      if v.None? then None else Some(Policy.Wrap(-v.value))
    else Unsigned(text)
  }

  /** parseMajor */
  method ParseMajor(input: Bytes) returns (r: Option<int>)
    ensures r == Parsed(input)
  {
    hide ParseInt, BeforeDot, AfterDot, Policy.Wrap;
    var text := input;
    var negative := |text| > 0 && text[0] == MINUS;
    if negative {
      text := text[1..];
    }
    var whole, frac := BeforeDot(text), AfterDot(text);
    if |whole| == 0 {
      whole := [ZERO];
    }
    var w := ParseInt(whole);
    if w.None? || w.value > MAX_WHOLE {
      return None;
    }
    for i := 0 to |frac|
      invariant AllDigits(frac[..i])
    {
      if frac[i] < 48 || frac[i] > 57 {
        return None;
      }
      assert frac[..i + 1] == frac[..i] + [frac[i]];
    }
    assert frac[..|frac|] == frac;
    var cents := 0;
    if |frac| == 1 {
      cents := Digit(frac[0]) * 10;
    } else if |frac| > 1 {
      cents := Digit(frac[0]) * 10 + Digit(frac[1]);
      if |frac| > 2 && frac[2] >= 53 {
        cents := cents + 1;
      }
    }
    var v := Policy.Wrap(Policy.Wrap(w.value * 100) + cents);
    if negative {
      v := Policy.Wrap(-v);
    }
    return Some(v);
  }

  // ---- what it means ----

  lemma {:induction false} CutPlain(whole: Bytes, rest: Bytes)
    requires AllDigits(whole)
    ensures BeforeDot(whole + [DOT] + rest) == whole && AfterDot(whole + [DOT] + rest) == rest
    ensures BeforeDot(whole) == whole && AfterDot(whole) == []
  {
    if whole == [] {
      assert [] + [DOT] + rest == [DOT] + rest && ([DOT] + rest)[1..] == rest;
    } else {
      CutPlain(whole[1..], rest);
      assert (whole + [DOT] + rest)[1..] == whole[1..] + [DOT] + rest;
      assert [whole[0]] + whole[1..] == whole;
    }
  }

  function Pow10(n: nat): (r: nat)
    ensures r > 0
  {
    if n == 0 then 1 else 10 * Pow10(n - 1)
  }

  lemma {:induction false} ValueConcat(a: Bytes, b: Bytes)
    requires AllDigits(a) && AllDigits(b)
    ensures AllDigits(a + b) && Value(a + b) == Value(a) * Pow10(|b|) + Value(b)
  {
    if b == [] {
      assert a + b == a;
    } else {
      var init, last := b[..|b| - 1], b[|b| - 1];
      ValueConcat(a, init);
      assert (a + b)[..|a + b| - 1] == a + init;
      Regroup(Value(a), Pow10(|init|), Value(init), Digit(last));
    }
  }

  lemma Regroup(a: nat, p: nat, v: nat, d: nat)
    ensures (a * p + v) * 10 + d == a * (10 * p) + (v * 10 + d)
  {}

  lemma {:induction false} ValueBelow(s: Bytes)
    requires AllDigits(s)
    ensures Value(s) < Pow10(|s|)
  {
    if s != [] {
      ValueBelow(s[..|s| - 1]);
    }
  }

  /** The nearest minor unit of n / 10^k major units, halves up. */
  function Nearest(n: nat, k: nat): int { (200 * n + Pow10(k)) / (2 * Pow10(k)) }

  lemma NearestIs(n: nat, k: nat, r: int)
    requires 2 * Pow10(k) * r <= 200 * n + Pow10(k) < 2 * Pow10(k) * (r + 1)
    ensures Nearest(n, k) == r
  {
    var d := 2 * Pow10(k);
    Policy.DivIs(200 * n + Pow10(k), d, r, 200 * n + Pow10(k) - d * r);
  }

  /** The fraction's first digits and the rest: the third digit decides. */
  lemma CentsAreNearest(w: nat, frac: Bytes)
    requires AllDigits(frac)
    ensures w * 100 + Cents(frac) == Nearest(w * Pow10(|frac|) + Value(frac), |frac|)
  {
    if |frac| <= 2 {
      ShortFraction(w, frac);
    } else {
      LongFraction(w, frac);
    }
  }

  /** One digit and two, as numbers and as powers of ten. */
  lemma OneDigit(frac: Bytes)
    requires AllDigits(frac) && |frac| == 1
    ensures Value(frac) == Digit(frac[0]) && Pow10(1) == 10
  {
    assert frac[..0] == [];
  }

  lemma BothDigits(frac: Bytes)
    requires AllDigits(frac) && |frac| == 2
    ensures Value(frac) == Digit(frac[0]) * 10 + Digit(frac[1]) && Pow10(2) == 100
  {
    OneDigit(frac[..1]);
  }

  lemma NoDigit()
    ensures Value([]) == 0 && Pow10(0) == 1
  {}

  lemma ShortFraction(w: nat, frac: Bytes)
    requires AllDigits(frac) && |frac| <= 2
    ensures w * 100 + Cents(frac) == Nearest(w * Pow10(|frac|) + Value(frac), |frac|)
  {
    hide Nearest, Value, Pow10;
    if |frac| == 0 {
      NoDigit();
      NearestIs(w, 0, w * 100);
    } else if |frac| == 1 {
      OneDigit(frac);
      NearestIs(w * 10 + Value(frac), 1, w * 100 + Cents(frac));
    } else {
      BothDigits(frac);
      NearestIs(w * 100 + Value(frac), 2, w * 100 + Cents(frac));
    }
  }

  lemma LongFraction(w: nat, frac: Bytes)
    requires AllDigits(frac) && |frac| > 2
    ensures w * 100 + Cents(frac) == Nearest(w * Pow10(|frac|) + Value(frac), |frac|)
  {
    hide Nearest, Value, Pow10;
    var head, tail := frac[..3], frac[3..];
    var p, f, t := Pow10(|tail|), Digit(frac[2]), Value(tail);
    assert head + tail == frac;
    ValueConcat(head, tail);
    ValueBelow(tail);
    HeadValue(frac);
    ThreeMore(|tail|);
    var c := Digit(frac[0]) * 10 + Digit(frac[1]);
    LongBounds(w, c, f, p, t);
    NearestIs(w * Pow10(|frac|) + Value(frac), |frac|, w * 100 + Cents(frac));
  }

  lemma ThreeMore(n: nat)
    ensures Pow10(n + 3) == 1000 * Pow10(n)
  {
    assert Pow10(n + 3) == 10 * Pow10(n + 2) && Pow10(n + 2) == 10 * Pow10(n + 1);
  }

  lemma HeadValue(frac: Bytes)
    requires AllDigits(frac) && |frac| > 2
    ensures Value(frac[..3]) == Digit(frac[0]) * 100 + Digit(frac[1]) * 10 + Digit(frac[2])
  {
    var h := frac[..3];
    assert h[..2][..1][..0] == [] && h[..2][..1] == [frac[0]];
    assert Value([frac[0]]) == Digit(frac[0]) by {
      assert [frac[0]][..0] == [];
    }
  }

  lemma Distribute(p: nat, w: nat, c: nat, k: nat)
    ensures 2 * (1000 * p) * (w * 100 + c + k) == 200_000 * (w * p) + 2000 * (c * p) + 2000 * (k * p)
  {
    assert p * (w * 100 + c + k) == 100 * (w * p) + c * p + k * p;
  }

  lemma ThirdDigit(f: nat, p: nat)
    requires f < 10
    ensures f >= 5 ==> 5 * p <= f * p <= 9 * p
    ensures f < 5 ==> 0 <= f * p <= 4 * p
  {
    Policy.MulLe(p, f, 9);
    if f >= 5 {
      Policy.MulLe(p, 5, f);
    } else {
      Policy.MulLe(p, f, 4);
      Policy.MulLe(p, 0, f);
    }
  }

  /** With c the first two digits, f the third and t what follows. */
  lemma LongBounds(w: nat, c: nat, f: nat, p: nat, t: nat)
    requires f < 10 && t < p
    ensures var n := w * (1000 * p) + ((c * 10 + f) * p + t);
      var r := w * 100 + c + (if f >= 5 then 1 else 0);
      2 * (1000 * p) * r <= 200 * n + 1000 * p < 2 * (1000 * p) * (r + 1)
  {
    var k := if f >= 5 then 1 else 0;
    var wp, cp, fp := w * p, c * p, f * p;
    assert w * (1000 * p) == 1000 * wp;
    assert (c * 10 + f) * p == 10 * cp + fp;
    Distribute(p, w, c, k);
    Distribute(p, w, c, k + 1);
    assert k * p == (if f >= 5 then p else 0) && (k + 1) * p == k * p + p;
    ThirdDigit(f, p);
  }

  /** Any plain decimal whose whole part is at most 2^52 is read as its nearest
      minor unit, halves up, however many digits its fraction has. */
  lemma ReadsNearest(whole: Bytes, frac: Bytes)
    requires AllDigits(whole) && AllDigits(frac) && Value(whole) <= MAX_WHOLE
    ensures Parsed(whole + [DOT] + frac) == Some(Nearest(Value(whole) * Pow10(|frac|) + Value(frac), |frac|))
    ensures whole != [] ==> Parsed(whole) == Some(Value(whole) * 100)
  {
    hide Nearest, Cents, Value, ParseInt, Policy.Wrap, Pow10, BeforeDot, AfterDot;
    CutPlain(whole, frac);
    WholeReads(whole);
    CentsAreNearest(Value(whole), frac);
    CentsFit(frac);
    FitsInt64(Value(whole), Cents(frac));
    FitsInt64(Value(whole), 0);
    NoMinus(whole, frac);
  }

  /** A minus sign in front negates, and after the dot only digits are read. */
  lemma SignedOrRefused(whole: Bytes, frac: Bytes)
    requires AllDigits(whole) && Value(whole) <= MAX_WHOLE
    ensures var text := whole + [DOT] + frac;
      && (Parsed(text).Some? <==> AllDigits(frac))
      && (Parsed([MINUS] + text).Some? <==> AllDigits(frac))
      && (AllDigits(frac) ==> Parsed([MINUS] + text) == Some(-Nearest(Value(whole) * Pow10(|frac|) + Value(frac), |frac|)))
  {
    hide Nearest, Cents, Value, Policy.Wrap, Pow10, Unsigned, Parsed;
    var text := whole + [DOT] + frac;
    UnsignedExactly(whole, frac);
    Front(text);
    NoMinus(whole, frac);
    if AllDigits(frac) {
      CentsAreNearest(Value(whole), frac);
      CentsFit(frac);
      FitsInt64(Value(whole), Cents(frac));
      Negated(Value(whole), Cents(frac));
    }
  }

  /** What is read without a sign. */
  lemma UnsignedExactly(whole: Bytes, frac: Bytes)
    requires AllDigits(whole) && Value(whole) <= MAX_WHOLE
    ensures Unsigned(whole + [DOT] + frac) ==
      if AllDigits(frac) then Some(Policy.Wrap(Policy.Wrap(Value(whole) * 100) + Cents(frac))) else None
  {
    hide Cents, Value, ParseInt, Policy.Wrap, BeforeDot, AfterDot;
    CutPlain(whole, frac);
    WholeReads(whole);
  }

  lemma Front(text: Bytes)
    requires text != [] && text[0] != MINUS
    ensures Parsed(text) == Unsigned(text)
    ensures Parsed([MINUS] + text) ==
      if Unsigned(text).None? then None else Some(Policy.Wrap(-Unsigned(text).value))
  {
    hide Unsigned, Policy.Wrap;
    assert ([MINUS] + text)[1..] == text;
  }

  lemma Negated(w: nat, cents: nat)
    requires w <= MAX_WHOLE && cents <= 100
    ensures Policy.Wrap(-(w * 100 + cents)) == -(w * 100 + cents)
  {
    hide Policy.Wrap;
    Policy.WrapId(-(w * 100 + cents));
  }

  lemma CentsFit(frac: Bytes)
    requires AllDigits(frac)
    ensures Cents(frac) <= 100 && Cents([]) == 0
  {}

  lemma NoMinus(whole: Bytes, frac: Bytes)
    requires AllDigits(whole)
    ensures var text := whole + [DOT] + frac; text != [] && text[0] != MINUS
    ensures whole != [] ==> whole[0] != MINUS
  {}

  lemma WholeReads(whole: Bytes)
    requires AllDigits(whole) && Value(whole) <= MAX_WHOLE
    ensures ParseInt(if whole == [] then [ZERO] else whole) == Some(Value(whole))
  {}

  lemma FitsInt64(w: nat, cents: nat)
    requires w <= MAX_WHOLE && cents <= 100
    ensures Policy.Wrap(Policy.Wrap(w * 100) + cents) == w * 100 + cents
  {}

  lemma TooLarge(whole: Bytes, frac: Bytes)
    requires AllDigits(whole) && whole != [] && AllDigits(frac) && Value(whole) > MAX_WHOLE
    ensures Parsed(whole) == None && Parsed(whole + [DOT] + frac) == None
  {
    hide Cents, Policy.Wrap, BeforeDot, AfterDot, Value;
    CutPlain(whole, frac);
    NoMinus(whole, frac);
  }

  /** Whatever amount is sent is the amount that is read back, exactly as long
      as its whole part is at most 2^52; beyond that it is refused. */
  lemma AmountRoundTrip(minor: nat)
    ensures Parsed(MajorAmount(minor)) == if minor / 100 <= MAX_WHOLE then Some(minor) else None
  {
    hide Nearest, Value, ParseInt, Policy.Wrap, Pow10, BeforeDot, AfterDot, Digits, Unsigned;
    var whole, frac := Digits(minor / 100), TwoDigits(minor % 100);
    DigitsValue(minor / 100);
    if minor / 100 > MAX_WHOLE {
      TooLarge(whole, frac);
    } else if minor % 100 == 0 {
      ReadsNearest(whole, []);
    } else {
      CentsReadBack(whole, frac, minor);
    }
  }

  lemma CentsReadBack(whole: Bytes, frac: Bytes, minor: nat)
    requires AllDigits(whole) && whole != [] && Value(whole) == minor / 100 <= MAX_WHOLE
    requires frac == TwoDigits(minor % 100)
    ensures Parsed(whole + [DOT] + frac) == Some(minor)
  {
    hide Value, ParseInt, Policy.Wrap, BeforeDot, AfterDot;
    CutPlain(whole, frac);
    WholeReads(whole);
    FitsInt64(minor / 100, Cents(frac));
    NoMinus(whole, frac);
  }
}
