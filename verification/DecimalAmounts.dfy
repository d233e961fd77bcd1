/**
 * Money amounts as decimal strings (packages/trust/src/financial-caveats.ts:63-88, 162-189): compared
 * as scaled integers, and never rounded.
 */
module DecimalAmounts {
  import opened Common

  const DOT: CodeUnit := 0x2E
  const MAX_AMOUNT_LENGTH: nat := 82
  const MAX_FRACTION_DIGITS: nat := 18

  /** `indexOf(".")`; the length where there is none. */
  function DotAt(t: Text): (i: nat)
    ensures i <= |t| && (i < |t| ==> t[i] == DOT) && forall j :: 0 <= j < i ==> t[j] != DOT
  {
    if t == [] || t[0] == DOT then 0 else 1 + DotAt(t[1..])
  }

  function Whole(t: Text): Text {
    t[..DotAt(t)]
  }

  function Fraction(t: Text): Text {
    if DotAt(t) == |t| then [] else t[DotAt(t) + 1..]
  }

  /** `amountSchema`: no sign, no exponent, no leading zero, at most eighteen digits after the point. */
  predicate IsAmount(t: Text) {
    && |t| <= MAX_AMOUNT_LENGTH
    && AllDigits(Whole(t)) && Whole(t) != [] && (Whole(t)[0] == ZERO ==> |Whole(t)| == 1)
    && (DotAt(t) < |t| ==> AllDigits(Fraction(t)) && 1 <= |Fraction(t)| <= MAX_FRACTION_DIGITS)
  }

  function FractionDigitsOf(t: Text): nat {
    |Fraction(t)|
  }

  function Zeros(n: nat): (t: Text)
    ensures |t| == n && AllDigits(t)
  {
    seq(n, i => ZERO)
  }

  /** `fraction.padEnd(digits, "0")`. */
  function PadEnd(t: Text, digits: nat): Text {
    if |t| >= digits then t else t + Zeros(digits - |t|)
  }

  lemma {:induction false} DigitsConcat(a: Text, b: Text)
    requires AllDigits(a) && AllDigits(b)
    ensures AllDigits(a + b)
  {}

  /** `scaled`: the amount in units of ten to the minus `digits`. */
  function Scaled(t: Text, digits: nat): nat
    requires IsAmount(t)
  {
    assert AllDigits(Fraction(t));
    DigitsConcat(Whole(t), PadEnd(Fraction(t), digits));
    DigitsValue(Whole(t) + PadEnd(Fraction(t), digits))
  }

  function Max(a: nat, b: nat): nat {
    if a < b then b else a
  }

  /** `amountAtMost`: both sides scaled to the longer fraction. */
  predicate AmountAtMost(a: Text, b: Text)
    requires IsAmount(a) && IsAmount(b)
  {
    var digits := Max(FractionDigitsOf(a), FractionDigitsOf(b));
    Scaled(a, digits) <= Scaled(b, digits)
  }

  /** The fraction the digits after a decimal point denote. */
  ghost function FractionValue(t: Text): real
    requires AllDigits(t)
  {
    if t == [] then 0.0 else
      assert IsDigit(t[0]) && AllDigits(t[1..]);
      ((t[0] - ZERO) as real + FractionValue(t[1..])) / 10.0
  }

  /** The number an amount denotes. */
  ghost function AmountValue(t: Text): real
    requires IsAmount(t)
  {
    DigitsValue(Whole(t)) as real + FractionValue(Fraction(t))
  }

  /** The point moved `n` places to the right. */
  ghost function Shift(v: real, n: nat): real
    decreases n
  {
    if n == 0 then v else Shift(v * 10.0, n - 1)
  }

  lemma {:induction false} ShiftKeepsOrder(a: real, b: real, n: nat)
    ensures Shift(a, n) <= Shift(b, n) <==> a <= b
    decreases n
  {
    if n > 0 {
      ShiftKeepsOrder(a * 10.0, b * 10.0, n - 1);
    }
  }

  lemma {:induction false} PaddingKeepsFraction(t: Text, n: nat)
    requires AllDigits(t)
    ensures AllDigits(t + Zeros(n)) && FractionValue(t + Zeros(n)) == FractionValue(t)
    decreases |t|, n
  {
    DigitsConcat(t, Zeros(n));
    if t != [] {
      assert (t + Zeros(n))[1..] == t[1..] + Zeros(n);
      PaddingKeepsFraction(t[1..], n);
    } else if n > 0 {
      assert ([] + Zeros(n))[1..] == [] + Zeros(n - 1);
      PaddingKeepsFraction([], n - 1);
    } else {
      assert [] + Zeros(0) == [];
    }
  }

  lemma {:induction false} DigitsSnoc(w: Text, d: CodeUnit)
    requires AllDigits(w) && IsDigit(d)
    ensures AllDigits(w + [d]) && DigitsValue(w + [d]) == DigitsValue(w) * 10 + (d - ZERO)
  {
    assert (w + [d])[..|w|] == w;
  }

  /** Reading through the point moves it past every digit read. */
  lemma {:induction false} DigitsThroughPoint(w: Text, f: Text)
    requires AllDigits(w) && AllDigits(f)
    ensures AllDigits(w + f) && DigitsValue(w + f) as real == Shift(DigitsValue(w) as real + FractionValue(f), |f|)
    decreases |f|
  {
    DigitsConcat(w, f);
    if f == [] {
      assert w + f == w;
    } else {
      DigitsSnoc(w, f[0]);
      DigitsThroughPoint(w + [f[0]], f[1..]);
      assert w + f == w + [f[0]] + f[1..];
      assert (DigitsValue(w) as real + FractionValue(f)) * 10.0 ==
        DigitsValue(w + [f[0]]) as real + FractionValue(f[1..]);
    }
  }

  lemma {:induction false} ScaledIsExact(t: Text, digits: nat)
    requires IsAmount(t) && FractionDigitsOf(t) <= digits
    ensures Scaled(t, digits) as real == Shift(AmountValue(t), digits)
  {
    var padding := Zeros(digits - |Fraction(t)|);
    PaddingKeepsFraction(Fraction(t), digits - |Fraction(t)|);
    assert PadEnd(Fraction(t), digits) == Fraction(t) + padding;
    DigitsThroughPoint(Whole(t), Fraction(t) + padding);
  }

  /** The comparison of scaled integers is the comparison of the decimals, with no rounding either way. */
  lemma {:induction false} AmountAtMostIsExact(a: Text, b: Text)
    requires IsAmount(a) && IsAmount(b)
    ensures AmountAtMost(a, b) <==> AmountValue(a) <= AmountValue(b)
  {
    var digits := Max(FractionDigitsOf(a), FractionDigitsOf(b));
    ScaledIsExact(a, digits);
    ScaledIsExact(b, digits);
    ShiftKeepsOrder(AmountValue(a), AmountValue(b), digits);
  }

  // -------- Amounts as they are written --------

  /** Digits without a leading zero, and after a point one to eighteen more, if any. */
  ghost predicate Written(t: Text, whole: Text, fraction: Text) {
    && |t| <= 82 && t == whole + (if fraction == [] then [] else [DOT] + fraction)
    && AllDigits(whole) && whole != [] && (whole[0] == ZERO ==> |whole| == 1)
    && AllDigits(fraction) && |fraction| <= 18
  }

  /** The text is an amount, and this is it. */
  ghost predicate Worth(t: Text, v: real) {
    exists whole, fraction :: Written(t, whole, fraction) && v == DigitsValue(whole) as real + FractionValue(fraction)
  }

  /** Both are amounts, and the first is no larger. */
  ghost predicate AtMost(a: Text, b: Text) {
    exists u, v :: Worth(a, u) && Worth(b, v) && u <= v
  }

  lemma {:induction false} DotAfterDigits(t: Text, whole: Text, fraction: Text)
    requires Written(t, whole, fraction)
    ensures DotAt(t) == |whole|
  {
    assert forall i :: 0 <= i < |whole| ==> t[i] == whole[i];
    assert forall i :: 0 <= i < |whole| ==> IsDigit(t[i]);
    if fraction != [] { assert t[|whole|] == DOT; }
  }

  lemma {:induction false} AmountIsWritten(t: Text)
    requires IsAmount(t)
    ensures Written(t, Whole(t), Fraction(t)) && Worth(t, AmountValue(t))
  {
    SplitAtPoint(t);
    assert Written(t, Whole(t), Fraction(t));
  }

  lemma {:induction false} SplitAtPoint(t: Text)
    ensures t == Whole(t) + if DotAt(t) == |t| then [] else [DOT] + Fraction(t)
  {
    assert t == t[..DotAt(t)] + t[DotAt(t)..];
    if DotAt(t) < |t| {
      assert t[DotAt(t)..] == [DOT] + Fraction(t);
    }
  }

  lemma {:induction false} WorthIsValue(t: Text, v: real)
    requires Worth(t, v)
    ensures IsAmount(t) && v == AmountValue(t)
  {
    var whole, fraction :| Written(t, whole, fraction)
      && v == DigitsValue(whole) as real + FractionValue(fraction);
    DotAfterDigits(t, whole, fraction);
    assert Whole(t) == whole && Fraction(t) == fraction;
  }

  /** Amounts are compared as what they are worth. */
  lemma {:induction false} AtMostIff(a: Text, b: Text)
    ensures AtMost(a, b) <==> IsAmount(a) && IsAmount(b) && AmountAtMost(a, b)
  {
    if u, v :| Worth(a, u) && Worth(b, v) && u <= v {
      WorthIsValue(a, u);
      WorthIsValue(b, v);
      AmountAtMostIsExact(a, b);
    }
    if IsAmount(a) && IsAmount(b) && AmountAtMost(a, b) {
      AmountIsWritten(a);
      AmountIsWritten(b);
      AmountAtMostIsExact(a, b);
    }
  }
}
