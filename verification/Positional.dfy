/** Little-endian positional numerals, and the 32-bit integer operators the codecs compute with. */
module Positional {

  /** JavaScript's coercion to a signed 32-bit integer, which every bitwise operator applies first. */
  function ToInt32(n: int): int {
    var low := n % 0x1_0000_0000;
    if low < 0x8000_0000 then low else low - 0x1_0000_0000
  }

  /** The result is a signed 32-bit integer, and differs from the argument by whole turns. */
  lemma {:induction false} Int32InRange(n: int)
    ensures -0x8000_0000 <= ToInt32(n) < 0x8000_0000 && (n - ToInt32(n)) % 0x1_0000_0000 == 0
  {}

  /** `n & 0xff`. */
  function LowByte(n: int): int {
    ToInt32(n) % 256
  }

  /** `n >> 8`. */
  function ShiftRight8(n: int): int {
    ToInt32(n) / 256
  }

  lemma {:induction false} SmallIsItself(n: int)
    requires 0 <= n < 0x8000_0000
    ensures ToInt32(n) == n && LowByte(n) == n % 256 && ShiftRight8(n) == n / 256
  {}

  // -------- Division by steps --------

  lemma {:induction false} DivMod(n: int, d: nat)
    requires d > 0
    ensures n == d * (n / d) + n % d && 0 <= n % d < d
  {}

  lemma {:induction false} Scale(d: nat, a: int, b: int)
    ensures a <= b ==> d * a <= d * b
  {
    if a <= b {
      assert d * (b - a) >= 0;
    }
  }

  lemma {:induction false} QuotientBelow(n: int, d: nat, p: int)
    requires d > 0 && n < d * p
    ensures n / d < p
  {
    DivMod(n, d);
    Scale(d, p, n / d);
  }

  lemma {:induction false} QuotientAtLeast(n: int, d: nat, q: int)
    requires d > 0 && d * q <= n
    ensures q <= n / d
  {
    DivMod(n, d);
    Scale(d, n / d + 1, q);
    assert d * (n / d + 1) == d * (n / d) + d;
  }

  lemma {:induction false} EuclidUnique(n: int, d: nat, q: int, r: int)
    requires d > 0 && n == d * q + r && 0 <= r < d
    ensures n / d == q && n % d == r
  {
    QuotientAtLeast(n, d, q);
    assert d * (q + 1) == d * q + d;
    QuotientBelow(n, d, q + 1);
    DivMod(n, d);
  }

  lemma {:induction false} Shrinks(n: nat, base: nat)
    requires n > 0 && base > 1
    ensures 0 <= n / base < n
  {
    QuotientAtLeast(n, base, 0);
    assert base * n == n + (base - 1) * n && (base - 1) * n >= n by {
      MulAtLeast(base - 1, n);
    }
    QuotientBelow(n, base, n);
  }

  lemma {:induction false} MulAtLeast(a: nat, n: nat)
    requires a >= 1
    ensures a * n >= n
  {
    Scale(n, 1, a);
  }

  lemma {:induction false} QuotientMonotone(m: nat, n: nat, d: nat)
    requires d > 0 && m <= n
    ensures m / d <= n / d
  {
    DivMod(m, d);
    QuotientAtLeast(n, d, m / d);
  }

  // -------- Numerals --------

  predicate DigitsIn(ds: seq<int>, base: nat) {
    forall i :: 0 <= i < |ds| ==> 0 <= ds[i] < base
  }

  /** No leading zero: the last, most significant digit is not zero. */
  predicate Minimal(ds: seq<int>) {
    ds == [] || ds[|ds| - 1] != 0
  }

  /** The number a little-endian numeral denotes. */
  function Value(base: nat, ds: seq<int>): int {
    if ds == [] then 0 else ds[0] + base * Value(base, ds[1..])
  }

  /** The minimal numeral of a number. */
  function Numeral(base: nat, n: nat): (ds: seq<int>)
    requires base > 1
    ensures DigitsIn(ds, base) && Minimal(ds)
    ensures n > 0 ==> ds != []
    decreases n
  {
    if n == 0 then []
    else
      Shrinks(n, base);
      assert n / base == 0 ==> n % base == n;
      [n % base] + Numeral(base, n / base)
  }

  lemma {:induction false} ValueNonNegative(base: nat, ds: seq<int>)
    requires DigitsIn(ds, base)
    ensures 0 <= Value(base, ds)
  {
    if ds != [] {
      ValueNonNegative(base, ds[1..]);
    }
  }

  /** A minimal numeral is the numeral of its value. */
  lemma {:induction false} NumeralOfValue(base: nat, ds: seq<int>)
    requires base > 1 && DigitsIn(ds, base) && Minimal(ds)
    ensures Value(base, ds) >= 0 && Numeral(base, Value(base, ds)) == ds
    ensures ds != [] ==> Value(base, ds) > 0
  {
    if ds != [] {
      var tail := ds[1..];
      assert Minimal(tail);
      NumeralOfValue(base, tail);
      EuclidUnique(Value(base, ds), base, Value(base, tail), ds[0]);
      if tail != [] {
        MulAtLeast(base, Value(base, tail));
      }
      assert ds == [ds[0]] + tail;
    }
  }

  lemma {:induction false} ValueOfNumeral(base: nat, n: nat)
    requires base > 1
    ensures Value(base, Numeral(base, n)) == n
    decreases n
  {
    if n > 0 {
      Shrinks(n, base);
      ValueOfNumeral(base, n / base);
      DivMod(n, base);
      assert Numeral(base, n)[1..] == Numeral(base, n / base);
    }
  }

  /** One pass of the conversion loop: multiply a numeral and add, carrying, digit by digit. */
  function MulAdd(base: nat, ds: seq<int>, m: nat, carry: nat): (r: seq<int>)
    requires base > 1 && DigitsIn(ds, base)
    ensures DigitsIn(r, base)
    decreases |ds|
  {
    if ds == [] then Numeral(base, carry)
    else
      var total := carry + ds[0] * m;
      assert total >= 0 by { assert ds[0] * m >= 0; }
      assert DigitsIn(ds[1..], base);
      [total % base] + MulAdd(base, ds[1..], m, total / base)
  }

  /** One turn of the carry loop. */
  lemma {:induction false} CarryStep(base: nat, start: seq<int>, done: seq<int>, m: nat, carry: nat, whole: seq<int>)
    requires base > 1 && DigitsIn(start, base) && |done| < |start|
    requires done + MulAdd(base, start[|done|..], m, carry) == whole
    ensures var total := carry + start[|done|] * m;
      && total >= 0
      && done + [total % base] + MulAdd(base, start[|done| + 1..], m, total / base) == whole
  {
    Scale(m, 0, start[|done|]);
    assert start[|done|..][0] == start[|done|] && start[|done|..][1..] == start[|done| + 1..];
  }

  lemma {:induction false} MulAddValue(base: nat, ds: seq<int>, m: nat, carry: nat)
    requires base > 1 && DigitsIn(ds, base)
    ensures Value(base, MulAdd(base, ds, m, carry)) == Value(base, ds) * m + carry
    decreases |ds|
  {
    if ds == [] {
      ValueOfNumeral(base, carry);
    } else {
      var total := carry + ds[0] * m;
      assert total >= 0 by { assert ds[0] * m >= 0; }
      var tail := ds[1..];
      assert DigitsIn(tail, base);
      MulAddValue(base, tail, m, total / base);
      var r := MulAdd(base, ds, m, carry);
      assert r[1..] == MulAdd(base, tail, m, total / base);
      CarryOut(base, ds[0], Value(base, tail), m, carry, total);
    }
  }

  lemma {:induction false} CarryOut(base: nat, d: int, v: int, m: nat, carry: nat, total: int)
    requires base > 1 && total == carry + d * m
    ensures total % base + base * (v * m + total / base) == (d + base * v) * m + carry
  {
    DivMod(total, base);
    assert base * (v * m + total / base) == base * (v * m) + base * (total / base);
    assert (d + base * v) * m == d * m + base * (v * m) by {
      assert (d + base * v) * m == d * m + (base * v) * m;
      assert (base * v) * m == base * (v * m);
    }
  }

  lemma {:induction false} MinimalCons(d: int, rest: seq<int>)
    requires Minimal(rest) && (rest == [] ==> d != 0)
    ensures Minimal([d] + rest)
  {}

  lemma {:induction false} MulAddMinimal(base: nat, ds: seq<int>, m: nat, carry: nat)
    requires base > 1 && m > 0 && DigitsIn(ds, base) && Minimal(ds)
    ensures Minimal(MulAdd(base, ds, m, carry))
    ensures ds != [] || carry > 0 ==> MulAdd(base, ds, m, carry) != []
    decreases |ds|
  {
    if ds != [] {
      Scale(m, 0, ds[0]);
      var total := carry + ds[0] * m;
      var tail := ds[1..];
      assert DigitsIn(tail, base) && Minimal(tail);
      DivMod(total, base);
      MulAddMinimal(base, tail, m, total / base);
      TopDigitStays(base, ds[0], m, carry);
      MinimalCons(total % base, MulAdd(base, tail, m, total / base));
    }
  }

  /** A nonzero top digit either stays nonzero or carries. */
  lemma {:induction false} TopDigitStays(base: nat, d: int, m: nat, carry: nat)
    requires base > 1 && m > 0
    ensures d >= 1 ==> (carry + d * m) / base > 0 || (carry + d * m) % base != 0
  {
    Scale(m, 1, d);
    DivMod(carry + d * m, base);
  }

  /** So the pass is exact: it takes the numeral of `n` to the numeral of `n * m + carry`. */
  lemma {:induction false} MulAddIsNumeral(base: nat, n: nat, m: nat, carry: nat)
    requires base > 1 && m > 0
    ensures n * m + carry >= 0 && MulAdd(base, Numeral(base, n), m, carry) == Numeral(base, n * m + carry)
  {
    var ds := Numeral(base, n);
    MulAddMinimal(base, ds, m, carry);
    MulAddValue(base, ds, m, carry);
    ValueOfNumeral(base, n);
    NumeralOfValue(base, MulAdd(base, ds, m, carry));
  }

  // -------- Lengths --------

  function Pow(base: nat, e: nat): nat {
    if e == 0 then 1 else base * Pow(base, e - 1)
  }

  lemma {:induction false} BoundedHasFewDigits(base: nat, n: nat, e: nat)
    requires base > 1 && n < Pow(base, e)
    ensures |Numeral(base, n)| <= e
    decreases n
  {
    if n > 0 {
      Shrinks(n, base);
      QuotientBelow(n, base, Pow(base, e - 1));
      BoundedHasFewDigits(base, n / base, e - 1);
    }
  }

  lemma {:induction false} Distribute(a: int, p: int)
    ensures a * (p - 1) == a * p - a
  {}

  lemma {:induction false} NumeralBelowPow(base: nat, ds: seq<int>)
    requires base > 1 && DigitsIn(ds, base)
    ensures 0 <= Value(base, ds) < Pow(base, |ds|)
  {
    if ds != [] {
      NumeralBelowPow(base, ds[1..]);
      var v, p := Value(base, ds[1..]), Pow(base, |ds| - 1);
      Scale(base, 0, v);
      Scale(base, v, p - 1);
      Distribute(base, p);
    }
  }

  /** A larger base never needs more digits. */
  lemma {:induction false} LargerBaseFewerDigits(small: nat, large: nat, n: nat)
    requires 1 < small <= large
    ensures |Numeral(large, n)| <= |Numeral(small, n)|
    decreases n
  {
    if n > 0 {
      NumeralLength(large, n);
      NumeralLength(small, n);
      LargerBaseFewerDigits(small, large, n / large);
      SmallerDivisor(n, small, large);
      MoreDigits(small, n / large, n / small);
    }
  }

  lemma {:induction false} SmallerDivisor(n: nat, small: nat, large: nat)
    requires 1 < small <= large
    ensures n / large <= n / small
  {
    DivMod(n, large);
    Scale(n / large, small, large);
    QuotientAtLeast(n, small, n / large);
  }

  lemma {:induction false} NumeralLength(base: nat, n: nat)
    requires base > 1 && n > 0
    ensures 0 <= n / base < n && |Numeral(base, n)| == 1 + |Numeral(base, n / base)|
  {
    Shrinks(n, base);
  }

  lemma {:induction false} MoreDigits(base: nat, m: nat, n: nat)
    requires base > 1 && m <= n
    ensures |Numeral(base, m)| <= |Numeral(base, n)|
    decreases n
  {
    if m > 0 {
      NumeralLength(base, m);
      NumeralLength(base, n);
      QuotientMonotone(m, n, base);
      MoreDigits(base, m / base, n / base);
    }
  }
}
