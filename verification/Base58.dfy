/** Base58 over byte strings (packages/protocol/src/encoding.ts:40-109). */
module Base58 {
  import opened Common
  import opened Positional

  type Byte = b: int | 0 <= b < 256

  /** The alphabet by its runs, 1-9 A-H J-N P-Z a-k m-z: no zero, no capital I or O, no small l. */
  function Symbol(d: int): CodeUnit
    requires 0 <= d < 58
  {
    if d < 9 then 0x31 + d
    else if d < 17 then 0x41 + (d - 9)
    else if d < 22 then 0x4A + (d - 17)
    else if d < 33 then 0x50 + (d - 22)
    else if d < 44 then 0x61 + (d - 33)
    else 0x6D + (d - 44)
  }

  /** The reverse table; None where it holds -1 or the character lies outside it. */
  function DigitOf(c: CodeUnit): (d: Option<int>)
    ensures d.Some? ==> 0 <= d.value < 58 && Symbol(d.value) == c
  {
    if 0x31 <= c <= 0x39 then Some(c - 0x31)
    else if 0x41 <= c <= 0x48 then Some(c - 0x41 + 9)
    else if 0x4A <= c <= 0x4E then Some(c - 0x4A + 17)
    else if 0x50 <= c <= 0x5A then Some(c - 0x50 + 22)
    else if 0x61 <= c <= 0x6B then Some(c - 0x61 + 33)
    else if 0x6D <= c <= 0x7A then Some(c - 0x6D + 44)
    else None
  }

  lemma {:induction false} DigitOfSymbol(d: int)
    requires 0 <= d < 58
    ensures DigitOf(Symbol(d)) == Some(d)
  {}

  // -------- Changing base --------

  /** The number a big-endian digit string denotes. */
  function Number(base: nat, ds: seq<int>): nat
    requires DigitsIn(ds, base)
  {
    if ds == [] then 0 else
      assert 0 <= ds[|ds| - 1] < base;
      Number(base, ds[..|ds| - 1]) * base + ds[|ds| - 1]
  }

  function LeadingZeros(ds: seq<int>): (n: nat)
    ensures n <= |ds| && (forall i :: 0 <= i < n ==> ds[i] == 0) && (n < |ds| ==> ds[n] != 0)
  {
    if ds == [] || ds[0] != 0 then 0 else 1 + LeadingZeros(ds[1..])
  }

  function Zeros(n: nat): (ds: seq<int>)
    ensures |ds| == n && forall i :: 0 <= i < n ==> ds[i] == 0
  {
    seq(n, i => 0)
  }

  function Reversed(ds: seq<int>): (r: seq<int>)
    ensures |r| == |ds| && forall i :: 0 <= i < |ds| ==> r[i] == ds[|ds| - 1 - i]
  {
    if ds == [] then [] else Reversed(ds[1..]) + [ds[0]]
  }

  /** Digits in one base to digits in another, a leading zero for each leading zero. */
  function Convert(from: nat, to: nat, ds: seq<int>): (r: seq<int>)
    requires from > 1 && to > 1 && DigitsIn(ds, from)
    ensures DigitsIn(r, to)
  {
    Zeros(LeadingZeros(ds)) + Reversed(Numeral(to, Number(from, ds)))
  }

  lemma {:induction false} NumberIsValue(base: nat, ds: seq<int>)
    requires DigitsIn(ds, base)
    ensures Number(base, ds) == Value(base, Reversed(ds))
  {
    if ds != [] {
      var front, last := ds[..|ds| - 1], ds[|ds| - 1];
      NumberIsValue(base, front);
      assert Reversed(ds) == [last] + Reversed(front);
      assert Reversed(ds)[1..] == Reversed(front);
    }
  }

  lemma {:induction false} ZerosAddNothing(base: nat, n: nat, ds: seq<int>)
    requires base > 0 && DigitsIn(ds, base)
    ensures DigitsIn(Zeros(n) + ds, base) && Number(base, Zeros(n) + ds) == Number(base, ds)
    decreases |ds|, n
  {
    var all := Zeros(n) + ds;
    if ds != [] {
      assert all[..|all| - 1] == Zeros(n) + ds[..|ds| - 1];
      ZerosAddNothing(base, n, ds[..|ds| - 1]);
    } else if n > 0 {
      assert all[..n - 1] == Zeros(n - 1) + [];
      ZerosAddNothing(base, n - 1, []);
    } else {
      assert all == ds;
    }
  }

  lemma {:induction false} LeadingZerosUnique(ds: seq<int>, n: nat)
    requires n <= |ds| && (forall i :: 0 <= i < n ==> ds[i] == 0) && (n < |ds| ==> ds[n] != 0)
    ensures LeadingZeros(ds) == n
  {
    if n > 0 {
      LeadingZerosUnique(ds[1..], n - 1);
    }
  }

  lemma {:induction false} ReversedTwice(ds: seq<int>)
    ensures Reversed(Reversed(ds)) == ds
  {}

  /** Without a leading zero, a digit string is the reversed numeral of its number. */
  lemma {:induction false} BodyIsNumeral(base: nat, body: seq<int>)
    requires base > 1 && DigitsIn(body, base) && (body != [] ==> body[0] != 0)
    ensures Reversed(Numeral(base, Number(base, body))) == body
  {
    var numeral := Reversed(body);
    NumberIsValue(base, body);
    assert DigitsIn(numeral, base) && Minimal(numeral);
    NumeralOfValue(base, numeral);
    ReversedTwice(body);
  }

  /** A digit string is its leading zeros and the reversed numeral of its number. */
  lemma {:induction false} DigitStringForm(base: nat, ds: seq<int>)
    requires base > 1 && DigitsIn(ds, base)
    ensures ds == Zeros(LeadingZeros(ds)) + Reversed(Numeral(base, Number(base, ds)))
  {
    var z := LeadingZeros(ds);
    assert ds == Zeros(z) + ds[z..];
    ZerosAddNothing(base, z, ds[z..]);
    BodyIsNumeral(base, ds[z..]);
  }

  lemma {:induction false} ConvertKeepsNumber(from: nat, to: nat, ds: seq<int>)
    requires from > 1 && to > 1 && DigitsIn(ds, from)
    ensures Number(to, Convert(from, to, ds)) == Number(from, ds)
    ensures LeadingZeros(Convert(from, to, ds)) == LeadingZeros(ds)
  {
    var z, numeral := LeadingZeros(ds), Numeral(to, Number(from, ds));
    ZerosAddNothing(to, z, Reversed(numeral));
    NumberIsValue(to, Reversed(numeral));
    ReversedTwice(numeral);
    ValueOfNumeral(to, Number(from, ds));
    LeadingZerosUnique(Convert(from, to, ds), z);
  }

  /** Changing base and back loses nothing, leading zeros included. */
  lemma {:induction false} ConvertRoundTrip(from: nat, to: nat, ds: seq<int>)
    requires from > 1 && to > 1 && DigitsIn(ds, from)
    ensures Convert(to, from, Convert(from, to, ds)) == ds
  {
    ConvertKeepsNumber(from, to, ds);
    DigitStringForm(from, ds);
  }

  // -------- The codec's specification --------

  predicate Spelled(text: Text) {
    forall i :: 0 <= i < |text| ==> DigitOf(text[i]).Some?
  }

  function Digits(text: Text): (ds: seq<int>)
    requires Spelled(text)
    ensures |ds| == |text| && DigitsIn(ds, 58)
  {
    seq(|text|, i requires 0 <= i < |text| => DigitOf(text[i]).value)
  }

  function Symbols(ds: seq<int>): (text: Text)
    requires DigitsIn(ds, 58)
    ensures |text| == |ds| && Spelled(text)
  {
    assert forall i :: 0 <= i < |ds| ==> DigitOf(Symbol(ds[i])) == Some(ds[i]) by {
      forall i | 0 <= i < |ds| ensures DigitOf(Symbol(ds[i])) == Some(ds[i]) { DigitOfSymbol(ds[i]); }
    }
    seq(|ds|, i requires 0 <= i < |ds| => Symbol(ds[i]))
  }

  function Encode(bytes: seq<Byte>): Text {
    Symbols(Convert(256, 58, bytes))
  }

  function Bytes(ds: seq<int>): seq<Byte>
    requires DigitsIn(ds, 256)
  {
    seq(|ds|, i requires 0 <= i < |ds| => ds[i])
  }

  function Decode(text: Text): Option<seq<Byte>> {
    if Spelled(text) then Some(Bytes(Convert(58, 256, Digits(text)))) else None
  }

  lemma {:induction false} SymbolsRoundTrip(ds: seq<int>)
    requires DigitsIn(ds, 58)
    ensures Digits(Symbols(ds)) == ds
  {
    forall i | 0 <= i < |ds| ensures Digits(Symbols(ds))[i] == ds[i] {
      DigitOfSymbol(ds[i]);
    }
  }

  lemma {:induction false} DigitsRoundTrip(text: Text)
    requires Spelled(text)
    ensures Symbols(Digits(text)) == text
  {}

  /** Every byte string has a text that decodes to it. */
  lemma {:induction false} DecodeEncode(bytes: seq<Byte>)
    ensures Decode(Encode(bytes)) == Some(bytes)
  {
    var ds := Convert(256, 58, bytes);
    SymbolsRoundTrip(ds);
    ConvertRoundTrip(256, 58, bytes);
    assert Bytes(bytes) == bytes;
  }

  /** And every text over the alphabet is the encoding of what it decodes to. */
  lemma {:induction false} EncodeDecode(text: Text)
    requires Spelled(text)
    ensures Decode(text).Some? && Encode(Decode(text).value) == text
  {
    var ds := Digits(text);
    var bytes := Convert(58, 256, ds);
    assert Bytes(bytes) == bytes;
    ConvertRoundTrip(58, 256, ds);
    DigitsRoundTrip(text);
  }

  // -------- The loops --------


  /** `decodeBase58`. */
  method DecodeBase58(text: Text) returns (r: Option<seq<Byte>>)
    ensures r == Decode(text)
  {
    var numeral := DecodeDigits(text);
    if numeral.None? {
      return None;
    }
    var leadingZeros := 0;
    while leadingZeros < |text| && text[leadingZeros] == Symbol(0)
      invariant leadingZeros <= |text| && forall i :: 0 <= i < leadingZeros ==> Digits(text)[i] == 0
    {
      leadingZeros := leadingZeros + 1;
    }
    assert leadingZeros < |text| ==> Digits(text)[leadingZeros] != 0;
    LeadingZerosUnique(Digits(text), leadingZeros);
    var out := Assemble(leadingZeros, numeral.value);
    assert out == Bytes(Convert(58, 256, Digits(text)));
    return Some(out);
  }

  /** The digit loop: one symbol at a time, None at the first outside the alphabet. */
  method DecodeDigits(text: Text) returns (numeral: Option<seq<int>>)
    ensures numeral == if Spelled(text) then Some(Numeral(256, Number(58, Digits(text)))) else None
  {
    var bytes: seq<int> := [];
    for index := 0 to |text|
      invariant Spelled(text[..index]) && bytes == Numeral(256, Number(58, Digits(text[..index])))
    {
      var digit := DigitOf(text[index]);
      if digit.None? {
        return None;
      }
      OneMoreDigit(text, index);
      MulAddIsNumeral(256, Number(58, Digits(text[..index])), 58, digit.value);
      bytes := PushSymbol(bytes, digit.value);
    }
    assert text[..|text|] == text;
    return Some(bytes);
  }

  lemma {:induction false} OneMoreDigit(text: Text, index: nat)
    requires index < |text| && Spelled(text[..index]) && DigitOf(text[index]).Some?
    ensures Spelled(text[..index + 1])
    ensures Number(58, Digits(text[..index + 1])) == Number(58, Digits(text[..index])) * 58 + DigitOf(text[index]).value
  {
    var now := text[..index + 1];
    assert now[..index] == text[..index];
    assert Digits(now)[..index] == Digits(text[..index]);
  }

  /** The output array: zeros in front, then the bytes most significant first. */
  method Assemble(leadingZeros: nat, bytes: seq<int>) returns (r: seq<Byte>)
    requires DigitsIn(bytes, 256)
    ensures r == Zeros(leadingZeros) + Reversed(bytes)
  {
    var out := new Byte[leadingZeros + |bytes|](_ => 0);
    for index := 0 to |bytes|
      invariant forall i :: 0 <= i < leadingZeros ==> out[i] == 0
      invariant forall i :: leadingZeros <= i < leadingZeros + index ==> out[i] == Reversed(bytes)[i - leadingZeros]
    {
      out[leadingZeros + index] := bytes[|bytes| - 1 - index];
    }
    r := out[..];
  }

  /** The two inner loops of `decodeBase58`, on 32-bit operators. */
  method PushSymbol(start: seq<int>, value: int) returns (bytes: seq<int>)
    requires DigitsIn(start, 256) && 0 <= value < 58
    ensures bytes == MulAdd(256, start, 58, value)
  {
    bytes := start;
    var carry := value;
    ghost var whole := MulAdd(256, start, 58, value);
    assert start[0..] == start;
    for position := 0 to |start|
      invariant |bytes| == |start| && 0 <= carry < 58 && bytes[position..] == start[position..]
      invariant bytes[..position] + MulAdd(256, start[position..], 58, carry) == whole
    {
      CarryStep(256, start, bytes[..position], 58, carry, whole);
      carry := carry + bytes[position] * 58;
      SmallIsItself(carry);
      ghost var done := bytes[..position];
      bytes := bytes[position := LowByte(carry)];
      assert bytes[..position + 1] == done + [carry % 256];
      carry := ShiftRight8(carry);
    }
    assert bytes[..|start|] == bytes;
    while carry > 0
      invariant 0 <= carry < 58 && bytes + Numeral(256, carry) == whole
    {
      SmallIsItself(carry);
      bytes := bytes + [LowByte(carry)];
      carry := ShiftRight8(carry);
    }
  }

  /** `encodeBase58`. */
  method EncodeBase58(bytes: seq<Byte>) returns (text: Text)
    ensures text == Encode(bytes)
  {
    var digits := EncodeBytes(bytes);
    var zeros := 0;
    text := [];
    while zeros < |bytes| && bytes[zeros] == 0
      invariant zeros <= |bytes| && text == Symbols(Zeros(zeros)) && forall i :: 0 <= i < zeros ==> bytes[i] == 0
    {
      text := text + [Symbol(0)];
      zeros := zeros + 1;
    }
    LeadingZerosUnique(bytes, zeros);
    var body := Spell(digits);
    text := text + body;
    assert text == Symbols(Zeros(zeros) + Reversed(digits));
  }

  /** The byte loop. */
  method EncodeBytes(bytes: seq<Byte>) returns (digits: seq<int>)
    ensures digits == Numeral(58, Number(256, bytes))
  {
    digits := [];
    for index := 0 to |bytes|
      invariant digits == Numeral(58, Number(256, bytes[..index]))
    {
      assert bytes[..index + 1][..index] == bytes[..index];
      MulAddIsNumeral(58, Number(256, bytes[..index]), 256, bytes[index]);
      digits := PushByte(digits, bytes[index]);
    }
    assert bytes[..|bytes|] == bytes;
  }

  /** The digits most significant first, as symbols. */
  method Spell(digits: seq<int>) returns (text: Text)
    requires DigitsIn(digits, 58)
    ensures DigitsIn(Reversed(digits), 58) && text == Symbols(Reversed(digits))
  {
    text := [];
    for index := 0 to |digits|
      invariant |text| == index && forall i :: 0 <= i < index ==> text[i] == Symbol(Reversed(digits)[i])
    {
      text := text + [Symbol(digits[|digits| - 1 - index])];
    }
  }

  lemma {:induction false} ByteStepFits(digit: int, carry: int)
    requires 0 <= digit < 58 && 0 <= carry < 256
    ensures ToInt32(digit * 256) == digit * 256
    ensures var total := carry + digit * 256; 0 <= total / 58 < 256 && ToInt32(total / 58) == total / 58
  {}

  lemma {:induction false} ByteTurn(start: seq<int>, digits: seq<int>, position: nat, carry: int, whole: seq<int>)
    requires DigitsIn(start, 58) && position < |start| == |digits| && 0 <= carry < 256
    requires digits[position..] == start[position..]
    requires digits[..position] + MulAdd(58, start[position..], 256, carry) == whole
    ensures var total := carry + ToInt32(digits[position] * 256);
      && 0 <= total / 58 < 256 && ToInt32(total / 58) == total / 58
      && var after := digits[position := total % 58];
        after[position + 1..] == start[position + 1..]
        && after[..position + 1] + MulAdd(58, start[position + 1..], 256, total / 58) == whole
  {
    assert digits[position] == start[position];
    CarryStep(58, start, digits[..position], 256, carry, whole);
    ByteStepFits(digits[position], carry);
    var total := carry + digits[position] * 256;
    assert digits[position := total % 58][..position + 1] == digits[..position] + [total % 58];
  }

  /** The two inner loops of `encodeBase58`, on 32-bit operators. */
  method PushByte(start: seq<int>, value: int) returns (digits: seq<int>)
    requires DigitsIn(start, 58) && 0 <= value < 256
    ensures digits == MulAdd(58, start, 256, value)
  {
    digits := start;
    var carry := value;
    ghost var whole := MulAdd(58, start, 256, value);
    assert start[0..] == start;
    for position := 0 to |start|
      invariant |digits| == |start| && 0 <= carry < 256 && digits[position..] == start[position..]
      invariant digits[..position] + MulAdd(58, start[position..], 256, carry) == whole
    {
      ByteTurn(start, digits, position, carry, whole);
      carry := carry + ToInt32(digits[position] * 256);
      digits := digits[position := carry % 58];
      carry := ToInt32(carry / 58);
    }
    assert digits[..|start|] == digits;
    while carry > 0
      invariant 0 <= carry < 256 && digits + Numeral(58, carry) == whole
    {
      digits := digits + [carry % 58];
      SmallIsItself(carry / 58);
      carry := ToInt32(carry / 58);
    }
  }
}
