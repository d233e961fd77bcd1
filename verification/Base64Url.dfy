/** Unpadded base64url over byte strings (packages/protocol/src/encoding.ts:142-192). */
module Base64Url {
  import opened Common
  import opened Positional
  import opened Base58

  type Sextet = v: int | 0 <= v < 64

  /** The alphabet by its runs: A-Z a-z 0-9 - _. */
  function Symbol64(v: Sextet): CodeUnit {
    if v < 26 then 0x41 + v
    else if v < 52 then 0x61 + (v - 26)
    else if v < 62 then 0x30 + (v - 52)
    else if v == 62 then 0x2D
    else 0x5F
  }

  function SextetOf(c: CodeUnit): (v: Option<Sextet>)
    ensures v.Some? ==> Symbol64(v.value) == c
  {
    if 0x41 <= c <= 0x5A then Some(c - 0x41)
    else if 0x61 <= c <= 0x7A then Some(c - 0x61 + 26)
    else if 0x30 <= c <= 0x39 then Some(c - 0x30 + 52)
    else if c == 0x2D then Some(62)
    else if c == 0x5F then Some(63)
    else None
  }

  lemma {:induction false} SextetOfSymbol(v: Sextet)
    ensures SextetOf(Symbol64(v)) == Some(v)
  {}

  // -------- The specification --------

  /** Twenty-four bits are four sextets; a last byte or two leave the rest of their sextet zero. */
  function Sextets(bytes: seq<Byte>): seq<Sextet>
    decreases |bytes|
  {
    if bytes == [] then []
    else if |bytes| == 1 then [bytes[0] / 4, bytes[0] % 4 * 16]
    else if |bytes| == 2 then [bytes[0] / 4, bytes[0] % 4 * 16 + bytes[1] / 16, bytes[1] % 16 * 4]
    else
      [bytes[0] / 4, bytes[0] % 4 * 16 + bytes[1] / 16, bytes[1] % 16 * 4 + bytes[2] / 64, bytes[2] % 64]
      + Sextets(bytes[3..])
  }

  /** What the decoder has read: the bytes so far, and the bits left over for the next. */
  datatype Reader = Reader(out: seq<Byte>, bits: nat, pending: nat)

  predicate Reading(r: Reader) {
    r.bits in {0, 2, 4, 6} && r.pending < Span(r.bits)
  }

  function Span(bits: nat): nat {
    if bits == 0 then 1 else if bits == 2 then 4 else if bits == 4 then 16 else 64
  }

  function Feed(r: Reader, v: Sextet): (s: Reader)
    requires Reading(r)
    ensures Reading(s)
  {
    var total := r.pending * 64 + v;
    var bits := r.bits + 6;
    if bits < 8 then Reader(r.out, bits, total)
    else Reader(r.out + [total / Span(bits - 8)], bits - 8, total % Span(bits - 8))
  }

  function Read(r: Reader, vs: seq<Sextet>): (s: Reader)
    requires Reading(r)
    ensures Reading(s)
    decreases |vs|
  {
    if vs == [] then r else Read(Feed(r, vs[0]), vs[1..])
  }

  predicate Spelled64(text: Text) {
    forall i :: 0 <= i < |text| ==> SextetOf(text[i]).Some?
  }

  function Values(text: Text): (vs: seq<Sextet>)
    requires Spelled64(text)
    ensures |vs| == |text|
  {
    seq(|text|, i requires 0 <= i < |text| => SextetOf(text[i]).value)
  }

  function Symbols64(vs: seq<Sextet>): (text: Text)
    ensures |text| == |vs| && Spelled64(text) && Values(text) == vs
  {
    assert forall i :: 0 <= i < |vs| ==> SextetOf(Symbol64(vs[i])) == Some(vs[i]) by {
      forall i | 0 <= i < |vs| ensures SextetOf(Symbol64(vs[i])) == Some(vs[i]) { SextetOfSymbol(vs[i]); }
    }
    seq(|vs|, i requires 0 <= i < |vs| => Symbol64(vs[i]))
  }

  function Encode64(bytes: seq<Byte>): Text {
    Symbols64(Sextets(bytes))
  }

  const EMPTY: Reader := Reader([], 0, 0)

  function Decode64(text: Text): Option<seq<Byte>> {
    if |text| % 4 == 1 || !Spelled64(text) then None
    else
      var r := Read(EMPTY, Values(text));
      if r.pending == 0 then Some(r.out) else None
  }

  // -------- One text per byte string --------

  /** One sextet read into a reader, giving a byte `b` and leaving `q` over. */
  lemma {:induction false} Turn(out: seq<Byte>, bits: nat, p: nat, vs: seq<Sextet>, i: nat, b: Byte, q: nat)
    requires i < |vs| && bits in {2, 4, 6} && p < Span(bits)
    requires p * 64 + vs[i] == b * Span(bits - 2) + q && q < Span(bits - 2)
    ensures Read(Reader(out, bits, p), vs[i..]) == Read(Reader(out + [b], bits - 2, q), vs[i + 1..])
  {
    assert vs[i..][1..] == vs[i + 1..];
    EuclidUnique(p * 64 + vs[i], Span(bits - 2), b, q);
  }

  lemma {:induction false} FirstTurn(out: seq<Byte>, vs: seq<Sextet>)
    requires vs != []
    ensures Read(Reader(out, 0, 0), vs) == Read(Reader(out, 6, vs[0]), vs[1..])
  {}

  lemma {:induction false} ReadTwo(out: seq<Byte>, vs: seq<Sextet>, b0: Byte, q0: nat)
    requires |vs| >= 2 && (vs[0] as int) * 64 + vs[1] == b0 * 16 + q0 && q0 < 16
    ensures Read(Reader(out, 0, 0), vs) == Read(Reader(out + [b0], 4, q0), vs[2..])
  {
    FirstTurn(out, vs);
    Turn(out, 6, vs[0], vs, 1, b0, q0);
  }

  lemma {:induction false} ReadThree(out: seq<Byte>, vs: seq<Sextet>, b0: Byte, q0: nat, b1: Byte, q1: nat)
    requires |vs| >= 3 && (vs[0] as int) * 64 + vs[1] == b0 * 16 + q0 && q0 < 16
    requires q0 * 64 + vs[2] == b1 * 4 + q1 && q1 < 4
    ensures Read(Reader(out, 0, 0), vs) == Read(Reader(out + [b0, b1], 2, q1), vs[3..])
  {
    ReadTwo(out, vs, b0, q0);
    Turn(out + [b0], 4, q0, vs, 2, b1, q1);
    assert out + [b0] + [b1] == out + [b0, b1];
  }

  /** A whole quantum gives three bytes and leaves nothing over. */
  lemma {:induction false} ReadQuantum(out: seq<Byte>, vs: seq<Sextet>, b0: Byte, q0: nat, b1: Byte, q1: nat, b2: Byte)
    requires |vs| >= 4 && (vs[0] as int) * 64 + vs[1] == b0 * 16 + q0 && q0 < 16
    requires q0 * 64 + vs[2] == b1 * 4 + q1 && q1 < 4 && q1 * 64 + vs[3] == b2
    ensures Read(Reader(out, 0, 0), vs) == Read(Reader(out + [b0, b1, b2], 0, 0), vs[4..])
  {
    ReadThree(out, vs, b0, q0, b1, q1);
    Turn(out + [b0, b1], 2, q1, vs, 3, b2, 0);
    assert out + [b0, b1] + [b2] == out + [b0, b1, b2];
  }

  lemma {:induction false} QuantumOf(b0: Byte, b1: Byte, b2: Byte)
    ensures b0 / 4 * 64 + (b0 % 4 * 16 + b1 / 16) == b0 * 16 + b1 / 16 && b1 / 16 < 16
    ensures b1 / 16 * 64 + (b1 % 16 * 4 + b2 / 64) == b1 * 4 + b2 / 64 && b2 / 64 < 4
    ensures b2 / 64 * 64 + b2 % 64 == b2
  {}

  lemma {:induction false} SextetsUnfold(b0: Byte, b1: Byte, b2: Byte, rest: seq<Byte>)
    ensures Sextets([b0, b1, b2] + rest) ==
      [b0 / 4, b0 % 4 * 16 + b1 / 16, b1 % 16 * 4 + b2 / 64, b2 % 64] + Sextets(rest)
  {
    assert ([b0, b1, b2] + rest)[3..] == rest;
  }

  lemma {:induction false} ReadBytesOfQuantum(out: seq<Byte>, b0: Byte, b1: Byte, b2: Byte, rest: seq<Byte>)
    ensures Read(Reader(out, 0, 0), Sextets([b0, b1, b2] + rest)) ==
      Read(Reader(out + [b0, b1, b2], 0, 0), Sextets(rest))
  {
    var vs := Sextets([b0, b1, b2] + rest);
    SextetsUnfold(b0, b1, b2, rest);
    QuantumOf(b0, b1, b2);
    ReadQuantum(out, vs, b0, b1 / 16, b1, b2 / 64, b2);
    assert vs[4..] == Sextets(rest);
  }

  lemma {:induction false} ReadOneByte(out: seq<Byte>, b0: Byte)
    ensures Read(Reader(out, 0, 0), Sextets([b0])) == Reader(out + [b0], 4, 0)
  {
    var vs: seq<Sextet> := [b0 / 4, b0 % 4 * 16];
    ReadTwo(out, vs, b0, 0);
    assert vs[2..] == [];
  }

  lemma {:induction false} ReadTwoBytes(out: seq<Byte>, b0: Byte, b1: Byte)
    ensures Read(Reader(out, 0, 0), Sextets([b0, b1])) == Reader(out + [b0, b1], 2, 0)
  {
    var vs: seq<Sextet> := [b0 / 4, b0 % 4 * 16 + b1 / 16, b1 % 16 * 4];
    QuantumOf(b0, b1, 0);
    ReadThree(out, vs, b0, b1 / 16, b1, 0);
    assert vs[3..] == [];
  }

  /** Reading a byte string's sextets gives back its bytes and leaves only zero bits. */
  lemma {:induction false} ReadSextets(out: seq<Byte>, bytes: seq<Byte>)
    ensures var r := Read(Reader(out, 0, 0), Sextets(bytes)); r.out == out + bytes && r.pending == 0
    decreases |bytes|
  {
    if |bytes| == 1 {
      ReadOneByte(out, bytes[0]);
      assert bytes == [bytes[0]];
    } else if |bytes| == 2 {
      ReadTwoBytes(out, bytes[0], bytes[1]);
      assert bytes == [bytes[0], bytes[1]];
    } else if |bytes| >= 3 {
      var b0, b1, b2, rest := bytes[0], bytes[1], bytes[2], bytes[3..];
      ReadSextets(out + [b0, b1, b2], rest);
      ReadBytesOfQuantum(out, b0, b1, b2, rest);
      ConcatAssociative(out, [b0, b1, b2], rest);
      assert bytes == [b0, b1, b2] + rest;
    }
  }

  /** No text of the encoder ends in a quantum of one character. */
  lemma {:induction false} SextetsNeverEndInOne(bytes: seq<Byte>)
    ensures |Sextets(bytes)| % 4 != 1
    decreases |bytes|
  {
    if |bytes| >= 3 {
      SextetsNeverEndInOne(bytes[3..]);
    }
  }

  /** The bytes of a quantum of four sextets, and their sextets again. */
  lemma {:induction false} SextetsOfQuantum(v0: Sextet, v1: Sextet, v2: Sextet, v3: Sextet) returns (b0: Byte, q0: nat,
      b1: Byte, q1: nat, b2: Byte)
    ensures v0 * 64 + v1 == b0 * 16 + q0 && q0 < 16
    ensures q0 * 64 + v2 == b1 * 4 + q1 && q1 < 4 && q1 * 64 + v3 == b2
    ensures b0 / 4 == v0 && b0 % 4 * 16 + b1 / 16 == v1 && b1 % 16 * 4 + b2 / 64 == v2 && b2 % 64 == v3
    ensures v2 == 0 && q0 == 0 ==> b1 == 0
    ensures v3 == 0 && q1 == 0 ==> b2 == 0
  {
    b0, q0 := v0 * 4 + v1 / 16, v1 % 16;
    b1, q1 := q0 * 16 + v2 / 4, v2 % 4;
    b2 := q1 * 64 + v3;
  }

  /** And any sextets that leave only zero bits are the sextets of the bytes read. */
  lemma {:induction false} SextetsOfRead(out: seq<Byte>, vs: seq<Sextet>)
    requires |vs| % 4 != 1 && Read(Reader(out, 0, 0), vs).pending == 0
    ensures var r := Read(Reader(out, 0, 0), vs); out <= r.out && Sextets(r.out[|out|..]) == vs
    decreases |vs|
  {
    var r := Read(Reader(out, 0, 0), vs);
    if |vs| >= 4 {
      var b0, q0, b1, q1, b2 := SextetsOfQuantum(vs[0], vs[1], vs[2], vs[3]);
      ReadQuantum(out, vs, b0, q0, b1, q1, b2);
      SextetsOfRead(out + [b0, b1, b2], vs[4..]);
      var rest := r.out[|out| + 3..];
      assert r.out[|out|..] == [b0, b1, b2] + rest;
      SextetsUnfold(b0, b1, b2, rest);
      assert vs == [vs[0], vs[1], vs[2], vs[3]] + vs[4..];
    } else if |vs| == 3 {
      var b0, q0, b1, q1, b2 := SextetsOfQuantum(vs[0], vs[1], vs[2], 0);
      ReadThree(out, vs, b0, q0, b1, q1);
      assert vs[3..] == [] && r.out[|out|..] == [b0, b1];
    } else if |vs| == 2 {
      var b0, q0, b1, q1, b2 := SextetsOfQuantum(vs[0], vs[1], 0, 0);
      ReadTwo(out, vs, b0, q0);
      assert vs[2..] == [] && r.out[|out|..] == [b0];
    }
  }

  /** Every byte string has a text that decodes to it. */
  lemma {:induction false} DecodeEncode64(bytes: seq<Byte>)
    ensures Decode64(Encode64(bytes)) == Some(bytes)
  {
    ReadSextets([], bytes);
    SextetsNeverEndInOne(bytes);
    assert [] + bytes == bytes;
  }

  /** And a text that decodes is the encoding of what it decodes to: padding, stray bits and bad lengths are refused. */
  lemma {:induction false} EncodeDecode64(text: Text)
    requires Decode64(text).Some?
    ensures Encode64(Decode64(text).value) == text
  {
    SextetsOfRead([], Values(text));
    var bytes := Decode64(text).value;
    assert bytes[0..] == bytes && Values(Encode64(bytes)) == Values(text);
    forall i | 0 <= i < |text| ensures Encode64(bytes)[i] == text[i] {
      assert Values(Encode64(bytes))[i] == Values(text)[i];
    }
  }

  // -------- The loops --------

  lemma {:induction false} ReadSnoc(r: Reader, vs: seq<Sextet>, v: Sextet)
    requires Reading(r)
    ensures Read(r, vs + [v]) == Feed(Read(r, vs), v)
    decreases |vs|
  {
    if vs == [] {
      assert [v][1..] == [];
    } else {
      ReadSnoc(Feed(r, vs[0]), vs[1..], v);
      assert (vs + [v])[1..] == vs[1..] + [v];
    }
  }

  /** `(accumulator << 6) | value`: the shift leaves six zero bits, so the `|` adds. */
  function Accumulate(accumulator: int, v: Sextet): int {
    ToInt32(accumulator * 64) + v
  }

  /**
   * The accumulator is never reset and wraps at 32 bits, but its low bits are all the reader looks
   * at: they are the pending bits followed by the new sextet.
   */
  lemma {:induction false} LowBitsSurvive(accumulator: int, pending: nat, v: Sextet)
    ensures accumulator % 1 == pending ==> Accumulate(accumulator, v) % 64 == v
    ensures accumulator % 4 == pending ==> Accumulate(accumulator, v) % 256 == pending * 64 + v
    ensures accumulator % 16 == pending ==> Accumulate(accumulator, v) % 1024 == pending * 64 + v
    ensures accumulator % 64 == pending ==> Accumulate(accumulator, v) % 4096 == pending * 64 + v
  {
    var wraps := ToInt32Wraps(accumulator * 64);
    var next := Accumulate(accumulator, v);
    EuclidUnique(next, 64, accumulator - 0x400_0000 * wraps, v);
    if accumulator % 4 == pending {
      EuclidUnique(next, 256, accumulator / 4 - 0x100_0000 * wraps, pending * 64 + v);
    }
    if accumulator % 16 == pending {
      EuclidUnique(next, 1024, accumulator / 16 - 0x40_0000 * wraps, pending * 64 + v);
    }
    if accumulator % 64 == pending {
      EuclidUnique(next, 4096, accumulator / 64 - 0x10_0000 * wraps, pending * 64 + v);
    }
  }

  lemma {:induction false} ToInt32Wraps(n: int) returns (wraps: int)
    ensures ToInt32(n) == n - 0x1_0000_0000 * wraps
  {
    wraps := n / 0x1_0000_0000;
    if ToInt32(n) < 0 {
      wraps := wraps + 1;
    }
  }

  /** `(accumulator >> bits) & 0xff` and the bits below it. */
  lemma {:induction false} ByteAbove(accumulator: int, span: nat, total: nat)
    requires span in {1, 4, 16} && accumulator % (256 * span) == total
    ensures accumulator / span % 256 == total / span && accumulator % span == total % span
  {
    var above := accumulator / (256 * span);
    DivMod(accumulator, 256 * span);
    DivMod(total, span);
    QuotientBelow(total, span, 256);
    QuotientAtLeast(total, span, 0);
    assert accumulator == span * (256 * above + total / span) + total % span by {
      assert 256 * span * above == span * (256 * above);
    }
    EuclidUnique(accumulator, span, 256 * above + total / span, total % span);
    EuclidUnique(accumulator / span, 256, above, total / span);
  }

  /** One turn of the decoder's loop on its accumulator. */
  lemma {:induction false} Accumulates(r: Reader, accumulator: int, v: Sextet)
    requires Reading(r) && accumulator % Span(r.bits) == r.pending
    ensures var next := Accumulate(accumulator, v);
      && next % Span(Feed(r, v).bits) == Feed(r, v).pending
      && (r.bits + 6 >= 8 ==>
        0 <= next / Span(r.bits - 2) % 256 < 256 && Feed(r, v).out == r.out + [next / Span(r.bits - 2) % 256])
  {
    LowBitsSurvive(accumulator, r.pending, v);
    if r.bits + 6 >= 8 {
      ByteAbove(Accumulate(accumulator, v), Span(r.bits - 2), r.pending * 64 + v);
    }
  }

  lemma {:induction false} OneMoreSextet(text: Text, index: nat)
    requires index < |text| && Spelled64(text[..index]) && SextetOf(text[index]).Some?
    ensures Spelled64(text[..index + 1])
    ensures Read(EMPTY, Values(text[..index + 1])) ==
      Feed(Read(EMPTY, Values(text[..index])), SextetOf(text[index]).value)
  {
    assert text[..index + 1][..index] == text[..index];
    assert Values(text[..index + 1]) == Values(text[..index]) + [SextetOf(text[index]).value];
    ReadSnoc(EMPTY, Values(text[..index]), SextetOf(text[index]).value);
  }

  /** `base64UrlNoPad.decode`. */
  method DecodeBase64Url(text: Text) returns (r: Option<seq<Byte>>)
    ensures r == Decode64(text)
  {
    if |text| % 4 == 1 {
      return None;
    }
    var out := new Byte[|text| * 3 / 4](_ => 0);
    var accumulator, bits: nat, offset: nat := 0, 0, 0;
    for index := 0 to |text|
      invariant Spelled64(text[..index])
      invariant var reader := Read(EMPTY, Values(text[..index]));
        bits == reader.bits && accumulator % Span(bits) == reader.pending && offset <= out.Length
          && out[..offset] == reader.out
      invariant 8 * offset + bits == 6 * index
    {
      var value := SextetOf(text[index]);
      if value.None? {
        return None;
      }
      Accumulates(Read(EMPTY, Values(text[..index])), accumulator, value.value);
      OneMoreSextet(text, index);
      accumulator := Accumulate(accumulator, value.value);
      bits := bits + 6;
      if bits >= 8 {
        bits := bits - 8;
        out[offset] := accumulator / Span(bits) % 256;
        offset := offset + 1;
      }
    }
    assert text[..|text|] == text && out[..offset] == out[..];
    if bits > 0 && accumulator % Span(bits) != 0 {
      return None;
    }
    return Some(out[..]);
  }

  /** The characters of one turn of the encoder. */
  function Turn1(b0: Byte): (text: Text)
    ensures text == Encode64([b0])
  {
    [Symbol64(b0 / 4), Symbol64(b0 % 4 * 16)]
  }

  function Turn2(b0: Byte, b1: Byte): (text: Text)
    ensures text == Encode64([b0, b1])
  {
    [Symbol64(b0 / 4), Symbol64(b0 % 4 * 16 + b1 / 16), Symbol64(b1 % 16 * 4)]
  }

  function Turn3(b0: Byte, b1: Byte, b2: Byte): Text {
    [Symbol64(b0 / 4), Symbol64(b0 % 4 * 16 + b1 / 16), Symbol64(b1 % 16 * 4 + b2 / 64), Symbol64(b2 % 64)]
  }

  lemma {:induction false} EncodeUnfold(text: Text, b0: Byte, b1: Byte, b2: Byte, rest: seq<Byte>)
    ensures text + Encode64([b0, b1, b2] + rest) == text + Turn3(b0, b1, b2) + Encode64(rest)
  {
    SextetsUnfold(b0, b1, b2, rest);
  }

  /** `base64UrlNoPad.encode`: three bytes a turn, the last turn short. */
  method EncodeBase64Url(bytes: seq<Byte>) returns (text: Text)
    ensures text == Encode64(bytes)
  {
    text := [];
    var index := 0;
    assert bytes[0..] == bytes;
    while index < |bytes|
      invariant index <= |bytes| && text + Encode64(bytes[index..]) == Encode64(bytes)
    {
      ghost var left := bytes[index..];
      if index + 1 == |bytes| {
        assert left == [bytes[index]];
        return text + Turn1(bytes[index]);
      }
      if index + 2 == |bytes| {
        assert left == [bytes[index], bytes[index + 1]];
        return text + Turn2(bytes[index], bytes[index + 1]);
      }
      assert left == [bytes[index], bytes[index + 1], bytes[index + 2]] + bytes[index + 3..];
      EncodeUnfold(text, bytes[index], bytes[index + 1], bytes[index + 2], bytes[index + 3..]);
      text := text + Turn3(bytes[index], bytes[index + 1], bytes[index + 2]);
      index := index + 3;
    }
    assert bytes[index..] == [];
  }
}
