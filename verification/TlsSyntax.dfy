/**
 * Variable-length integers and opaque vectors (packages/crypto/src/tls-syntax.ts; section 16 of RFC
 * 9000 as restricted by section 2.1.2 of RFC 9420).
 */
module TlsSyntax {
  import opened Common
  import opened Base58

  /** The largest length the 4-byte form holds: 2^30 - 1. */
  const MAX_VECTOR_LENGTH: int := 0x3FFF_FFFF

  datatype Malformed = Truncated | EightByteForm | NonMinimal

  datatype Decoded<+T> = Read(value: T, bytesRead: nat) | Refused(why: Malformed)

  // -------- Integers --------

  /** `encodeVarint`: the shortest form; None where it throws. */
  function EncodeVarint(n: int): Option<seq<Byte>> {
    if n < 0 || n > MAX_VECTOR_LENGTH then None else Some(Shortest(n))
  }

  function Shortest(n: int): (bytes: seq<Byte>)
    requires 0 <= n <= MAX_VECTOR_LENGTH
    ensures |bytes| == if n < 0x40 then 1 else if n < 0x4000 then 2 else 4
  {
    if n < 0x40 then [n]
    else if n < 0x4000 then [0x40 + n / 0x100, n % 0x100]
    else [0x80 + n / 0x100_0000, n / 0x1_0000 % 0x100, n / 0x100 % 0x100, n % 0x100]
  }

  /** The number the next `length` bytes hold, the two prefix bits of the first aside. */
  function HeaderValue(bytes: seq<Byte>): nat
    requires bytes != []
  {
    if |bytes| == 1 then bytes[0] % 0x40 else HeaderValue(bytes[..|bytes| - 1]) * 0x100 + bytes[|bytes| - 1]
  }

  function HeaderLength(first: Byte): nat {
    if first < 0x40 then 1 else if first < 0x80 then 2 else 4
  }

  /** The least value that needs a form of this length. */
  function LeastOf(length: nat): nat {
    if length == 1 then 0 else if length == 2 then 0x40 else 0x4000
  }

  /** `decodeVarint`. */
  function DecodeVarint(bytes: seq<Byte>, offset: nat): Decoded<nat> {
    if offset >= |bytes| then Refused(Truncated)
    else if bytes[offset] >= 0xC0 then Refused(EightByteForm)
    else
      var length := HeaderLength(bytes[offset]);
      if offset + length > |bytes| then Refused(Truncated)
      else
        var value := HeaderValue(bytes[offset..offset + length]);
        if value < LeastOf(length) then Refused(NonMinimal) else Read(value, length)
  }

  lemma {:induction false} HeaderOne(b: Byte)
    ensures HeaderValue([b]) == b % 0x40
  {}

  lemma {:induction false} HeaderTwo(a: Byte, b: Byte)
    ensures HeaderValue([a, b]) == a % 0x40 * 0x100 + b
  {
    assert [a, b][..1] == [a];
  }

  lemma {:induction false} HeaderFour(a: Byte, b: Byte, c: Byte, d: Byte)
    ensures HeaderValue([a, b, c, d]) == ((a % 0x40 * 0x100 + b) * 0x100 + c) * 0x100 + d
  {
    HeaderTwo(a, b);
    assert [a, b, c][..2] == [a, b] && [a, b, c, d][..3] == [a, b, c];
  }

  /** The shortest form of a value reads back as it, in as many bytes. */
  lemma {:induction false} ShortestReads(n: int)
    requires 0 <= n <= MAX_VECTOR_LENGTH
    ensures var bytes := Shortest(n);
      bytes[0] < 0xC0 && |bytes| == HeaderLength(bytes[0]) && HeaderValue(bytes) == n && LeastOf(|bytes|) <= n
  {
    if n < 0x40 {
      HeaderOne(n);
    } else if n < 0x4000 {
      HeaderTwo(0x40 + n / 0x100, n % 0x100);
    } else {
      HeaderFour(0x80 + n / 0x100_0000, n / 0x1_0000 % 0x100, n / 0x100 % 0x100, n % 0x100);
      FourBytes(n);
    }
  }

  lemma {:induction false} FourBytes(n: int)
    requires 0 <= n <= MAX_VECTOR_LENGTH
    ensures ((n / 0x100_0000 * 0x100 + n / 0x1_0000 % 0x100) * 0x100 + n / 0x100 % 0x100) * 0x100 + n % 0x100 == n
  {
    assert n / 0x100 / 0x100 == n / 0x1_0000 && n / 0x1_0000 / 0x100 == n / 0x100_0000;
  }

  /** And a header accepted as minimal is the shortest form of the value it holds. */
  lemma {:induction false} MinimalIsShortest(header: seq<Byte>)
    requires header != [] && header[0] < 0xC0 && |header| == HeaderLength(header[0])
      && LeastOf(|header|) <= HeaderValue(header)
    ensures HeaderValue(header) <= MAX_VECTOR_LENGTH && Shortest(HeaderValue(header)) == header
  {
    if |header| == 1 {
      assert header == [header[0]];
      HeaderOne(header[0]);
    } else if |header| == 2 {
      assert header == [header[0], header[1]];
      MinimalTwo(header[0], header[1]);
    } else {
      assert header == [header[0], header[1], header[2], header[3]];
      MinimalFour(header[0], header[1], header[2], header[3]);
    }
  }

  lemma {:induction false} MinimalTwo(a: Byte, b: Byte)
    requires 0x40 <= a < 0x80 && 0x40 <= HeaderValue([a, b])
    ensures HeaderValue([a, b]) <= MAX_VECTOR_LENGTH && Shortest(HeaderValue([a, b])) == [a, b]
  {
    HeaderTwo(a, b);
  }

  lemma {:induction false} MinimalFour(a: Byte, b: Byte, c: Byte, d: Byte)
    requires 0x80 <= a < 0xC0 && 0x4000 <= HeaderValue([a, b, c, d])
    ensures HeaderValue([a, b, c, d]) <= MAX_VECTOR_LENGTH && Shortest(HeaderValue([a, b, c, d])) == [a, b, c, d]
  {
    HeaderFour(a, b, c, d);
    FourDigits(a - 0x80, b, c, d);
  }

  lemma {:induction false} FourDigits(a: int, b: Byte, c: Byte, d: Byte)
    requires 0 <= a < 0x40
    ensures var n := ((a * 0x100 + b) * 0x100 + c) * 0x100 + d;
      0 <= n <= MAX_VECTOR_LENGTH && n / 0x100_0000 == a && n / 0x1_0000 % 0x100 == b
        && n / 0x100 % 0x100 == c && n % 0x100 == d
  {}

  lemma {:induction false} VarintReencodes(bytes: seq<Byte>, offset: nat)
    requires DecodeVarint(bytes, offset).Read?
    ensures var d := DecodeVarint(bytes, offset);
      offset < offset + d.bytesRead <= |bytes| && EncodeVarint(d.value) == Some(bytes[offset..offset + d.bytesRead])
  {
    MinimalIsShortest(bytes[offset..offset + HeaderLength(bytes[offset])]);
  }

  lemma {:induction false} VarintDecodes(bytes: seq<Byte>, offset: nat, n: int, header: seq<Byte>)
    requires EncodeVarint(n) == Some(header) && offset + |header| <= |bytes|
      && bytes[offset..offset + |header|] == header
    ensures n >= 0 && header != [] && DecodeVarint(bytes, offset) == Read(n, |header|)
  {
    ShortestReads(n);
    assert bytes[offset] == header[0];
  }

  /** The integer decoder accepts exactly the encoder's outputs. */
  lemma {:induction false} VarintHasOneForm(bytes: seq<Byte>, offset: nat, n: nat, length: nat)
    ensures DecodeVarint(bytes, offset) == Read(n, length) <==>
      offset + length <= |bytes| && EncodeVarint(n) == Some(bytes[offset..offset + length])
  {
    if DecodeVarint(bytes, offset).Read? {
      VarintReencodes(bytes, offset);
    }
    if offset + length <= |bytes| && EncodeVarint(n) == Some(bytes[offset..offset + length]) {
      VarintDecodes(bytes, offset, n, bytes[offset..offset + length]);
    }
  }

  // -------- Vectors --------

  /** `encodeOpaque`; None where its length header throws. */
  function EncodeOpaque(body: seq<Byte>): Option<seq<Byte>> {
    match EncodeVarint(|body|)
    case None => None
    case Some(header) => Some(header + body)
  }

  /** `decodeOpaque`: a header and that many bytes. */
  function DecodeOpaque(bytes: seq<Byte>, offset: nat): Decoded<seq<Byte>> {
    match DecodeVarint(bytes, offset)
    case Refused(why) => Refused(why)
    case Read(length, read) =>
      var start := offset + read;
      if start + length > |bytes| then Refused(Truncated) else Read(bytes[start..start + length], read + length)
  }

  /** A vector read takes at least its header, and stays within the bytes. */
  lemma {:induction false} OpaqueAdvances(bytes: seq<Byte>, offset: nat)
    requires DecodeOpaque(bytes, offset).Read?
    ensures offset < offset + DecodeOpaque(bytes, offset).bytesRead <= |bytes|
  {}

  lemma {:induction false} OpaqueReencodes(bytes: seq<Byte>, offset: nat)
    requires DecodeOpaque(bytes, offset).Read?
    ensures var d := DecodeOpaque(bytes, offset);
      offset < offset + d.bytesRead <= |bytes| && EncodeOpaque(d.value) == Some(bytes[offset..offset + d.bytesRead])
  {
    var header := DecodeVarint(bytes, offset);
    VarintReencodes(bytes, offset);
    var mid, end := offset + header.bytesRead, offset + header.bytesRead + header.value;
    assert bytes[offset..end] == bytes[offset..mid] + bytes[mid..end];
  }

  lemma {:induction false} OpaqueDecodes(bytes: seq<Byte>, offset: nat, body: seq<Byte>, framed: seq<Byte>)
    requires EncodeOpaque(body) == Some(framed) && offset + |framed| <= |bytes|
      && bytes[offset..offset + |framed|] == framed
    ensures framed != [] && DecodeOpaque(bytes, offset) == Read(body, |framed|)
  {
    var header := EncodeVarint(|body|).value;
    var mid, end := offset + |header|, offset + |framed|;
    assert bytes[offset..mid] == bytes[offset..end][..|header|];
    assert bytes[mid..end] == bytes[offset..end][|header|..];
    VarintDecodes(bytes, offset, |body|, header);
  }

  /** The vector decoder accepts exactly the encoder's outputs. */
  lemma {:induction false} OpaqueHasOneForm(bytes: seq<Byte>, offset: nat, body: seq<Byte>, length: nat)
    ensures DecodeOpaque(bytes, offset) == Read(body, length) <==>
      offset + length <= |bytes| && EncodeOpaque(body) == Some(bytes[offset..offset + length])
  {
    if DecodeOpaque(bytes, offset).Read? {
      OpaqueReencodes(bytes, offset);
    }
    if offset + length <= |bytes| && EncodeOpaque(body) == Some(bytes[offset..offset + length]) {
      OpaqueDecodes(bytes, offset, body, bytes[offset..offset + length]);
    }
  }

  // -------- Refusals --------

  /** The bytes from `offset` begin a form of `length` bytes, as the two prefix bits tell. */
  ghost predicate Announces(bytes: seq<Byte>, offset: nat, length: nat) {
    offset < |bytes| && (bytes[offset] / 0x40, length) in {(0, 1), (1, 2), (2, 4)}
  }

  /** Each refusal of an integer names what is wrong with it. */
  lemma {:induction false} VarintRefusalIsTrue(bytes: seq<Byte>, offset: nat)
    ensures var read := DecodeVarint(bytes, offset);
      && (read == Refused(EightByteForm) <==> offset < |bytes| && bytes[offset] / 0x40 == 3)
      && (read == Refused(Truncated) <==>
        offset >= |bytes| || exists length :: Announces(bytes, offset, length) && |bytes| < offset + length)
      && (read == Refused(NonMinimal) <==>
        exists length :: Announces(bytes, offset, length) && offset + length <= |bytes| &&
          IsLong(bytes[offset..offset + length]))
  {
    if offset < |bytes| && bytes[offset] < 0xC0 {
      var length := HeaderLength(bytes[offset]);
      assert Announces(bytes, offset, length);
      if offset + length <= |bytes| {
        LongIsNotLeast(bytes[offset..offset + length]);
      }
    }
  }

  /** The value held has a shorter form. */
  ghost predicate IsLong(header: seq<Byte>)
    requires header != []
  {
    HeaderValue(header) <= MAX_VECTOR_LENGTH && |Shortest(HeaderValue(header))| < |header|
  }

  lemma {:induction false} LongIsNotLeast(header: seq<Byte>)
    requires header != [] && header[0] < 0xC0 && |header| == HeaderLength(header[0])
    ensures IsLong(header) <==> HeaderValue(header) < LeastOf(|header|)
  {}

  /** A vector is refused for its header, or because its body is not all there. */
  lemma {:induction false} OpaqueRefusalIsTrue(bytes: seq<Byte>, offset: nat)
    ensures var header, read := DecodeVarint(bytes, offset), DecodeOpaque(bytes, offset);
      && (header.Refused? ==> read == Refused(header.why))
      && (header.Read? ==> (read == Refused(Truncated) <==> |bytes| < offset + header.bytesRead + header.value))
      && (header.Read? && read.Refused? ==> read.why == Truncated)
  {}

  // -------- Byte order --------

  /** `compareBytes`: negative, zero or positive as the left string comes before, is, or comes after the right. */
  function CompareBytes(left: seq<Byte>, right: seq<Byte>): int {
    if left == [] || right == [] then |left| - |right|
    else if left[0] != right[0] then left[0] - right[0]
    else CompareBytes(left[1..], right[1..])
  }

  lemma {:induction false} CompareIsTotal(a: seq<Byte>, b: seq<Byte>)
    ensures CompareBytes(a, b) == 0 <==> a == b
    ensures CompareBytes(a, b) < 0 <==> CompareBytes(b, a) > 0
  {
    if a != [] && b != [] && a[0] == b[0] {
      CompareIsTotal(a[1..], b[1..]);
      assert a == [a[0]] + a[1..] && b == [b[0]] + b[1..];
    }
  }

  lemma {:induction false} CompareIsTransitive(a: seq<Byte>, b: seq<Byte>, c: seq<Byte>)
    requires CompareBytes(a, b) < 0 && CompareBytes(b, c) < 0
    ensures CompareBytes(a, c) < 0
  {
    if a != [] && b != [] && c != [] && a[0] == b[0] && b[0] == c[0] {
      CompareIsTransitive(a[1..], b[1..], c[1..]);
    }
  }

  // -------- The loops --------

  /** `writeFixed`, on a value that leaves the prefix bits free. */
  method WriteFixed(value: nat, length: nat, prefix: Byte) returns (bytes: seq<Byte>)
    requires (length == 2 && value < 0x4000 && prefix == 0x40)
      || (length == 4 && value <= MAX_VECTOR_LENGTH && prefix == 0x80)
    requires LeastOf(length) <= value
    ensures bytes == Shortest(value)
  {
    var out := new Byte[length](_ => 0);
    var rest := value;
    var index := length;
    while index > 0
      invariant 0 <= index <= length
      invariant length == 2 ==> rest == (if index == 2 then value else if index == 1 then value / 0x100 else 0)
      invariant length == 4 ==> rest == (if index == 4 then value else if index == 3 then value / 0x100
        else if index == 2 then value / 0x1_0000 else if index == 1 then value / 0x100_0000 else 0)
      invariant length == 2 && index <= 1 ==> out[1] == value % 0x100
      invariant length == 2 && index == 0 ==> out[0] == value / 0x100
      invariant length == 4 && index <= 3 ==> out[3] == value % 0x100
      invariant length == 4 && index <= 2 ==> out[2] == value / 0x100 % 0x100
      invariant length == 4 && index <= 1 ==> out[1] == value / 0x1_0000 % 0x100
      invariant length == 4 && index == 0 ==> out[0] == value / 0x100_0000
    {
      index := index - 1;
      out[index] := rest % 0x100;
      rest := rest / 0x100;
    }
    out[0] := out[0] + prefix;
    bytes := out[..];
  }

  method EncodeVarintBytes(value: int) returns (bytes: Option<seq<Byte>>)
    ensures bytes == EncodeVarint(value)
  {
    if value < 0 || value > MAX_VECTOR_LENGTH {
      return None;
    }
    if value < 0x40 {
      return Some([value]);
    }
    var written;
    if value < 0x4000 {
      written := WriteFixed(value, 2, 0x40);
    } else {
      written := WriteFixed(value, 4, 0x80);
    }
    return Some(written);
  }

  /** `decodeVarint`'s own loop over the header. */
  method DecodeVarintBytes(bytes: seq<Byte>, offset: nat) returns (r: Decoded<nat>)
    ensures r == DecodeVarint(bytes, offset)
  {
    if offset >= |bytes| {
      return Refused(Truncated);
    }
    var first := bytes[offset];
    if first / 0x40 == 3 {
      return Refused(EightByteForm);
    }
    var length := HeaderLength(first);
    if offset + length > |bytes| {
      return Refused(Truncated);
    }
    var value := first % 0x40;
    HeaderOne(first);
    assert bytes[offset..offset + 1] == [first];
    for index := 1 to length
      invariant value == HeaderValue(bytes[offset..offset + index])
    {
      assert bytes[offset..offset + index + 1][..index] == bytes[offset..offset + index];
      value := value * 0x100 + bytes[offset + index];
    }
    if value < LeastOf(length) {
      return Refused(NonMinimal);
    }
    return Read(value, length);
  }

  /** `compareBytes` runs along the shared length. */
  method CompareByteStrings(left: seq<Byte>, right: seq<Byte>) returns (order: int)
    ensures order == CompareBytes(left, right)
  {
    var shared := if |left| < |right| then |left| else |right|;
    assert left[0..] == left && right[0..] == right;
    for index := 0 to shared
      invariant CompareBytes(left, right) == CompareBytes(left[index..], right[index..])
    {
      assert left[index..][1..] == left[index + 1..] && right[index..][1..] == right[index + 1..];
      var difference := left[index] as int - right[index] as int;
      if difference != 0 {
        return difference;
      }
    }
    return |left| - |right|;
  }

  /** All chunks one after another. */
  function Concat(chunks: seq<seq<Byte>>): seq<Byte> {
    if chunks == [] then [] else chunks[0] + Concat(chunks[1..])
  }

  /** `concatBytes`: one buffer of the total length, filled chunk by chunk. */
  method ConcatBytes(chunks: seq<seq<Byte>>) returns (r: seq<Byte>)
    ensures r == Concat(chunks)
  {
    var total := 0;
    assert chunks[0..] == chunks;
    for i := 0 to |chunks|
      invariant 0 <= total && total + |Concat(chunks[i..])| == |Concat(chunks)|
    {
      assert chunks[i..][1..] == chunks[i + 1..];
      total := total + |chunks[i]|;
    }
    var out := new Byte[total](_ => 0);
    var offset := 0;
    for i := 0 to |chunks|
      invariant 0 <= offset <= out.Length && offset + |Concat(chunks[i..])| == out.Length
      invariant out[..offset] + Concat(chunks[i..]) == Concat(chunks)
    {
      assert chunks[i..][1..] == chunks[i + 1..];
      CopyInto(out, offset, chunks[i]);
      offset := offset + |chunks[i]|;
    }
    r := out[..];
  }

  /** `out.set(chunk, offset)`. */
  method CopyInto(out: array<Byte>, offset: nat, chunk: seq<Byte>)
    requires offset + |chunk| <= out.Length
    modifies out
    ensures out[..] == old(out[..offset]) + chunk + old(out[offset + |chunk|..])
    ensures out[..offset + |chunk|] == old(out[..offset]) + chunk
  {
    for i := 0 to |chunk|
      invariant forall k :: 0 <= k < out.Length ==> out[k] == if offset <= k < offset + i
        then chunk[k - offset] else old(out[k])
    {
      out[offset + i] := chunk[i];
    }
  }
}
