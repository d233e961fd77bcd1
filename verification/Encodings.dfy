/**
 * The one canonicity test behind every encoded field (packages/protocol/src/encoding.ts:111-231) and
 * the group-nonce schema built on it (packages/protocol/src/index.ts:57-77).
 */
module Encodings {
  import opened Common
  import opened Positional
  import opened Base58
  import opened Base64Url

  const LOWER_Z: CodeUnit := 0x7A

  /** A decoder that answers None rather than throwing, and its inverse. */
  datatype ByteEncoding = ByteEncoding(decode: Text -> Option<seq<Byte>>, encode: seq<Byte> -> Text)

  /** `decodeBase58` after the prefix; the bare prefix has no body and is refused. */
  function DecodeMultibase(text: Text): Option<seq<Byte>> {
    if |text| < 2 || text[0] != LOWER_Z then None else Base58.Decode(text[1..])
  }

  function EncodeMultibase(bytes: seq<Byte>): Text {
    [LOWER_Z] + Base58.Encode(bytes)
  }

  const MULTIBASE_BASE58BTC: ByteEncoding := ByteEncoding(DecodeMultibase, EncodeMultibase)
  const BASE64URL_NO_PAD: ByteEncoding := ByteEncoding(Decode64, Encode64)

  /** What a field demands: an exact length, or else at least a minimum that defaults to one byte. */
  datatype LengthRequirement = Exactly(bytes: nat) | AtLeast(bytes: nat) | Unstated

  predicate Meets(length: nat, requirement: LengthRequirement) {
    match requirement
    case Exactly(n) => length == n
    case AtLeast(n) => length >= n
    case Unstated => length >= 1
  }

  /** `decodeCanonical`: decode, check the length, re-encode, compare. */
  function DecodeCanonical(text: Text, encoding: ByteEncoding, requirement: LengthRequirement): Option<seq<Byte>> {
    match encoding.decode(text)
    case None => None
    case Some(bytes) =>
      if !Meets(|bytes|, requirement) then None
      else if encoding.encode(bytes) != text then None
      else Some(bytes)
  }

  lemma {:induction false} EmptyForEmpty()
    ensures Base58.Encode([]) == [] && Base58.Decode([]) == Some([])
  {
    assert Convert(256, 58, []) == [];
    DecodeEncode([]);
  }

  /** The multibase codec loses nothing but the empty string, which its own decoder refuses. */
  lemma {:induction false} MultibaseRoundTrip(bytes: seq<Byte>)
    ensures DecodeMultibase(EncodeMultibase(bytes)) == if bytes == [] then None else Some(bytes)
  {
    EmptyForEmpty();
    DecodeEncode(bytes);
    assert EncodeMultibase(bytes)[1..] == Base58.Encode(bytes);
  }

  lemma {:induction false} MultibaseDecodesCanonical(text: Text)
    requires DecodeMultibase(text).Some?
    ensures EncodeMultibase(DecodeMultibase(text).value) == text && DecodeMultibase(text).value != []
  {
    EmptyForEmpty();
    EncodeDecode(text[1..]);
    assert text == [LOWER_Z] + text[1..];
  }

  /** A multibase field accepts a text exactly when it is the encoding of a non-empty value of the right length. */
  lemma {:induction false} CanonicalMultibase(text: Text, requirement: LengthRequirement, bytes: seq<Byte>)
    ensures DecodeCanonical(text, MULTIBASE_BASE58BTC, requirement) == Some(bytes)
      <==> text == EncodeMultibase(bytes) && bytes != [] && Meets(|bytes|, requirement)
  {
    MultibaseRoundTrip(bytes);
    if DecodeMultibase(text).Some? {
      MultibaseDecodesCanonical(text);
    }
  }

  /** A base64url field accepts a text exactly when it is the encoding of a value of the right length. */
  lemma {:induction false} CanonicalBase64Url(text: Text, requirement: LengthRequirement, bytes: seq<Byte>)
    ensures DecodeCanonical(text, BASE64URL_NO_PAD, requirement) == Some(bytes)
      <==> text == Encode64(bytes) && Meets(|bytes|, requirement)
  {
    DecodeEncode64(bytes);
    if Decode64(text).Some? {
      EncodeDecode64(text);
    }
  }

  /** What each demand comes to: that length exactly, at least that many bytes, or one at least. */
  lemma {:induction false} DemandsAreMet(text: Text, n: nat, bytes: seq<Byte>)
    ensures DecodeCanonical(text, MULTIBASE_BASE58BTC, Exactly(n)) == Some(bytes) <==>
      text == EncodeMultibase(bytes) && bytes != [] && |bytes| == n
    ensures DecodeCanonical(text, MULTIBASE_BASE58BTC, AtLeast(n)) == Some(bytes) <==>
      text == EncodeMultibase(bytes) && bytes != [] && |bytes| >= n
    ensures DecodeCanonical(text, BASE64URL_NO_PAD, Exactly(n)) == Some(bytes) <==>
      text == Encode64(bytes) && |bytes| == n
    ensures DecodeCanonical(text, BASE64URL_NO_PAD, AtLeast(n)) == Some(bytes) <==>
      text == Encode64(bytes) && |bytes| >= n
    ensures DecodeCanonical(text, BASE64URL_NO_PAD, Unstated) == Some(bytes) <==> text == Encode64(bytes) && bytes != []
  {
    CanonicalMultibase(text, Exactly(n), bytes);
    CanonicalMultibase(text, AtLeast(n), bytes);
    CanonicalBase64Url(text, Exactly(n), bytes);
    CanonicalBase64Url(text, AtLeast(n), bytes);
    CanonicalBase64Url(text, Unstated, bytes);
  }

  // -------- The group nonce --------

  const GROUP_NONCE_BYTES: nat := 32

  /** The schema's regular expression, a cheap filter in front of the quadratic decode. */
  predicate NoncePrefilter(text: Text) {
    33 <= |text| <= 45 && text[0] == LOWER_Z && Spelled(text[1..])
  }

  predicate GroupNonceSchema(text: Text) {
    NoncePrefilter(text) && DecodeCanonical(text, MULTIBASE_BASE58BTC, Exactly(GROUP_NONCE_BYTES)).Some?
  }

  lemma {:induction false} PowSum(base: nat, m: nat, n: nat)
    ensures Pow(base, m + n) == Pow(base, m) * Pow(base, n)
  {
    if m > 0 {
      PowSum(base, m - 1, n);
      assert base * (Pow(base, m - 1) * Pow(base, n)) == base * Pow(base, m - 1) * Pow(base, n);
    }
  }

  lemma {:induction false} EightBytesInElevenDigits()
    ensures Pow(256, 8) <= Pow(58, 11)
  {
    assert Pow(256, 2) == 65536;
    PowSum(256, 2, 2);
    PowSum(256, 4, 4);
    assert Pow(58, 3) == 195112;
    PowSum(58, 3, 3);
    PowSum(58, 6, 3);
    PowSum(58, 9, 2);
  }

  lemma {:induction false} ProductMonotone(a: nat, b: nat, c: nat, d: nat)
    requires a <= b && c <= d
    ensures a * c <= b * d
  {
    Scale(c, a, b);
    Scale(b, c, d);
  }

  lemma {:induction false} ThirtyTwoBytesInFortyFourDigits()
    ensures Pow(256, 32) <= Pow(58, 44)
  {
    EightBytesInElevenDigits();
    PowSum(256, 8, 8);
    PowSum(58, 11, 11);
    ProductMonotone(Pow(256, 8), Pow(58, 11), Pow(256, 8), Pow(58, 11));
    PowSum(256, 16, 16);
    PowSum(58, 22, 22);
    ProductMonotone(Pow(256, 16), Pow(58, 22), Pow(256, 16), Pow(58, 22));
  }

  /** Each leading zero saves more digits than the one it costs. */
  lemma {:induction false} FewerBytesFewerDigits(k: nat)
    requires k <= 32
    ensures Pow(256, k) <= Pow(58, 12 + k)
    decreases 32 - k
  {
    if k == 32 {
      ThirtyTwoBytesInFortyFourDigits();
    } else {
      FewerBytesFewerDigits(k + 1);
      assert 256 * Pow(256, k) <= 58 * Pow(58, 12 + k);
    }
  }

  /** A 32-byte value, leading zeros and all, takes between 32 and 44 digits. */
  lemma {:induction false} NonceDigits(bytes: seq<Byte>)
    requires |bytes| == GROUP_NONCE_BYTES
    ensures 32 <= |Base58.Encode(bytes)| <= 44
  {
    var z := LeadingZeros(bytes);
    var n := Number(256, bytes);
    SignificantBytes(bytes);
    FewerBytesFewerDigits(32 - z);
    BoundedHasFewDigits(58, n, 12 + (32 - z));
    LargerBaseFewerDigits(58, 256, n);
  }

  /** Past its leading zeros a byte string is as long as the numeral of its number. */
  lemma {:induction false} SignificantBytes(bytes: seq<Byte>)
    ensures var z := LeadingZeros(bytes);
      |Numeral(256, Number(256, bytes))| == |bytes| - z && Number(256, bytes) < Pow(256, |bytes| - z)
  {
    var z := LeadingZeros(bytes);
    assert bytes == Zeros(z) + bytes[z..];
    ZerosAddNothing(256, z, bytes[z..]);
    SignificantBody(bytes[z..]);
  }

  lemma {:induction false} SignificantBody(body: seq<Byte>)
    requires body != [] ==> body[0] != 0
    ensures |Numeral(256, Number(256, body))| == |body| && Number(256, body) < Pow(256, |body|)
  {
    var n := Number(256, body);
    BodyIsNumeral(256, body);
    ValueOfNumeral(256, n);
    NumeralBelowPow(256, Numeral(256, n));
  }

  /** The prefilter refuses no nonce: the schema accepts exactly the encodings of 32-byte values. */
  lemma {:induction false} GroupNonceAccepts(text: Text)
    ensures GroupNonceSchema(text) <==>
      exists bytes: seq<Byte> :: |bytes| == GROUP_NONCE_BYTES && text == EncodeMultibase(bytes)
  {
    if GroupNonceSchema(text) {
      var bytes := DecodeCanonical(text, MULTIBASE_BASE58BTC, Exactly(GROUP_NONCE_BYTES)).value;
      CanonicalMultibase(text, Exactly(GROUP_NONCE_BYTES), bytes);
    }
    forall bytes: seq<Byte> | |bytes| == GROUP_NONCE_BYTES && text == EncodeMultibase(bytes)
      ensures GroupNonceSchema(text) {
      CanonicalMultibase(text, Exactly(GROUP_NONCE_BYTES), bytes);
      NonceDigits(bytes);
      assert text[1..] == Base58.Encode(bytes);
    }
  }
}
