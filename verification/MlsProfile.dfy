/**
 * The MLS profile's group ids, digest entries and padded content
 * (packages/crypto/src/mls-profile.ts:36-75, 162-220), each meant to have one byte form per value.
 */
module MlsProfile {
  import opened Common
  import opened Positional
  import opened Base58
  import opened TlsSyntax
  import opened Encodings

  // -------- Digest ids --------

  const MULTIHASH_BYTE_LENGTH: nat := 34

  predicate IsSha256Multihash(bytes: seq<Byte>) {
    |bytes| == MULTIHASH_BYTE_LENGTH && bytes[0] == 0x12 && bytes[1] == 0x20
  }

  /** `fromMultibase`. */
  function FromMultibase(text: Text): Option<seq<Byte>> {
    if text == [] || text[0] != LOWER_Z then None else Base58.Decode(text[1..])
  }

  /** `decodeSha256Multihash`; None where it throws. */
  function GroupIdFromConversationId(id: Text): Option<seq<Byte>> {
    match FromMultibase(id)
    case None => None
    case Some(bytes) => if IsSha256Multihash(bytes) then Some(bytes) else None
  }

  function ConversationIdFromGroupId(groupId: seq<Byte>): Option<Text> {
    if IsSha256Multihash(groupId) then Some(EncodeMultibase(groupId)) else None
  }

  /** Conversation ids and group ids name each other, one to one. */
  lemma {:induction false} GroupIdRoundTrip(id: Text, groupId: seq<Byte>)
    ensures GroupIdFromConversationId(id) == Some(groupId) <==> ConversationIdFromGroupId(groupId) == Some(id)
  {
    if GroupIdFromConversationId(id) == Some(groupId) {
      EncodeDecode(id[1..]);
      assert id == [LOWER_Z] + id[1..];
    }
    if ConversationIdFromGroupId(groupId) == Some(id) {
      DecodeEncode(groupId);
      assert id[1..] == Base58.Encode(groupId);
    }
  }

  /** A group id is the 34 bytes of a SHA-256 multihash, and its conversation id their multibase text. */
  lemma {:induction false} GroupIdsAreMultihashes(id: Text, groupId: seq<Byte>)
    ensures ConversationIdFromGroupId(groupId) == Some(id) <==>
      |groupId| == 34 && groupId[..2] == [0x12, 0x20] && id == EncodeMultibase(groupId)
  {}

  predicate IsDigest(text: Text) {
    GroupIdFromConversationId(text).Some?
  }

  /** A digest id is ASCII and short. */
  lemma {:induction false} DigestIsAscii(text: Text)
    requires IsDigest(text)
    ensures forall i :: 0 <= i < |text| ==> text[i] < 128
    ensures |text| <= 69
  {
    var tail := text[1..];
    forall i | 0 <= i < |text| ensures text[i] < 128 {
      if i > 0 {
        assert tail[i - 1] == text[i] && DigitOf(tail[i - 1]).Some?;
      }
    }
    EncodeDecode(tail);
    AtMostTwoDigitsAByte(FromMultibase(text).value);
  }

  lemma {:induction false} BytesInTwoDigits(k: nat)
    ensures Pow(256, k) <= Pow(58, 2 * k)
  {
    if k > 0 {
      BytesInTwoDigits(k - 1);
      assert Pow(58, 2 * k) == 58 * Pow(58, 2 * k - 1) == 58 * (58 * Pow(58, 2 * (k - 1)));
    }
  }

  lemma {:induction false} AtMostTwoDigitsAByte(bytes: seq<Byte>)
    ensures |Base58.Encode(bytes)| <= 2 * |bytes|
  {
    var z := LeadingZeros(bytes);
    SignificantBytes(bytes);
    BytesInTwoDigits(|bytes| - z);
    BoundedHasFewDigits(58, Number(256, bytes), 2 * (|bytes| - z));
  }

  // -------- UTF-8 of digest ids --------

  predicate IsAscii(bytes: seq<Byte>) {
    forall i :: 0 <= i < |bytes| ==> bytes[i] < 128
  }

  /** `TextEncoder` on an ASCII text. */
  function Utf8(text: Text): (bytes: seq<Byte>)
    requires forall i :: 0 <= i < |text| ==> text[i] < 128
    ensures |bytes| == |text| && IsAscii(bytes)
  {
    seq(|text|, i requires 0 <= i < |text| => text[i])
  }

  function AsciiText(bytes: seq<Byte>): Text {
    seq(|bytes|, i requires 0 <= i < |bytes| => bytes[i])
  }

  lemma {:induction false} Utf8RoundTrip(text: Text)
    requires forall i :: 0 <= i < |text| ==> text[i] < 128
    ensures AsciiText(Utf8(text)) == text
  {}

  const BOM: seq<Byte> := [0xEF, 0xBB, 0xBF]

  predicate HasBom(entry: seq<Byte>) {
    BOM <= entry
  }

  /** The decoder is built without `ignoreBOM`, so it drops one leading byte-order mark. */
  function WithoutBom(entry: seq<Byte>): seq<Byte> {
    if HasBom(entry) then entry[3..] else entry
  }

  /**
   * An entry as a digest id; None where decoding it throws. Bytes that are not ASCII after the mark
   * are either invalid UTF-8 or a text outside the base58 alphabet, and no digest either way.
   */
  function EntryDigest(entry: seq<Byte>): Option<Text> {
    var bytes := WithoutBom(entry);
    if IsAscii(bytes) && IsDigest(AsciiText(bytes)) then Some(AsciiText(bytes)) else None
  }

  function DigestEntry(digest: Text): (entry: seq<Byte>)
    requires IsDigest(digest)
    ensures !HasBom(entry) && EntryDigest(entry) == Some(digest) && |entry| <= 69
  {
    DigestIsAscii(digest);
    Utf8RoundTrip(digest);
    Utf8(digest)
  }

  lemma {:induction false} EntryOfDigest(entry: seq<Byte>)
    requires EntryDigest(entry).Some?
    ensures DigestEntry(EntryDigest(entry).value) == WithoutBom(entry)
  {}

  // -------- Padding --------

  /** The next multiple of 256. */
  function PaddedLength(n: nat): nat {
    (n + 255) / 256 * 256
  }

  /** It is the least multiple of 256 that is long enough. */
  lemma {:induction false} PaddedLengthIsLeast(n: nat, k: nat)
    ensures PaddedLength(n) % 256 == 0 && n <= PaddedLength(n)
    ensures n <= 256 * k ==> PaddedLength(n) <= 256 * k
  {}

  /** What is padded is its framed form followed by fewer than 256 zeros, to a whole number of blocks. */
  lemma {:induction false} PadFillsTheBlock(content: seq<Byte>)
    ensures Pad(content).Some? <==> EncodeOpaque(content).Some?
    ensures Pad(content).Some? ==>
      && EncodeOpaque(content).value <= Pad(content).value
      && |Pad(content).value| % 256 == 0 && |Pad(content).value| < |EncodeOpaque(content).value| + 256
      && forall i :: |EncodeOpaque(content).value| <= i < |Pad(content).value| ==> Pad(content).value[i] == 0
  {}

  /** `padApplicationContent`; None where its length header throws. */
  function Pad(content: seq<Byte>): Option<seq<Byte>> {
    match EncodeOpaque(content)
    case None => None
    case Some(framed) => Some(framed + Base58.Zeros(PaddedLength(|framed|) - |framed|))
  }

  /** `unpadApplicationContent`; None where it throws. */
  function Unpad(padded: seq<Byte>): Option<seq<Byte>> {
    if padded == [] || |padded| % 256 != 0 then None
    else match DecodeOpaque(padded, 0)
      case Refused(_) => None
      case Read(content, read) =>
        if (exists i :: read <= i < |padded| && padded[i] != 0) || PaddedLength(read) != |padded|
          then None else Some(content)
  }

  /** Unpadding accepts exactly what padding gives. */
  lemma {:induction false} UnpadAcceptsPad(padded: seq<Byte>, content: seq<Byte>)
    ensures Unpad(padded) == Some(content) <==> Pad(content) == Some(padded)
  {
    if Unpad(padded) == Some(content) {
      var read := DecodeOpaque(padded, 0).bytesRead;
      OpaqueReencodes(padded, 0);
      assert padded == padded[0..read] + padded[read..];
      assert padded[read..] == Base58.Zeros(PaddedLength(read) - read);
    }
    if Pad(content) == Some(padded) {
      var framed := EncodeOpaque(content).value;
      assert padded[0..|framed|] == framed;
      OpaqueDecodes(padded, 0, content, framed);
    }
  }

  // -------- The loops --------

  method PadApplicationContent(content: seq<Byte>) returns (r: Option<seq<Byte>>)
    ensures r == Pad(content)
  {
    var framed := EncodeOpaque(content);
    if framed.None? {
      return None;
    }
    var padded := new Byte[PaddedLength(|framed.value|)](_ => 0);
    CopyInto(padded, 0, framed.value);
    assert padded[..] == framed.value + Base58.Zeros(PaddedLength(|framed.value|) - |framed.value|);
    return Some(padded[..]);
  }

  method UnpadApplicationContent(padded: seq<Byte>) returns (r: Option<seq<Byte>>)
    ensures r == Unpad(padded)
  {
    if |padded| == 0 || |padded| % 256 != 0 {
      return None;
    }
    match DecodeOpaque(padded, 0)
    case Refused(_) => return None;
    case Read(content, read) =>
      OpaqueAdvances(padded, 0);
      for i := read to |padded|
        invariant forall j :: read <= j < i ==> padded[j] == 0
      {
        if padded[i] != 0 {
          return None;
        }
      }
      if PaddedLength(read) != |padded| {
        return None;
      }
      return Some(content);
  }
}
