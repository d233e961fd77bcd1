/**
 * Commit bindings (packages/crypto/src/mls-profile.ts:103-160): a vector of digest entries in byte
 * order, meant to have one byte form per set of digests.
 */
module CommitBindings {
  import opened Common
  import opened Base58
  import opened TlsSyntax
  import opened MlsProfile

  // -------- Vectors of vectors --------

  /** Each entry behind its own length header, all of them together. */
  function EncodeEach(entries: seq<seq<Byte>>): Option<seq<Byte>> {
    if entries == [] then Some([])
    else match (EncodeOpaque(entries[0]), EncodeEach(entries[1..]))
      case (Some(first), Some(rest)) => Some(first + rest)
      case _ => None
  }

  /** What a decoder reads at an offset. */
  type Reader = nat -> Decoded<seq<Byte>>

  /** It always moves forward, and never past the end. */
  ghost predicate Advances(next: Reader, end: nat) {
    forall offset: nat :: offset < end && next(offset).Read? ==> offset < offset + next(offset).bytesRead <= end
  }

  function Opaques(body: seq<Byte>): (next: Reader)
    ensures Advances(next, |body|)
  {
    var next := (offset: nat) => DecodeOpaque(body, offset);
    assert Advances(next, |body|) by {
      forall offset: nat | offset < |body| && next(offset).Read?
        ensures offset < offset + next(offset).bytesRead <= |body| {
        OpaqueAdvances(body, offset);
      }
    }
    next
  }

  /** The entries from an offset to the end; None where one is malformed or runs past the end. */
  function Parse(next: Reader, offset: nat, end: nat): Option<seq<seq<Byte>>>
    requires Advances(next, end) && offset <= end
    decreases end - offset
  {
    if offset == end then Some([])
    else match next(offset)
      case Refused(_) => None
      case Read(entry, read) => Before(entry, Parse(next, offset + read, end))
  }

  function ParseEach(body: seq<Byte>, offset: nat): Option<seq<seq<Byte>>>
    requires offset <= |body|
  {
    Parse(Opaques(body), offset, |body|)
  }

  function Before(entry: seq<Byte>, rest: Option<seq<seq<Byte>>>): Option<seq<seq<Byte>>> {
    match rest
    case None => None
    case Some(entries) => Some([entry] + entries)
  }

  /** What the encoder wrote first is what the decoder reads first. */
  lemma {:induction false} FirstIsPrefix(body: seq<Byte>, offset: nat, first: seq<Byte>,
      rest: seq<Byte>, entry: seq<Byte>)
    requires offset <= |body| && EncodeOpaque(entry) == Some(first) && body[offset..] == first + rest
    ensures offset + |first| <= |body| && offset < |body| && body[offset + |first|..] == rest
    ensures DecodeOpaque(body, offset) == Read(entry, |first|)
  {
    assert |body| - offset == |first| + |rest|;
    assert body[offset..offset + |first|] == body[offset..][..|first|];
    assert body[offset + |first|..] == body[offset..][|first|..];
    OpaqueDecodes(body, offset, entry, first);
  }

  lemma {:induction false} EncodedParses(body: seq<Byte>, offset: nat, entries: seq<seq<Byte>>)
    requires offset <= |body| && EncodeEach(entries) == Some(body[offset..])
    ensures ParseEach(body, offset) == Some(entries)
    decreases |entries|
  {
    if entries != [] {
      var first, rest := EncodeOpaque(entries[0]).value, EncodeEach(entries[1..]).value;
      FirstIsPrefix(body, offset, first, rest, entries[0]);
      EncodedParses(body, offset + |first|, entries[1..]);
      assert entries == [entries[0]] + entries[1..];
    }
  }

  lemma {:induction false} ParsedEncodes(body: seq<Byte>, offset: nat)
    requires offset <= |body| && ParseEach(body, offset).Some?
    ensures EncodeEach(ParseEach(body, offset).value) == Some(body[offset..])
    decreases |body| - offset
  {
    if offset == |body| {
      assert body[offset..] == [];
    } else {
      var d := DecodeOpaque(body, offset);
      OpaqueReencodes(body, offset);
      ParsedEncodes(body, offset + d.bytesRead);
      var entries := ParseEach(body, offset).value;
      assert entries[1..] == ParseEach(body, offset + d.bytesRead).value;
      assert body[offset..] == body[offset..offset + d.bytesRead] + body[offset + d.bytesRead..];
    }
  }

  lemma {:induction false} EachHasOneForm(body: seq<Byte>, entries: seq<seq<Byte>>)
    ensures ParseEach(body, 0) == Some(entries) <==> EncodeEach(entries) == Some(body)
  {
    assert body[0..] == body;
    if ParseEach(body, 0) == Some(entries) {
      ParsedEncodes(body, 0);
    }
    if EncodeEach(entries) == Some(body) {
      EncodedParses(body, 0, entries);
    }
  }

  function EncodeRaw(entries: seq<seq<Byte>>): Option<seq<Byte>> {
    match EncodeEach(entries)
    case None => None
    case Some(body) => EncodeOpaque(body)
  }

  /** The whole of the bytes as one vector, and its body as entries. */
  function ParseRaw(bytes: seq<Byte>): Option<seq<seq<Byte>>> {
    match DecodeOpaque(bytes, 0)
    case Refused(_) => None
    case Read(body, read) => if read != |bytes| then None else ParseEach(body, 0)
  }

  lemma {:induction false} RawReencodes(bytes: seq<Byte>)
    requires ParseRaw(bytes).Some?
    ensures EncodeRaw(ParseRaw(bytes).value) == Some(bytes)
  {
    var body := DecodeOpaque(bytes, 0).value;
    OpaqueReencodes(bytes, 0);
    assert bytes[0..|bytes|] == bytes;
    EachHasOneForm(body, ParseRaw(bytes).value);
  }

  lemma {:induction false} RawParses(bytes: seq<Byte>, entries: seq<seq<Byte>>)
    requires EncodeRaw(entries) == Some(bytes)
    ensures ParseRaw(bytes) == Some(entries)
  {
    var body := EncodeEach(entries).value;
    assert bytes[0..0 + |bytes|] == bytes;
    OpaqueDecodes(bytes, 0, body, bytes);
    EachHasOneForm(body, entries);
  }

  lemma {:induction false} RawHasOneForm(bytes: seq<Byte>, entries: seq<seq<Byte>>)
    ensures ParseRaw(bytes) == Some(entries) <==> EncodeRaw(entries) == Some(bytes)
  {
    if ParseRaw(bytes).Some? {
      RawReencodes(bytes);
    }
    if EncodeRaw(entries) == Some(bytes) {
      RawParses(bytes, entries);
    }
  }

  // -------- Sorting --------

  function InsertBytes(e: seq<Byte>, sorted: seq<seq<Byte>>): seq<seq<Byte>> {
    if sorted == [] || CompareBytes(e, sorted[0]) <= 0 then [e] + sorted
    else [sorted[0]] + InsertBytes(e, sorted[1..])
  }

  /** `entries.sort(compareBytes)`. */
  function SortBytes(entries: seq<seq<Byte>>): seq<seq<Byte>> {
    if entries == [] then [] else InsertBytes(entries[0], SortBytes(entries[1..]))
  }

  /** Each entry strictly before the next: in order, and none twice. */
  predicate StrictlySorted(entries: seq<seq<Byte>>) {
    |entries| < 2 || (CompareBytes(entries[0], entries[1]) < 0 && StrictlySorted(entries[1..]))
  }

  predicate Sorted(entries: seq<seq<Byte>>) {
    |entries| < 2 || (CompareBytes(entries[0], entries[1]) <= 0 && Sorted(entries[1..]))
  }

  predicate Unrepeated(entries: seq<seq<Byte>>) {
    entries == [] || (entries[0] !in entries[1..] && Unrepeated(entries[1..]))
  }

  lemma {:induction false} InsertKeeps(e: seq<Byte>, sorted: seq<seq<Byte>>)
    requires Sorted(sorted)
    ensures Sorted(InsertBytes(e, sorted))
    ensures forall x :: x in InsertBytes(e, sorted) <==> x == e || x in sorted
    ensures Unrepeated(InsertBytes(e, sorted)) <==> e !in sorted && Unrepeated(sorted)
  {
    CompareIsTotal(e, e);
    if sorted != [] {
      CompareIsTotal(e, sorted[0]);
      assert sorted == [sorted[0]] + sorted[1..];
      if CompareBytes(e, sorted[0]) <= 0 {
        assert ([e] + sorted)[1..] == sorted;
      } else {
        InsertKeeps(e, sorted[1..]);
        var r := InsertBytes(e, sorted);
        assert r[1..] == InsertBytes(e, sorted[1..]);
      }
    }
  }

  lemma {:induction false} SortKeeps(entries: seq<seq<Byte>>)
    ensures Sorted(SortBytes(entries))
    ensures forall x :: x in SortBytes(entries) <==> x in entries
    ensures Unrepeated(SortBytes(entries)) <==> Unrepeated(entries)
  {
    if entries != [] {
      SortKeeps(entries[1..]);
      InsertKeeps(entries[0], SortBytes(entries[1..]));
      assert entries == [entries[0]] + entries[1..];
    }
  }

  /** The head of a strictly sorted list comes before everything after it. */
  lemma {:induction false} HeadIsLeast(entries: seq<seq<Byte>>)
    requires StrictlySorted(entries) && entries != []
    ensures forall x :: x in entries[1..] ==> CompareBytes(entries[0], x) < 0
  {
    if |entries| >= 2 {
      HeadIsLeast(entries[1..]);
      forall x | x in entries[1..] ensures CompareBytes(entries[0], x) < 0 {
        if x != entries[1] {
          assert x in entries[1..][1..];
          CompareIsTransitive(entries[0], entries[1], x);
        }
      }
    }
  }

  lemma {:induction false} StrictIsDistinct(entries: seq<seq<Byte>>)
    requires Sorted(entries)
    ensures StrictlySorted(entries) <==> Unrepeated(entries)
  {
    if |entries| >= 2 {
      StrictIsDistinct(entries[1..]);
      CompareIsTotal(entries[0], entries[1]);
      if StrictlySorted(entries) {
        HeadIsLeast(entries);
        CompareIsTotal(entries[0], entries[0]);
      }
      assert entries[1] in entries[1..];
    }
  }

  /** Two strictly sorted lists of the same things are the same list. */
  lemma {:induction false} StrictlySortedUnique(a: seq<seq<Byte>>, b: seq<seq<Byte>>)
    requires StrictlySorted(a) && StrictlySorted(b) && forall x :: x in a <==> x in b
    ensures a == b
  {
    if b != [] {
      assert b[0] in b && b[0] in a;
    }
    if a != [] {
      assert a[0] in a && a[0] in b;
      HeadIsLeast(a);
      HeadIsLeast(b);
      CompareIsTotal(a[0], b[0]);
      assert a == [a[0]] + a[1..] && b == [b[0]] + b[1..];
      assert a[0] == b[0];
      CompareIsTotal(a[0], a[0]);
      forall x ensures x in a[1..] <==> x in b[1..] {
        assert x in a <==> x == a[0] || x in a[1..];
        assert x in b <==> x == b[0] || x in b[1..];
      }
      StrictlySortedUnique(a[1..], b[1..]);
    }
  }

  /** Sorting what is strictly sorted changes nothing. */
  lemma {:induction false} SortStrict(entries: seq<seq<Byte>>)
    requires StrictlySorted(entries)
    ensures SortBytes(entries) == entries
  {
    SortKeeps(entries);
    StrictIsSorted(entries);
    StrictIsDistinct(entries);
    StrictIsDistinct(SortBytes(entries));
    StrictlySortedUnique(SortBytes(entries), entries);
  }

  lemma {:induction false} StrictIsSorted(entries: seq<seq<Byte>>)
    requires StrictlySorted(entries)
    ensures Sorted(entries)
  {
    if |entries| >= 2 {
      StrictIsSorted(entries[1..]);
    }
  }

  // -------- Commit bindings --------

  predicate AllDigests(digests: seq<Text>) {
    forall i :: 0 <= i < |digests| ==> IsDigest(digests[i])
  }

  function Entries(digests: seq<Text>): (entries: seq<seq<Byte>>)
    requires AllDigests(digests)
    ensures |entries| == |digests|
  {
    seq(|digests|, i requires 0 <= i < |digests| => DigestEntry(digests[i]))
  }

  /** `encodeCommitBinding`; None where it throws. */
  function EncodeCommitBinding(digests: seq<Text>): Option<seq<Byte>> {
    if !AllDigests(digests) then None
    else
      var entries := SortBytes(Entries(digests));
      if !StrictlySorted(entries) then None else EncodeRaw(entries)
  }

  /** How an entry is read: as a text, or not at all. */
  type Interpreter = seq<Byte> -> Option<Text>

  predicate AllRead(read: Interpreter, entries: seq<seq<Byte>>) {
    forall i :: 0 <= i < |entries| ==> read(entries[i]).Some?
  }

  function Texts(read: Interpreter, entries: seq<seq<Byte>>): (texts: seq<Text>)
    requires AllRead(read, entries)
    ensures |texts| == |entries|
  {
    seq(|entries|, i requires 0 <= i < |entries| => read(entries[i]).value)
  }

  predicate AllEntryDigests(entries: seq<seq<Byte>>) {
    AllRead(EntryDigest, entries)
  }

  function DigestsOf(entries: seq<seq<Byte>>): seq<Text>
    requires AllEntryDigests(entries)
  {
    Texts(EntryDigest, entries)
  }

  /** `decodeCommitBinding`; None where it throws. */
  function DecodeCommitBinding(bytes: seq<Byte>): Option<seq<Text>> {
    match ParseRaw(bytes)
    case None => None
    case Some(entries) =>
      if StrictlySorted(entries) && AllEntryDigests(entries) then Some(DigestsOf(entries)) else None
  }

  /** The binding carries an entry that begins with a byte-order mark. */
  predicate CarriesBom(bytes: seq<Byte>) {
    ParseRaw(bytes).Some? && exists i :: 0 <= i < |ParseRaw(bytes).value| && HasBom(ParseRaw(bytes).value[i])
  }

  lemma {:induction false} UnrepeatedMeansDistinct(entries: seq<seq<Byte>>)
    ensures Unrepeated(entries) <==> forall i, j :: 0 <= i < j < |entries| ==> entries[i] != entries[j]
  {
    if entries != [] {
      var tail := entries[1..];
      UnrepeatedMeansDistinct(tail);
      assert forall i :: 0 <= i < |tail| ==> tail[i] == entries[i + 1];
      assert Unrepeated(entries) <==> entries[0] !in tail && Unrepeated(tail);
      if Unrepeated(entries) {
        forall i, j | 0 <= i < j < |entries| ensures entries[i] != entries[j] {
          assert entries[j] == tail[j - 1];
          assert i > 0 ==> entries[i] == tail[i - 1];
        }
      }
      if forall i, j :: 0 <= i < j < |entries| ==> entries[i] != entries[j] {
        forall i, j | 0 <= i < j < |tail| ensures tail[i] != tail[j] {
          assert tail[i] == entries[i + 1] && tail[j] == entries[j + 1];
        }
      }
    }
  }

  lemma {:induction false} InsertCounts(e: seq<Byte>, sorted: seq<seq<Byte>>)
    ensures |InsertBytes(e, sorted)| == |sorted| + 1
  {
    if sorted != [] && CompareBytes(e, sorted[0]) > 0 {
      InsertCounts(e, sorted[1..]);
    }
  }

  lemma {:induction false} SortCounts(entries: seq<seq<Byte>>)
    ensures |SortBytes(entries)| == |entries|
  {
    if entries != [] {
      SortCounts(entries[1..]);
      InsertCounts(entries[0], SortBytes(entries[1..]));
    }
  }

  /** Short entries always frame, in at most two bytes more than their own. */
  lemma {:induction false} ShortEntriesFrame(entries: seq<seq<Byte>>)
    requires forall e :: e in entries ==> |e| <= 69
    ensures EncodeEach(entries).Some? && |EncodeEach(entries).value| <= 71 * |entries|
  {
    if entries != [] {
      assert entries[0] in entries;
      ShortEntriesFrame(entries[1..]);
    }
  }

  /** Below the length a vector can state, a list is encoded exactly when it is digests, none of them twice. */
  lemma {:induction false} EncodesDistinctDigests(digests: seq<Text>)
    requires 71 * |digests| <= MAX_VECTOR_LENGTH
    ensures EncodeCommitBinding(digests).Some? <==>
      AllDigests(digests) && forall i, j :: 0 <= i < j < |digests| ==> digests[i] != digests[j]
  {
    if AllDigests(digests) {
      var entries := Entries(digests);
      var sorted := SortBytes(entries);
      SortKeeps(entries);
      SortCounts(entries);
      StrictIsDistinct(sorted);
      UnrepeatedMeansDistinct(entries);
      forall i, j | 0 <= i < j < |digests| ensures entries[i] != entries[j] <==> digests[i] != digests[j] {
        assert EntryDigest(entries[i]) == Some(digests[i]) && EntryDigest(entries[j]) == Some(digests[j]);
      }
      forall e | e in sorted ensures |e| <= 69 {
        assert e in entries;
      }
      ShortEntriesFrame(sorted);
    }
  }

  /** Lists of the same digests, accepted, have the same bytes: a binding depends on its set alone. */
  lemma {:induction false} BindingDependsOnSet(a: seq<Text>, b: seq<Text>)
    requires EncodeCommitBinding(a).Some? && EncodeCommitBinding(b).Some? && forall d :: d in a <==> d in b
    ensures EncodeCommitBinding(a) == EncodeCommitBinding(b)
  {
    var ea, eb := Entries(a), Entries(b);
    SortKeeps(ea);
    SortKeeps(eb);
    forall x ensures x in ea <==> x in eb {
      SameEntries(a, b, x);
      SameEntries(b, a, x);
    }
    StrictlySortedUnique(SortBytes(ea), SortBytes(eb));
  }

  lemma {:induction false} SameEntries(a: seq<Text>, b: seq<Text>, x: seq<Byte>)
    requires AllDigests(a) && AllDigests(b) && forall d :: d in a ==> d in b
    ensures x in Entries(a) ==> x in Entries(b)
  {
    if x in Entries(a) {
      var i :| 0 <= i < |a| && Entries(a)[i] == x;
      assert a[i] in a;
      var j :| 0 <= j < |b| && b[j] == a[i];
      assert Entries(b)[j] == x;
    }
  }

  /** Whatever the encoder sorts are the entries of its digests. */
  lemma {:induction false} SortedEntries(digests: seq<Text>, entries: seq<seq<Byte>>)
    requires AllDigests(digests) && entries == SortBytes(Entries(digests))
    ensures AllEntryDigests(entries) && forall i :: 0 <= i < |entries| ==> !HasBom(entries[i])
    ensures forall d :: d in DigestsOf(entries) <==> d in digests
  {
    SortKeeps(Entries(digests));
    forall i | 0 <= i < |entries|
      ensures EntryDigest(entries[i]).Some? && !HasBom(entries[i]) && EntryDigest(entries[i]).value in digests {
      assert entries[i] in entries;
      EntryIsDigest(digests, entries[i]);
    }
    forall d | d in digests ensures d in DigestsOf(entries) {
      DigestSurvives(digests, entries, d);
    }
    forall d | d in DigestsOf(entries) ensures d in digests {
      var i :| 0 <= i < |entries| && DigestsOf(entries)[i] == d;
    }
  }

  lemma {:induction false} EntryIsDigest(digests: seq<Text>, entry: seq<Byte>)
    requires AllDigests(digests) && entry in Entries(digests)
    ensures EntryDigest(entry).Some? && !HasBom(entry) && EntryDigest(entry).value in digests
  {
    var j :| 0 <= j < |digests| && Entries(digests)[j] == entry;
    assert EntryDigest(DigestEntry(digests[j])) == Some(digests[j]);
  }

  lemma {:induction false} DigestSurvives(digests: seq<Text>, entries: seq<seq<Byte>>, d: Text)
    requires AllDigests(digests) && AllEntryDigests(entries) && d in digests
    requires forall x :: x in Entries(digests) ==> x in entries
    ensures d in DigestsOf(entries)
  {
    var j :| 0 <= j < |digests| && digests[j] == d;
    assert Entries(digests)[j] in entries;
    var i :| 0 <= i < |entries| && entries[i] == Entries(digests)[j];
    assert DigestsOf(entries)[i] == d;
  }

  /** What an accepted list encodes to decodes to its digests, sorted by codepoint. */
  lemma {:induction false} DecodeEncodedBinding(digests: seq<Text>)
    requires EncodeCommitBinding(digests).Some?
    ensures var r := DecodeCommitBinding(EncodeCommitBinding(digests).value);
      && r.Some? && (forall d :: d in r.value <==> d in digests)
      && AllDigests(r.value) && StrictlySorted(Entries(r.value))
  {
    var entries := SortBytes(Entries(digests));
    SortedEntries(digests, entries);
    RawHasOneForm(EncodeCommitBinding(digests).value, entries);
    EntriesOfDigests(entries);
  }

  /** Entries without a mark are the entries of their digests. */
  lemma {:induction false} EntriesOfDigests(entries: seq<seq<Byte>>)
    requires AllEntryDigests(entries) && forall i :: 0 <= i < |entries| ==> !HasBom(entries[i])
    ensures AllDigests(DigestsOf(entries)) && Entries(DigestsOf(entries)) == entries
  {
    var r := DigestsOf(entries);
    forall i | 0 <= i < |entries| ensures IsDigest(r[i]) && DigestEntry(r[i]) == entries[i] {
      EntryOfDigest(entries[i]);
    }
  }

  /**
   * A binding that decodes re-encodes to the very same bytes exactly when none of its entries
   * begins with a byte-order mark: the decoder drops one, so with one there are two byte forms.
   */
  lemma {:induction false} BindingReencodesIffNoBom(bytes: seq<Byte>)
    requires DecodeCommitBinding(bytes).Some?
    ensures EncodeCommitBinding(DecodeCommitBinding(bytes).value) == Some(bytes) <==> !CarriesBom(bytes)
  {
    var entries := ParseRaw(bytes).value;
    var digests := DigestsOf(entries);
    RawHasOneForm(bytes, entries);
    if !CarriesBom(bytes) {
      EntriesOfDigests(entries);
      SortStrict(entries);
    } else if EncodeCommitBinding(digests) == Some(bytes) {
      EncodedCarryNoBom(digests);
    }
  }

  /** The encoder never writes a byte-order mark. */
  lemma {:induction false} EncodedCarryNoBom(digests: seq<Text>)
    requires EncodeCommitBinding(digests).Some?
    ensures !CarriesBom(EncodeCommitBinding(digests).value)
  {
    var entries := SortBytes(Entries(digests));
    SortedEntries(digests, entries);
    RawHasOneForm(EncodeCommitBinding(digests).value, entries);
  }

  /** The second form, for every digest: its entry behind a mark is a binding that decodes to the same list. */
  lemma {:induction false} BomIsDropped(digest: Text)
    requires IsDigest(digest)
    ensures EncodeRaw([BOM + DigestEntry(digest)]).Some?
    ensures var bytes := EncodeRaw([BOM + DigestEntry(digest)]).value;
      DecodeCommitBinding(bytes) == Some([digest]) && EncodeCommitBinding([digest]) != Some(bytes)
  {
    var entry := BOM + DigestEntry(digest);
    assert entry[3..] == DigestEntry(digest) && HasBom(entry);
    var first := EncodeOpaque(entry).value;
    var one := [entry];
    assert one[1..] == [] && EncodeEach(one) == Some(first + []);
    var bytes := EncodeRaw([entry]).value;
    RawHasOneForm(bytes, [entry]);
    assert ParseRaw(bytes).value[0] == entry;
    assert CarriesBom(bytes);
    assert EntryDigest(entry) == Some(digest);
    TextsCons(EntryDigest, entry, []);
    assert [entry] + [] == [entry] && DigestsOf([entry]) == [digest];
    BindingReencodesIffNoBom(bytes);
  }

  /** Every digest checked and written out. */
  method WriteEntries(digests: seq<Text>) returns (entries: Option<seq<seq<Byte>>>)
    ensures entries == if AllDigests(digests) then Some(Entries(digests)) else None
  {
    var written: seq<seq<Byte>> := [];
    for i := 0 to |digests|
      invariant AllDigests(digests[..i]) && written == Entries(digests[..i])
    {
      if !IsDigest(digests[i]) {
        return None;
      }
      written := written + [DigestEntry(digests[i])];
    }
    assert digests[..|digests|] == digests;
    return Some(written);
  }

  /** In a sorted list a repeat stands next to itself. */
  method FindRepeat(entries: seq<seq<Byte>>) returns (repeated: bool)
    requires Sorted(entries)
    ensures repeated <==> !StrictlySorted(entries)
  {
    assert entries[0..] == entries;
    var i := 1;
    while i < |entries|
      invariant 1 <= i && (entries != [] ==> i <= |entries|)
      invariant entries != [] ==>
        Sorted(entries[i - 1..]) && (StrictlySorted(entries) <==> StrictlySorted(entries[i - 1..]))
    {
      assert entries[i - 1..][1..] == entries[i..];
      var order := CompareByteStrings(entries[i - 1], entries[i]);
      if order == 0 {
        return true;
      }
      i := i + 1;
    }
    return false;
  }

  function Behind(front: seq<Byte>, rest: Option<seq<Byte>>): Option<seq<Byte>> {
    match rest
    case None => None
    case Some(bytes) => Some(front + bytes)
  }

  lemma {:induction false} BehindNothing(rest: Option<seq<Byte>>)
    ensures Behind([], rest) == rest
  {
    if rest.Some? {
      assert [] + rest.value == rest.value;
    }
  }

  lemma {:induction false} OneMoreFrame(framed: seq<seq<Byte>>, entries: seq<seq<Byte>>, i: nat)
    requires i < |entries| && EncodeEach(entries) == Behind(Concat(framed), EncodeEach(entries[i..]))
    ensures EncodeOpaque(entries[i]).None? ==> EncodeEach(entries).None?
    ensures EncodeOpaque(entries[i]).Some? ==>
      EncodeEach(entries) == Behind(Concat(framed + [EncodeOpaque(entries[i]).value]), EncodeEach(entries[i + 1..]))
  {
    assert entries[i..][1..] == entries[i + 1..];
    if EncodeOpaque(entries[i]).Some? {
      ConcatSnoc(framed, EncodeOpaque(entries[i]).value);
      if EncodeEach(entries[i + 1..]).Some? {
        ConcatAssociative(Concat(framed), EncodeOpaque(entries[i]).value, EncodeEach(entries[i + 1..]).value);
      }
    }
  }

  /** Each entry framed, the frames in one buffer. */
  method FrameEntries(entries: seq<seq<Byte>>) returns (body: Option<seq<Byte>>)
    ensures body == EncodeEach(entries)
  {
    var framed: seq<seq<Byte>> := [];
    assert entries[0..] == entries;
    BehindNothing(EncodeEach(entries));
    for i := 0 to |entries|
      invariant EncodeEach(entries) == Behind(Concat(framed), EncodeEach(entries[i..]))
    {
      OneMoreFrame(framed, entries, i);
      var frame := EncodeOpaque(entries[i]);
      if frame.None? {
        return None;
      }
      framed := framed + [frame.value];
    }
    assert entries[|entries|..] == [];
    assert EncodeEach(entries) == Some(Concat(framed) + []);
    var bytes := ConcatBytes(framed);
    assert bytes + [] == bytes;
    return Some(bytes);
  }

  /** `encodeCommitBinding`: check each digest, sort, look for a repeat, frame. */
  method EncodeBinding(digests: seq<Text>) returns (r: Option<seq<Byte>>)
    ensures r == EncodeCommitBinding(digests)
  {
    var entries := WriteEntries(digests);
    if entries.None? {
      return None;
    }
    var sorted := SortBytes(entries.value);
    SortKeeps(entries.value);
    var repeated := FindRepeat(sorted);
    if repeated {
      return None;
    }
    var body := FrameEntries(sorted);
    return if body.None? then None else EncodeOpaque(body.value);
  }

  function After(front: seq<Text>, rest: Option<seq<Text>>): Option<seq<Text>> {
    match rest
    case None => None
    case Some(digests) => Some(front + digests)
  }

  /** The walk of `decodeCommitBinding` from an offset, given the entry before it. */
  function WalkFrom(read: Interpreter, next: Reader, offset: nat, end: nat,
      previous: Option<seq<Byte>>): Option<seq<Text>>
    requires Advances(next, end) && offset <= end
    decreases end - offset
  {
    if offset == end then Some([])
    else match next(offset)
      case Refused(_) => None
      case Read(entry, length) =>
        if (previous.Some? && CompareBytes(previous.value, entry) >= 0) || read(entry).None? then None
        else After([read(entry).value], WalkFrom(read, next, offset + length, end, Some(entry)))
  }

  /** What the parsed entries amount to, in one step. */
  function Judged(read: Interpreter, entries: Option<seq<seq<Byte>>>, previous: Option<seq<Byte>>): Option<seq<Text>> {
    match entries
    case None => None
    case Some(es) => if StrictlySorted(Following(previous, es)) && AllRead(read, es)
      then Some(Texts(read, es)) else None
  }

  function Following(previous: Option<seq<Byte>>, entries: seq<seq<Byte>>): seq<seq<Byte>> {
    match previous
    case None => entries
    case Some(p) => [p] + entries
  }

  lemma {:induction false} FollowingSorted(previous: Option<seq<Byte>>, entry: seq<Byte>, rest: seq<seq<Byte>>)
    ensures StrictlySorted(Following(previous, [entry] + rest)) <==>
      (previous.None? || CompareBytes(previous.value, entry) < 0) && StrictlySorted(Following(Some(entry), rest))
  {
    if previous.Some? {
      assert Following(previous, [entry] + rest)[1..] == [entry] + rest;
    }
  }

  lemma {:induction false} TextsCons(read: Interpreter, entry: seq<Byte>, rest: seq<seq<Byte>>)
    ensures AllRead(read, [entry] + rest) <==> read(entry).Some? && AllRead(read, rest)
    ensures AllRead(read, [entry] + rest) ==> Texts(read, [entry] + rest) == [read(entry).value] + Texts(read, rest)
  {
    var entries := [entry] + rest;
    if AllRead(read, entries) {
      forall i | 0 <= i < |rest| ensures read(rest[i]).Some? {
        assert entries[i + 1] == rest[i];
      }
      assert entries[0] == entry;
    }
  }

  lemma {:induction false} JudgedBefore(read: Interpreter, entry: seq<Byte>, rest: Option<seq<seq<Byte>>>,
      previous: Option<seq<Byte>>)
    ensures Judged(read, Before(entry, rest), previous) ==
      if (previous.Some? && CompareBytes(previous.value, entry) >= 0) || read(entry).None? then None
      else After([read(entry).value], Judged(read, rest, Some(entry)))
  {
    if rest.Some? {
      FollowingSorted(previous, entry, rest.value);
      TextsCons(read, entry, rest.value);
    }
  }

  /** Walking the body judges what parsing it gives. */
  lemma {:induction false} WalkJudges(read: Interpreter, next: Reader, offset: nat, end: nat,
      previous: Option<seq<Byte>>)
    requires Advances(next, end) && offset <= end
    ensures WalkFrom(read, next, offset, end, previous) == Judged(read, Parse(next, offset, end), previous)
    decreases end - offset
  {
    if offset < end {
      match next(offset) {
        case Refused(_) =>
        case Read(entry, length) =>
          WalkJudges(read, next, offset + length, end, Some(entry));
          JudgedBefore(read, entry, Parse(next, offset + length, end), previous);
      }
    }
  }

  /** `decodeCommitBinding`: entry by entry, each against the one before. */
  method DecodeBinding(bytes: seq<Byte>) returns (r: Option<seq<Text>>)
    ensures r == DecodeCommitBinding(bytes)
  {
    var frame := DecodeOpaque(bytes, 0);
    if frame.Refused? || frame.bytesRead != |bytes| {
      return None;
    }
    var body := frame.value;
    WalkJudges(EntryDigest, Opaques(body), 0, |body|, None);
    r := WalkBinding(EntryDigest, Opaques(body), |body|);
  }

  /** The loop over the body: `next` reads the entry at an offset, `read` the digest in it. */
  method WalkBinding(read: Interpreter, next: Reader, end: nat) returns (r: Option<seq<Text>>)
    requires Advances(next, end)
    ensures r == WalkFrom(read, next, 0, end, None)
  {
    var digests: seq<Text> := [];
    var previous: Option<seq<Byte>> := None;
    var offset := 0;
    AfterNothing(WalkFrom(read, next, 0, end, None));
    while offset < end
      invariant offset <= end
        && WalkFrom(read, next, 0, end, None) == After(digests, WalkFrom(read, next, offset, end, previous))
      decreases end - offset
    {
      var entry := next(offset);
      if entry.Refused? {
        return None;
      }
      if previous.Some? {
        var order := CompareByteStrings(previous.value, entry.value);
        if order >= 0 {
          return None;
        }
      }
      var digest := read(entry.value);
      if digest.None? {
        return None;
      }
      AfterTwice(digests, [digest.value], WalkFrom(read, next, offset + entry.bytesRead, end, Some(entry.value)));
      digests := digests + [digest.value];
      offset := offset + entry.bytesRead;
      previous := Some(entry.value);
    }
    assert digests + [] == digests;
    return Some(digests);
  }

  lemma {:induction false} AfterNothing(rest: Option<seq<Text>>)
    ensures After([], rest) == rest
  {
    if rest.Some? {
      assert [] + rest.value == rest.value;
    }
  }

  lemma {:induction false} AfterTwice(a: seq<Text>, b: seq<Text>, rest: Option<seq<Text>>)
    ensures After(a, After(b, rest)) == After(a + b, rest)
  {
    if rest.Some? {
      ConcatAssociative(a, b, rest.value);
    }
  }

  lemma {:induction false} ConcatSnoc(chunks: seq<seq<Byte>>, chunk: seq<Byte>)
    ensures Concat(chunks + [chunk]) == Concat(chunks) + chunk
  {
    if chunks == [] {
      assert [chunk][1..] == [];
    } else {
      assert (chunks + [chunk])[1..] == chunks[1..] + [chunk];
      ConcatSnoc(chunks[1..], chunk);
    }
  }
}
