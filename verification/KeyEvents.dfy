/**
 * Key events and their digests (packages/crypto/src/log.ts:47-150). The foreign primitives enter as
 * a record of functions; what is assumed of them is a hypothesis of the lemmas that need it.
 */
module KeyEvents {
  import opened Common
  import opened Jcs

  /**
   * SHA-256 as a multibase multihash, Ed25519 verification, the decoders' accept sets and
   * JavaScript's `Number` (None where it does not give an integer), all over texts: base58 text
   * and bytes correspond one to one, and UTF-8 is injective on canonical text.
   */
  datatype Primitives = Primitives(
    hash: Text -> Text,
    verify: (Text, Text, Text) -> bool,
    signatureDecodes: Text -> bool,
    keyDecodes: Text -> bool,
    number: Text -> Option<int>)

  /** Distinct texts have distinct digests. */
  ghost predicate CollisionFree(c: Primitives) {
    forall a, b :: c.hash(a) == c.hash(b) ==> a == b
  }

  /** `Number` reads the decimal form of every safe non-negative integer. */
  ghost predicate ReadsDecimals(c: Primitives) {
    forall n: nat :: n <= MAX_SAFE_INTEGER ==> c.number(Decimal(n)) == Some(n)
  }

  datatype Kind = Icp | Rot

  datatype KeyEvent = KeyEvent(
    id: Text,
    seqNo: Text,
    prior: Option<Text>,
    kind: Kind,
    keys: seq<Text>,
    threshold: Text,
    next: Text,
    signature: seq<Text>)

  /** The event without its signature field, which is what its signatures cover. */
  function Unsigned(e: KeyEvent): KeyEvent {
    e.(signature := [])
  }

  // -------- The JSON values that are digested and signed --------

  function Texts(ts: seq<Text>): (v: Value)
    ensures v.Arr? && |v.items| == |ts|
  {
    Arr(seq(|ts|, i requires 0 <= i < |ts| => Str(ts[i])))
  }

  function PriorValue(prior: Option<Text>): Value {
    match prior
    case None => Null
    case Some(t) => Str(t)
  }

  const ID: Text := Ascii("id")
  const SEQ: Text := Ascii("seq")
  const PRIOR: Text := Ascii("prior")
  const KIND: Text := Ascii("kind")
  const KEYS: Text := Ascii("keys")
  const THRESHOLD: Text := Ascii("threshold")
  const NEXT: Text := Ascii("next")
  const SIGNATURE: Text := Ascii("signature")

  function KindText(kind: Kind): Text {
    if kind.Icp? then Ascii("icp") else Ascii("rot")
  }

  function StateMembers(keys: seq<Text>, threshold: Text): seq<Member> {
    [Member(KEYS, Texts(keys)), Member(THRESHOLD, Str(threshold))]
  }

  /** The establishment data a participant id hashes. */
  function EstablishmentMembers(e: KeyEvent): seq<Member> {
    [Member(SEQ, Str(e.seqNo)), Member(KIND, Str(KindText(e.kind)))] + StateMembers(e.keys, e.threshold)
    + [Member(NEXT, Str(e.next))]
  }

  function UnsignedMembers(e: KeyEvent): seq<Member> {
    EstablishmentMembers(e) + [Member(ID, Str(e.id)), Member(PRIOR, PriorValue(e.prior))]
  }

  function EventMembers(e: KeyEvent): seq<Member> {
    UnsignedMembers(e) + [Member(SIGNATURE, Texts(e.signature))]
  }

  /** The names a participant id is taken over, and the one value among them that is not the event's own. */
  lemma {:induction false} EstablishmentNames(e: KeyEvent)
    ensures forall m :: m in EstablishmentMembers(e) ==>
      m.name in {Ascii("seq"), Ascii("kind"), Ascii("keys"), Ascii("threshold"), Ascii("next")}
    ensures var ms := EstablishmentMembers(e);
      && Member(Ascii("kind"), Str(Ascii(match e.kind case Icp => "icp" case Rot => "rot"))) in ms
      && Member(Ascii("seq"), Str(e.seqNo)) in ms && Member(Ascii("next"), Str(e.next)) in ms
      && Member(Ascii("keys"), Texts(e.keys)) in ms && Member(Ascii("threshold"), Str(e.threshold)) in ms
  {
    var ms := EstablishmentMembers(e);
    assert ms[0] in ms && ms[1] in ms && ms[2] in ms && ms[3] in ms && ms[4] in ms;
  }

  /** A value whose text exists: a record of strings, string lists and nulls under distinct names. */
  ghost predicate Plain(ms: seq<Member>) {
    && DistinctNames(ms)
    && forall i :: 0 <= i < |ms| ==> match ms[i].value
        case Null => true
        case Str(_) => true
        case Arr(items) => forall j :: 0 <= j < |items| ==> items[j].Str?
        case _ => false
  }

  lemma {:induction false} PlainPrints(ms: seq<Member>)
    requires Plain(ms)
    ensures WellFormed(Obj(ms)) && Printable(Obj(ms)) && Canonicalize(Obj(ms)).Some?
  {
    ThrowsIffUnprintable(Obj(ms));
  }

  lemma {:induction false} EventMembersPlain(e: KeyEvent)
    ensures Plain(StateMembers(e.keys, e.threshold))
    ensures Plain(EstablishmentMembers(e))
    ensures Plain(UnsignedMembers(e))
    ensures Plain(EventMembers(e))
  {
    assert KIND[1] != KEYS[1] && KIND[0] != NEXT[0] && KEYS[0] != NEXT[0] && THRESHOLD[0] != SIGNATURE[0];
  }

  /** The canonical text of a record, over which its signatures and digest are taken. */
  function RecordText(ms: seq<Member>): Text {
    match Canonicalize(Obj(ms))
    case Some(t) => t
    case None => []
  }

  function StateText(keys: seq<Text>, threshold: Text): Text { RecordText(StateMembers(keys, threshold)) }

  function UnsignedText(e: KeyEvent): Text { RecordText(UnsignedMembers(e)) }

  /** `eventDigest`: the digest of the complete signed event. */
  function EventDigest(c: Primitives, e: KeyEvent): Text { c.hash(RecordText(EventMembers(e))) }

  /** `deriveParticipantId`. */
  function ParticipantId(c: Primitives, e: KeyEvent): Text {
    Ascii("pk_") + c.hash(RecordText(EstablishmentMembers(e)))
  }

  function StateCommitment(c: Primitives, keys: seq<Text>, threshold: Text): Text {
    c.hash(StateText(keys, threshold))
  }

  // -------- Equal texts mean equal fields --------

  lemma {:induction false} TextsInjective(a: seq<Text>, b: seq<Text>)
    requires Same(Texts(a), Texts(b))
    ensures a == b
  {
    forall i | 0 <= i < |a| ensures a[i] == b[i] {
      assert Same(Texts(a).items[i], Texts(b).items[i]);
    }
  }

  /** An object `canonicalize` accepts, with distinct member names throughout. */
  ghost predicate Recordable(ms: seq<Member>) {
    WellFormed(Obj(ms)) && Canonicalize(Obj(ms)).Some?
  }

  /** Records with one text agree on every defined member they share a name for. */
  lemma {:induction false} SharedMemberSame(a: seq<Member>, b: seq<Member>, i: nat, j: nat)
    requires Recordable(a) && Recordable(b) && RecordText(a) == RecordText(b)
    requires i < |a| && j < |b| && a[i].name == b[j].name && a[i].value != Undefined
    ensures Same(a[i].value, b[j].value)
  {
    CanonicalTextIffSame(Obj(a), Obj(b));
    var m := a[i];
    assert m in a && m.value != Undefined;
    var n :| n in b && Agree(m, n);
    NamesAMember(b, n, b[j]);
  }

  lemma {:induction false} FieldAgrees(a: seq<Member>, b: seq<Member>, i: nat, j: nat)
    requires Plain(a) && Plain(b) && RecordText(a) == RecordText(b)
    requires i < |a| && j < |b| && a[i].name == b[j].name
    ensures Same(a[i].value, b[j].value)
  {
    PlainPrints(a);
    PlainPrints(b);
    SharedMemberSame(a, b, i, j);
  }

  lemma {:induction false} StateTextInjective(k1: seq<Text>, t1: Text, k2: seq<Text>, t2: Text)
    requires StateText(k1, t1) == StateText(k2, t2)
    ensures k1 == k2 && t1 == t2
  {
    var a, b := StateMembers(k1, t1), StateMembers(k2, t2);
    assert Plain(a) && Plain(b);
    FieldAgrees(a, b, 0, 0);
    FieldAgrees(a, b, 1, 1);
    TextsInjective(k1, k2);
  }

  lemma {:induction false} KindTextInjective(a: Kind, b: Kind)
    requires KindText(a) == KindText(b)
    ensures a == b
  {
    assert Ascii("icp")[0] != Ascii("rot")[0];
  }

  /** The establishment members are the first five of every larger record of the event. */
  lemma {:induction false} EstablishmentFieldsAgree(a: seq<Member>, b: seq<Member>, e: KeyEvent, f: KeyEvent)
    requires Plain(a) && Plain(b) && RecordText(a) == RecordText(b)
    requires |a| >= 5 && |b| >= 5 && a[..5] == EstablishmentMembers(e) && b[..5] == EstablishmentMembers(f)
    ensures e.seqNo == f.seqNo && e.kind == f.kind && e.keys == f.keys && e.threshold == f.threshold && e.next == f.next
  {
    forall i | 0 <= i < 5
      ensures a[i] == EstablishmentMembers(e)[i] && b[i] == EstablishmentMembers(f)[i] && Same(a[i].value, b[i].value) {
      assert a[i] == a[..5][i] && b[i] == b[..5][i];
      FieldAgrees(a, b, i, i);
    }
    assert Same(Str(e.seqNo), Str(f.seqNo)) by { assert a[0] == Member(SEQ, Str(e.seqNo))
      && b[0] == Member(SEQ, Str(f.seqNo)); }
    assert Same(Str(KindText(e.kind)), Str(KindText(f.kind))) by { assert a[1].value == Str(KindText(e.kind))
      && b[1].value == Str(KindText(f.kind)); }
    assert Same(Texts(e.keys), Texts(f.keys)) by { assert a[2].value == Texts(e.keys) && b[2].value == Texts(f.keys); }
    assert Same(Str(e.threshold), Str(f.threshold)) by { assert a[3].value == Str(e.threshold)
      && b[3].value == Str(f.threshold); }
    assert Same(Str(e.next), Str(f.next)) by { assert a[4].value == Str(e.next) && b[4].value == Str(f.next); }
    KindTextInjective(e.kind, f.kind);
    TextsInjective(e.keys, f.keys);
  }

  lemma {:induction false} UnsignedTextInjective(e: KeyEvent, f: KeyEvent)
    requires UnsignedText(e) == UnsignedText(f)
    ensures Unsigned(e) == Unsigned(f)
  {
    var a, b := UnsignedMembers(e), UnsignedMembers(f);
    EventMembersPlain(e);
    EventMembersPlain(f);
    EstablishmentFieldsAgree(a, b, e, f);
    FieldAgrees(a, b, 5, 5);
    FieldAgrees(a, b, 6, 6);
  }

  /** Collision-free digests name events, states and inceptions uniquely. */
  lemma {:induction false} EventDigestInjective(c: Primitives, e: KeyEvent, f: KeyEvent)
    requires CollisionFree(c) && EventDigest(c, e) == EventDigest(c, f)
    ensures e == f
  {
    var a, b := EventMembers(e), EventMembers(f);
    EventMembersPlain(e);
    EventMembersPlain(f);
    assert a[..5] == EstablishmentMembers(e) && b[..5] == EstablishmentMembers(f);
    EstablishmentFieldsAgree(a, b, e, f);
    FieldAgrees(a, b, 5, 5);
    FieldAgrees(a, b, 6, 6);
    FieldAgrees(a, b, 7, 7);
    TextsInjective(e.signature, f.signature);
  }

  lemma {:induction false} StateCommitmentInjective(c: Primitives, k1: seq<Text>, t1: Text, k2: seq<Text>, t2: Text)
    requires CollisionFree(c) && StateCommitment(c, k1, t1) == StateCommitment(c, k2, t2)
    ensures k1 == k2 && t1 == t2
  {
    StateTextInjective(k1, t1, k2, t2);
  }

  lemma {:induction false} ParticipantIdInjective(c: Primitives, e: KeyEvent, f: KeyEvent)
    requires CollisionFree(c) && ParticipantId(c, e) == ParticipantId(c, f)
    ensures e.seqNo == f.seqNo && e.kind == f.kind && e.keys == f.keys && e.threshold == f.threshold && e.next == f.next
  {
    var a, b := EstablishmentMembers(e), EstablishmentMembers(f);
    EventMembersPlain(e);
    EventMembersPlain(f);
    CancelPrefix(Ascii("pk_"), c.hash(RecordText(a)), c.hash(RecordText(b)));
    assert a[..5] == a && b[..5] == b;
    EstablishmentFieldsAgree(a, b, e, f);
  }
}
