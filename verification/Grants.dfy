/** Grants, revocations and the view a verifier reads them through (protocol index.ts, resolver.ts). */
module Grants {
  import opened Common
  import opened Jcs
  import opened Metering
  import opened KeyEvents
  import opened Records

  const MAX_GRANT_CHAIN_LINKS: nat := 4
  const MAX_GRANT_ABILITIES: nat := 32
  const MAX_RECORD_SIGNATURES: nat := 8
  /** `MAX_REVOCATION_CANDIDATE_VERIFICATIONS`, the sub-allowance of one revocation lookup. */
  const CANDIDATE_ALLOWANCE: nat := 2 * MAX_KEY_EVENT_KEYS

  const AUD: Text := Ascii("aud")

  /** One link of a delegation chain; `aud` is the well-formed audience caveat as a list, if any. */
  datatype Grant = Grant(
    subjectId: Text,
    issuerId: Text,
    audienceId: Text,
    abilities: seq<Text>,
    aud: Option<seq<Text>>,
    foreignCaveats: seq<Member>,
    proof: Option<Text>,
    anchor: Option<Text>,
    issuedAt: Text,
    expiresAt: Option<Text>,
    signature: seq<Text>)

  datatype Revocation = Revocation(
    revokes: Text,
    issuerId: Text,
    anchor: Text,
    revokedAt: Text,
    reason: Option<Text>,
    signature: seq<Text>)

  /** What a view may hand back where a revocation was asked for. */
  datatype Candidate = Unparsable | Parsed(revocation: Revocation)

  datatype LogAnswer = Log(events: seq<KeyEvent>) | NoLog | LogUnreachable

  datatype RevocationAnswer = Candidates(candidates: seq<Candidate>) | RevocationsUnreachable

  /** A deterministic view: an untrusted host's answers, one per question. */
  datatype View = View(keyLog: Text -> LogAnswer, revocations: (Text, seq<Text>) -> RevocationAnswer)

  // -------- Principals and abilities --------

  const PARTICIPANT_PREFIX: Text := Ascii("pk_")
  const E2EE: Text := Ascii("e2ee")

  predicate IsParticipant(principal: Text) {
    PARTICIPANT_PREFIX <= principal
  }

  predicate IsE2eeAbility(ability: Text) {
    ability == E2EE || E2EE + [SLASH] <= ability
  }

  /** Path-prefix cover: "directory" covers "directory/curate" and never "directoryx". */
  predicate AbilityCovers(parent: Text, child: Text) {
    parent == child || parent + [SLASH] <= child
  }

  /** The pieces of a text between its slashes, as `split("/")` gives them: one at least. */
  function Segments(t: Text): (pieces: seq<Text>)
    ensures pieces != []
  {
    if t == [] then [[]]
    else
      var rest := Segments(t[1..]);
      if t[0] == SLASH then [[]] + rest else Lead(t[0], rest)
  }

  /** The pieces with a character more in front of the first. */
  function Lead(c: CodeUnit, pieces: seq<Text>): (r: seq<Text>)
    requires pieces != []
    ensures r != []
  {
    [[c] + pieces[0]] + pieces[1..]
  }

  lemma {:induction false} LeadKeepsRest(c: CodeUnit, pieces: seq<Text>, more: seq<Text>)
    requires pieces != []
    ensures Lead(c, pieces + more) == Lead(c, pieces) + more
  {
    assert (pieces + more)[0] == pieces[0] && (pieces + more)[1..] == pieces[1..] + more;
  }

  lemma {:induction false} FirstSegment(t: Text)
    requires t != []
    ensures t[0] == SLASH ==> Segments(t)[0] == [] && Segments(t)[1..] == Segments(t[1..])
    ensures t[0] != SLASH ==> Segments(t)[0] != [] && Segments(t)[0][0] == t[0]
    ensures t[0] != SLASH ==> Segments(t[1..]) == [Segments(t)[0][1..]] + Segments(t)[1..]
  {
    var rest := Segments(t[1..]);
    if t[0] != SLASH {
      assert ([t[0]] + rest[0])[1..] == rest[0];
      assert rest == [rest[0]] + rest[1..];
    }
  }

  lemma {:induction false} SegmentsJoin(a: Text, b: Text)
    ensures Segments(a + [SLASH] + b) == Segments(a) + Segments(b)
  {
    var whole := a + [SLASH] + b;
    if a == [] {
      assert whole[1..] == b;
    } else {
      SegmentsJoin(a[1..], b);
      assert whole[0] == a[0] && whole[1..] == a[1..] + [SLASH] + b;
      SegmentsPrepend(a, whole, Segments(b));
    }
  }

  lemma {:induction false} SegmentsPrepend(a: Text, whole: Text, more: seq<Text>)
    requires a != [] && whole != [] && a[0] == whole[0]
    requires Segments(whole[1..]) == Segments(a[1..]) + more
    ensures Segments(whole) == Segments(a) + more
  {
    var rest := Segments(a[1..]);
    if a[0] == SLASH {
      ConcatAssociative([[]], rest, more);
    } else {
      LeadKeepsRest(a[0], rest, more);
    }
  }

  /** Texts whose segments agree as far as the first one's go start alike. */
  lemma {:induction false} SegmentsStart(a: Text, b: Text)
    requires Segments(a) <= Segments(b)
    ensures a == b || a + [SLASH] <= b
  {
    if b != [] { FirstSegment(b); }
    if a == [] {
      assert Segments(a)[0] == Segments(b)[0];
    } else {
      FirstSegment(a);
      assert Segments(a)[0] == Segments(b)[0];
      assert b != [] && a[0] == b[0];
      assert Segments(a)[1..] <= Segments(b)[1..];
      SegmentsStart(a[1..], b[1..]);
      assert a == [a[0]] + a[1..] && b == [b[0]] + b[1..];
    }
  }

  /** One ability covers another exactly when its segments come first in the other's. */
  lemma {:induction false} CoverIsBySegments(parent: Text, child: Text)
    ensures AbilityCovers(parent, child) <==> Segments(parent) <= Segments(child)
  {
    if parent + [SLASH] <= child {
      SegmentsJoin(parent, child[|parent| + 1..]);
      assert child == parent + [SLASH] + child[|parent| + 1..];
    }
    if Segments(parent) <= Segments(child) {
      SegmentsStart(parent, child);
    }
  }

  /** The abilities of the `e2ee` namespace are those whose first segment names it. */
  lemma {:induction false} E2eeIsFirstSegment(ability: Text)
    ensures IsE2eeAbility(ability) <==> Segments(ability)[0] == E2EE
  {
    E2eeIsOneSegment();
    CoverIsBySegments(E2EE, ability);
  }

  lemma {:induction false} E2eeIsOneSegment()
    ensures Segments(E2EE) == [E2EE]
  {
    OneSegment(E2EE);
  }

  lemma {:induction false} OneSegment(t: Text)
    requires SLASH !in t
    ensures Segments(t) == [t]
  {
    if t != [] {
      OneSegment(t[1..]);
      assert t == [t[0]] + t[1..];
    }
  }

  lemma {:induction false} AbilityCoversTransitive(a: Text, b: Text, c: Text)
    requires AbilityCovers(a, b) && AbilityCovers(b, c)
    ensures AbilityCovers(a, c)
  {
    if a != b && b != c {
      assert b == c[..|b|];
    }
  }

  predicate Covered(parent: seq<Text>, ability: Text) {
    exists p :: p in parent && AbilityCovers(p, ability)
  }

  /** Every ability of the child is covered by some ability of the parent. */
  predicate CoversAll(parent: seq<Text>, child: seq<Text>) {
    forall ability :: ability in child ==> Covered(parent, ability)
  }

  lemma {:induction false} CoversAllTransitive(a: seq<Text>, b: seq<Text>, c: seq<Text>)
    requires CoversAll(a, b) && CoversAll(b, c)
    ensures CoversAll(a, c)
  {
    forall ability | ability in c ensures Covered(a, ability) {
      assert Covered(b, ability);
      var q :| q in b && AbilityCovers(q, ability);
      assert Covered(a, q);
      var p :| p in a && AbilityCovers(p, q);
      AbilityCoversTransitive(p, q, ability);
    }
  }

  lemma {:induction false} CoversAllReflexive(a: seq<Text>)
    ensures CoversAll(a, a)
  {
    forall ability | ability in a ensures Covered(a, ability) {
      assert AbilityCovers(ability, ability);
    }
  }

  // -------- Schema rules --------

  /** The cross-field rules of `grantSchema` and its bounds. */
  predicate GrantSchema(g: Grant) {
    var keyAudience := !IsParticipant(g.audienceId);
    var credentialLink := forall i :: 0 <= i < |g.abilities| ==> IsE2eeAbility(g.abilities[i]);
    && IsParticipant(g.subjectId)
    && 1 <= |g.abilities| <= MAX_GRANT_ABILITIES
    && 1 <= |g.signature| <= MAX_RECORD_SIGNATURES
    && (keyAudience ==> g.expiresAt.Some?)
    && (credentialLink ==> g.aud.None? && g.foreignCaveats == [])
    && (keyAudience && !credentialLink ==> g.aud.Some?)
    && (g.aud.Some? ==> g.aud.value != [] && forall i :: 0 <= i < |g.aud.value| ==> IsParticipant(g.aud.value[i]))
    && (IsParticipant(g.issuerId) <==> g.anchor.Some?)
  }

  // -------- Records --------

  function Optional(t: Option<Text>): Value {
    match t
    case Some(text) => Str(text)
    case None => Undefined
  }

  function GrantRecord(g: Grant): SetRecord {
    var aud := match g.aud case Some(ids) => [Member(AUD, Texts(ids))] case None => [];
    SetRecord([
      Member(Ascii("subjectId"), Str(g.subjectId)),
      Member(Ascii("issuerId"), Str(g.issuerId)),
      Member(Ascii("audienceId"), Str(g.audienceId)),
      Member(Ascii("abilities"), Texts(g.abilities)),
      Member(Ascii("caveats"), Obj(aud + g.foreignCaveats)),
      Member(Ascii("proof"), PriorValue(g.proof)),
      Member(ANCHOR, Optional(g.anchor)),
      Member(Ascii("issuedAt"), Str(g.issuedAt)),
      Member(Ascii("expiresAt"), Optional(g.expiresAt))], g.signature)
  }

  function GrantDigest(c: Primitives, g: Grant): Text {
    RecordDigest(c, GrantRecord(g))
  }

  function RevocationRecord(r: Revocation): SetRecord {
    SetRecord([
      Member(Ascii("revokes"), Str(r.revokes)),
      Member(Ascii("issuerId"), Str(r.issuerId)),
      Member(ANCHOR, Str(r.anchor)),
      Member(Ascii("revokedAt"), Str(r.revokedAt)),
      Member(Ascii("reason"), Optional(r.reason))], r.signature)
  }

  // -------- What the signatures and digests cover --------

  /** The caveats map of a grant, as its record carries it. */
  function CaveatsOf(g: Grant): seq<Member> {
    (match g.aud case Some(ids) => [Member(AUD, Texts(ids))] case None => []) + g.foreignCaveats
  }

  /** The grants agree in every field, their caveats up to order. */
  ghost predicate SameGrant(g: Grant, h: Grant) {
    && g.subjectId == h.subjectId && g.issuerId == h.issuerId && g.audienceId == h.audienceId
    && g.abilities == h.abilities && Same(Obj(CaveatsOf(g)), Obj(CaveatsOf(h)))
    && g.proof == h.proof && g.anchor == h.anchor && g.issuedAt == h.issuedAt && g.expiresAt == h.expiresAt
  }

  ghost predicate SameRevocation(r: Revocation, q: Revocation) {
    && r.revokes == q.revokes && r.issuerId == q.issuerId && r.anchor == q.anchor
    && r.revokedAt == q.revokedAt && r.reason == q.reason
  }

  lemma {:induction false} MemberAgrees(a: seq<Member>, b: seq<Member>, i: nat, m: Member, n: Member)
    requires Recordable(a) && Recordable(b) && RecordText(a) == RecordText(b)
    requires i < |a| && i < |b| && a[i] == m && b[i] == n && m.name == n.name && m.value != Undefined
    ensures Same(m.value, n.value)
  {
    SharedMemberSame(a, b, i, i);
  }

  lemma {:induction false} OptionalAgrees(a: seq<Member>, b: seq<Member>, i: nat, name: Text, x: Option<Text>,
      y: Option<Text>)
    requires Recordable(a) && Recordable(b) && RecordText(a) == RecordText(b)
    requires i < |a| && i < |b| && a[i] == Member(name, Optional(x)) && b[i] == Member(name, Optional(y))
    ensures x == y
  {
    if x.Some? { SharedMemberSame(a, b, i, i); }
    if y.Some? { SharedMemberSame(b, a, i, i); }
  }

  /** The nine members of a grant's record, where they stand. */
  ghost predicate HoldsGrant(a: seq<Member>, g: Grant) {
    && |a| >= 9
    && a[0] == Member(Ascii("subjectId"), Str(g.subjectId)) && a[1] == Member(Ascii("issuerId"), Str(g.issuerId))
    && a[2] == Member(Ascii("audienceId"), Str(g.audienceId)) && a[3] == Member(Ascii("abilities"), Texts(g.abilities))
    && a[4] == Member(Ascii("caveats"), Obj(CaveatsOf(g))) && a[5] == Member(Ascii("proof"), PriorValue(g.proof))
    && a[6] == Member(ANCHOR, Optional(g.anchor)) && a[7] == Member(Ascii("issuedAt"), Str(g.issuedAt))
    && a[8] == Member(Ascii("expiresAt"), Optional(g.expiresAt))
  }

  /** Records of one text whose first members are two grants' are records of one grant. */
  lemma {:induction false} GrantFieldsAgree(a: seq<Member>, b: seq<Member>, g: Grant, h: Grant)
    requires Recordable(a) && Recordable(b) && RecordText(a) == RecordText(b)
    requires HoldsGrant(a, g) && HoldsGrant(b, h)
    ensures SameGrant(g, h)
  {
    MemberAgrees(a, b, 0, a[0], b[0]);
    MemberAgrees(a, b, 1, a[1], b[1]);
    MemberAgrees(a, b, 2, a[2], b[2]);
    MemberAgrees(a, b, 3, a[3], b[3]);
    TextsInjective(g.abilities, h.abilities);
    MemberAgrees(a, b, 4, a[4], b[4]);
    MemberAgrees(a, b, 5, a[5], b[5]);
    OptionalAgrees(a, b, 6, ANCHOR, g.anchor, h.anchor);
    MemberAgrees(a, b, 7, a[7], b[7]);
    OptionalAgrees(a, b, 8, Ascii("expiresAt"), g.expiresAt, h.expiresAt);
  }

  lemma {:induction false} RecordHoldsGrant(g: Grant)
    ensures HoldsGrant(GrantRecord(g).fields, g) && |GrantRecord(g).fields| == 9
  {}

  /** A grant's signatures cover every field of it. */
  lemma {:induction false} GrantTextCoversEveryField(g: Grant, h: Grant)
    requires Recordable(GrantRecord(g).fields) && Recordable(GrantRecord(h).fields)
    requires SigningText(GrantRecord(g)) == SigningText(GrantRecord(h))
    ensures SameGrant(g, h)
  {
    RecordHoldsGrant(g);
    RecordHoldsGrant(h);
    GrantFieldsAgree(GrantRecord(g).fields, GrantRecord(h).fields, g, h);
  }

  function Complete(record: SetRecord): seq<Member> {
    record.fields + [Member(SIGNATURE, Texts(record.signature))]
  }

  lemma {:induction false} CompleteHoldsGrant(g: Grant)
    ensures var a := Complete(GrantRecord(g));
      HoldsGrant(a, g) && |a| == 10 && a[9] == Member(SIGNATURE, Texts(g.signature))
  {
    RecordHoldsGrant(g);
  }

  /** The digest a proof names a parent by determines the parent, signatures and all. */
  lemma {:induction false} GrantDigestInjective(c: Primitives, g: Grant, h: Grant)
    requires CollisionFree(c) && GrantDigest(c, g) == GrantDigest(c, h)
    requires Recordable(Complete(GrantRecord(g))) && Recordable(Complete(GrantRecord(h)))
    ensures SameGrant(g, h) && g.signature == h.signature
  {
    CompleteHoldsGrant(g);
    CompleteHoldsGrant(h);
    var a, b := Complete(GrantRecord(g)), Complete(GrantRecord(h));
    GrantFieldsAgree(a, b, g, h);
    MemberAgrees(a, b, 9, a[9], b[9]);
    TextsInjective(g.signature, h.signature);
  }

  /** A revocation's signatures cover every field of it. */
  lemma {:induction false} RevocationTextCoversEveryField(r: Revocation, q: Revocation)
    requires Recordable(RevocationRecord(r).fields) && Recordable(RevocationRecord(q).fields)
    requires SigningText(RevocationRecord(r)) == SigningText(RevocationRecord(q))
    ensures SameRevocation(r, q)
  {
    var a, b := RevocationRecord(r).fields, RevocationRecord(q).fields;
    forall i | 0 <= i < 4 ensures Same(a[i].value, b[i].value) {
      SharedMemberSame(a, b, i, i);
    }
    assert Same(a[0].value, b[0].value) && Same(a[1].value, b[1].value);
    assert Same(a[2].value, b[2].value) && Same(a[3].value, b[3].value);
    OptionalAgrees(a, b, 4, Ascii("reason"), r.reason, q.reason);
  }

  /** A field the grant does not have is not in the text that is signed: neither empty nor null. */
  lemma {:induction false} AbsentFieldsAreUnsigned(g: Grant)
    ensures var fields := GrantRecord(g).fields;
      && (g.anchor.None? ==> SigningText(GrantRecord(g)) == RecordText(fields[..6] + fields[7..]))
      && (g.expiresAt.None? ==> SigningText(GrantRecord(g)) == RecordText(fields[..8]))
  {
    RecordHoldsGrant(g);
    var fields := GrantRecord(g).fields;
    if g.anchor.None? {
      UndefinedIsLeftOut(fields[..6], fields[6], fields[7..]);
      assert fields == fields[..6] + [fields[6]] + fields[7..];
    }
    if g.expiresAt.None? {
      UndefinedIsLeftOut(fields[..8], fields[8], []);
      assert fields == fields[..8] + [fields[8]] + [] && fields[..8] + [] == fields[..8];
    }
  }

  /** A revocation without a reason is signed without one. */
  lemma {:induction false} AbsentReasonIsUnsigned(r: Revocation)
    requires r.reason.None?
    ensures SigningText(RevocationRecord(r)) == RecordText(RevocationRecord(r).fields[..4])
  {
    var fields := RevocationRecord(r).fields;
    UndefinedIsLeftOut(fields[..4], fields[4], []);
    assert fields == fields[..4] + [fields[4]] + [] && fields[..4] + [] == fields[..4];
  }
}
