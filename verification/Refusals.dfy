/**
 * What a refused chain did wrong (packages/trust/src/resolver.ts:1131-1386): the reason given is true
 * of the chain, and where it concerns a link, every link nearer the leaf is in order.
 */
module Refusals {
  import opened Common
  import opened KeyEvents
  import opened SoundLogs
  import opened Grants
  import opened Resolver
  import opened Refinement
  import opened Signers
  import opened Attenuation

  /** The instant the links are judged at. */
  ghost predicate JudgedAt(o: Options, at: int) {
    if o.purpose == Evidence then o.at == Some(at) else at == o.now
  }

  // -------- What each reason says --------

  /** A reason found in the chain's own fields. */
  ghost predicate TrueOfShape(o: Options, chain: seq<Grant>, reason: Reason) {
    match reason
    case ChainEmpty => chain == []
    case ChainTooLong => |chain| > 4
    case Malformed => exists i :: 0 <= i < |chain| && !WellMade(chain[i])
    case E2eeNotRequestValid =>
      o.purpose == Request && exists i, ability :: 0 <= i < |chain| && ability in chain[i].abilities && InE2ee(ability)
    case RecordTimeRequired => o.purpose == Evidence && o.at.None?
    case ChainIncomplete => chain != [] && chain[|chain| - 1].proof != None
    case RootNotSelfIssued => chain != [] && chain[|chain| - 1].issuerId != chain[|chain| - 1].subjectId
    case IssuerNotParentAudience => exists i :: 0 <= i < |chain| - 1 && chain[i].issuerId != chain[i + 1].audienceId
    case SubjectDrift => exists i :: 0 <= i < |chain| - 1 && chain[i].subjectId != chain[i + 1].subjectId
    case AbilityEscalation =>
      exists i :: 0 <= i < |chain| - 1 && !WithinSegments(chain[i + 1].abilities, chain[i].abilities)
    case AudEscalation => o.purpose != Evidence && !AudiencesNarrow(chain)
    case AudienceNotAdmitted => o.purpose != Evidence && exists i :: 0 <= i < |chain| && NotAdmittedBy(o, chain[i])
    case AudienceRequired => o.purpose == Request && o.requireAud && forall i :: 0 <= i < |chain| ==> chain[i].aud.None?
    case _ => false
  }

  ghost predicate NotAdmittedBy(o: Options, link: Grant) {
    link.aud.Some? && (o.verifierId.None? || o.verifierId.value !in link.aud.value)
  }

  /** A reason found in a link's window or its caveats. */
  ghost predicate TrueOfTerms(env: Env, o: Options, link: Grant, reason: Reason) {
    match reason
    case Expired => exists at :: JudgedAt(o, at) && !OpenAt(env, link, at)
    case NotYetIssued => o.purpose == Evidence && exists at :: JudgedAt(o, at) && at < env.instant(link.issuedAt)
    case CaveatRejected => o.purpose != Evidence && link.foreignCaveats != []
      && !(o.evaluateCaveats.Some? && o.evaluateCaveats.value(link))
    case _ => false
  }

  /** A reason found in who signed a link. */
  ghost predicate TrueOfSignature(env: Env, link: Grant, reason: Reason) {
    match reason
    case IssuerKeyLogUnresolved => NoCopy(env, link)
    case IssuerKeyLogParticipantMismatch => IsParticipant(link.issuerId) && SomebodyElses(env, link.issuerId)
    case IssuerAnchorUnknown => AnchoredBeyond(env, link)
    case SignatureInvalid => IsParticipant(link.issuerId) && !SignedByIssuer(env, link) && AnchorNamesEvent(env, link)
    case KeyIssuerSignatureInvalid => !IsParticipant(link.issuerId) && !SignedByIssuer(env, link)
    case Malformed => IsParticipant(link.issuerId) && link.anchor.None?
    case _ => false
  }

  /** A reason found in one link: its terms, its signatures, or what its child or its issuers say of it. */
  ghost predicate TrueOfLink(env: Env, o: Options, chain: seq<Grant>, i: nat, reason: Reason)
    requires i < |chain|
  {
    || TrueOfTerms(env, o, chain[i], reason)
    || TrueOfSignature(env, chain[i], reason)
    || (SignedByIssuer(env, chain[i]) && TrueOfProof(env, chain, i, reason))
    || (SignedByIssuer(env, chain[i]) && reason == Revoked && RevokedIn(env, chain, i))
  }

  ghost predicate TrueOfProof(env: Env, chain: seq<Grant>, i: nat, reason: Reason)
    requires i < |chain|
  {
    reason == ProofMismatch && i > 0 && chain[i - 1].proof != Some(GrantDigest(env.c, chain[i]))
  }

  ghost predicate SomebodyElses(env: Env, id: Text) {
    var log := env.view.keyLog(id);
    log.Log? && SoundLog(env.c, log.events) && log.events[0].id != id
  }

  ghost predicate AnchorNamesEvent(env: Env, link: Grant) {
    link.anchor.Some? && exists events, i ::
      OwnLog(env, link.issuerId, events) && 0 <= i < |events| && EventDigest(env.c, events[i]) == link.anchor.value
  }

  ghost predicate RevokedIn(env: Env, chain: seq<Grant>, i: nat)
    requires i < |chain|
  {
    var digest, revokers := GrantDigest(env.c, chain[i]), Revokers(chain, i);
    var answer := env.view.revocations(digest, revokers);
    answer.Candidates? && exists c :: c in answer.candidates && Revokes(env, c, digest, set id | id in revokers)
  }

  /** A candidate that matters is signed under a log out of reach. */
  ghost predicate OutOfReach(env: Env, candidates: seq<Candidate>, digest: Text, requested: set<Text>) {
    exists c :: c in candidates && SpeaksOf(c, digest, requested)
      && env.view.keyLog(c.revocation.issuerId).LogUnreachable?
  }

  /** The view failed at this link, and its failure is the caller's. */
  ghost predicate FailedAt(env: Env, chain: seq<Grant>, i: nat)
    requires i < |chain|
  {
    var digest, revokers := GrantDigest(env.c, chain[i]), Revokers(chain, i);
    var answer := env.view.revocations(digest, revokers);
    || SignerOutOfReach(env, chain[i])
    || answer.RevocationsUnreachable? || |answer.candidates| > |set id | id in revokers|
    || OutOfReach(env, answer.candidates, digest, set id | id in revokers)
  }

  // -------- Shape --------

  lemma {:induction false} PairsReasonIsTrue(o: Options, chain: seq<Grant>, i: nat)
    requires i < |chain|
    ensures PairsError(chain, i).Some? ==> TrueOfShape(o, chain, PairsError(chain, i).value)
    decreases |chain| - i
  {
    if i < |chain| - 1 {
      CoversAllIsWithin(chain[i + 1].abilities, chain[i].abilities);
      PairsReasonIsTrue(o, chain, i + 1);
    }
  }

  lemma {:induction false} AudReasonIsTrue(o: Options, chain: seq<Grant>)
    ensures AudError(o, chain).Some? ==> TrueOfShape(o, chain, AudError(o, chain).value)
  {
    EffectiveAudWalk(chain, 0);
    NarrowFromStart(chain);
    if o.purpose != Evidence && EffectiveAud(chain, 0).Effective? && EffectiveAud(chain, 0).aud.Some? {
      var j :| 0 <= j < |chain| && chain[j].aud == EffectiveAud(chain, 0).aud;
      assert AudError(o, chain).Some? ==> NotAdmittedBy(o, chain[j]);
    }
  }

  lemma {:induction false} ShapeReasonIsTrue(o: Options, chain: seq<Grant>)
    ensures StructureReason(o, chain).Some? ==> TrueOfShape(o, chain, StructureReason(o, chain).value)
  {
    if chain != [] {
      PairsReasonIsTrue(o, chain, 0);
      AudReasonIsTrue(o, chain);
    }
    SchemaReasonIsTrue(chain);
    E2eeReasonIsTrue(chain);
  }

  lemma {:induction false} SchemaReasonIsTrue(chain: seq<Grant>)
    ensures (exists i :: 0 <= i < |chain| && !GrantSchema(chain[i])) ==>
      exists i :: 0 <= i < |chain| && !WellMade(chain[i])
  {
    if i :| 0 <= i < |chain| && !GrantSchema(chain[i]) {
      SchemaIff(chain[i]);
    }
  }

  lemma {:induction false} E2eeReasonIsTrue(chain: seq<Grant>)
    ensures (exists i :: 0 <= i < |chain| && NamesE2ee(chain[i])) ==>
      exists i, ability :: 0 <= i < |chain| && ability in chain[i].abilities && InE2ee(ability)
  {
    if i :| 0 <= i < |chain| && NamesE2ee(chain[i]) {
      NamesE2eeIff(chain[i]);
    }
  }

  // -------- Links --------

  lemma {:induction false} PreludeReasonIsTrue(env: Env, o: Options, link: Grant)
    requires o.purpose == Evidence ==> o.at.Some?
    ensures PreludeReason(env, o, link).Some? ==> TrueOfTerms(env, o, link, PreludeReason(env, o, link).value)
  {
    assert JudgedAt(o, WindowAt(o));
  }

  /** A link whose signer is known: the anchor names an event of the signer's log, or none. */
  lemma {:induction false} AnchorNamedOrNot(env: Env, link: Grant)
    requires IsParticipant(link.issuerId) && link.anchor.Some? && JudgeSigner(env, link.issuerId).verdict.Signer?
    ensures AnchoredBeyond(env, link) || AnchorNamesEvent(env, link)
  {
    var answer := JudgeSigner(env, link.issuerId).verdict;
    SignerIsBound(env, link.issuerId, answer.states);
    var events :| OwnLog(env, link.issuerId, events) && Establishes(env.c, events, answer.states);
    if !NamesNone(env.c, events, link.anchor.value) {
      var i :| 0 <= i < |events| && EventDigest(env.c, events[i]) == link.anchor.value;
    }
  }

  /** The view has no way to tell who signed the link. */
  ghost predicate SignerOutOfReach(env: Env, link: Grant) {
    IsParticipant(link.issuerId) && env.view.keyLog(link.issuerId).LogUnreachable?
  }

  /** What the outcome of a link's signature check says of it. */
  ghost predicate TrueSignature(env: Env, link: Grant, outcome: LinkOutcome) {
    match outcome
    case LinkFails(reason) => TrueOfSignature(env, link, reason)
    case LinkThrew => SignerOutOfReach(env, link)
    case LinkPasses => SignedByIssuer(env, link)
  }

  lemma {:induction false} UnknownSignerIsTrue(env: Env, link: Grant)
    requires IsParticipant(link.issuerId) && !JudgeSigner(env, link.issuerId).verdict.Signer?
    ensures TrueSignature(env, link, IdealSignature(env, link))
  {
    SignerRefusals(env, link.issuerId);
    SignerCostBound(env, link.issuerId);
  }

  lemma {:induction false} KnownSignerIsTrue(env: Env, link: Grant)
    requires IsParticipant(link.issuerId) && JudgeSigner(env, link.issuerId).verdict.Signer?
    ensures TrueSignature(env, link, IdealSignature(env, link))
  {
    SignaturePasses(env, link);
    if link.anchor.Some? {
      BeyondIffUnknown(env, link);
      AnchorNamedOrNot(env, link);
    }
  }

  lemma {:induction false} SignatureReasonIsTrue(env: Env, link: Grant)
    ensures TrueSignature(env, link, IdealSignature(env, link))
  {
    if !IsParticipant(link.issuerId) {
      SignaturePasses(env, link);
    } else if JudgeSigner(env, link.issuerId).verdict.Signer? {
      KnownSignerIsTrue(env, link);
    } else {
      UnknownSignerIsTrue(env, link);
    }
  }

  lemma {:induction false} ScanFinds(env: Env, candidates: seq<Candidate>, digest: Text, requested: set<Text>)
    ensures match IdealScan(env, digest, requested, candidates)
      case RevocationFound => exists c :: c in candidates && Revokes(env, c, digest, requested)
      case LookupThrew => OutOfReach(env, candidates, digest, requested)
      case NoRevocation => true
      case LookupTooExpensive => false
  {
    if candidates != [] {
      ScanFinds(env, candidates[1..], digest, requested);
      assert candidates[0] in candidates && forall c :: c in candidates[1..] ==> c in candidates;
      if SpeaksOf(candidates[0], digest, requested) {
        CandidateClears(env, candidates[0].revocation);
      }
    }
  }

  lemma {:induction false} RevocationReasonIsTrue(env: Env, o: Options, chain: seq<Grant>, i: nat)
    requires i < |chain|
    ensures match IdealRevocation(env, o, chain, i)
      case LinkFails(reason) => reason == Revoked && RevokedIn(env, chain, i)
      case LinkThrew => FailedAt(env, chain, i)
      case LinkPasses => true
  {
    var digest, revokers := GrantDigest(env.c, chain[i]), Revokers(chain, i);
    assert IdSet(revokers) == set id | id in revokers;
    match env.view.revocations(digest, revokers)
    case RevocationsUnreachable =>
    case Candidates(candidates) => ScanFinds(env, candidates, digest, IdSet(revokers));
  }

  lemma {:induction false} LinkReasonIsTrue(env: Env, o: Options, chain: seq<Grant>, i: nat)
    requires i < |chain| && (o.purpose == Evidence ==> o.at.Some?)
    ensures match IdealLink(env, o, chain, i)
      case LinkFails(reason) => TrueOfLink(env, o, chain, i, reason)
      case LinkThrew => FailedAt(env, chain, i)
      case LinkPasses => true
  {
    PreludeReasonIsTrue(env, o, chain[i]);
    SignatureReasonIsTrue(env, chain[i]);
    RevocationReasonIsTrue(env, o, chain, i);
  }

  // -------- Chains --------

  /** Every link nearer the leaf than `i` is in order. */
  ghost predicate InOrderBelow(env: Env, o: Options, chain: seq<Grant>, i: nat)
    requires i <= |chain|
  {
    forall j :: 0 <= j < i ==> LinkAuthorized(env, o, chain, j) && ProofMatches(env, chain, j)
  }

  /** What a verdict that is not valid says of the chain or of the view. */
  ghost predicate TrueVerdict(env: Env, o: Options, chain: seq<Grant>, verdict: Verdict) {
    match verdict
    case Valid(_, _, _) => Authorized(env, o, chain)
    case Threw => exists i: nat :: i < |chain| && InOrderBelow(env, o, chain, i) && FailedAt(env, chain, i)
    case Invalid(reason) =>
      || TrueOfShape(o, chain, reason)
      || exists i: nat :: i < |chain| && InOrderBelow(env, o, chain, i) && TrueOfLink(env, o, chain, i, reason)
  }

  lemma {:induction false} RunStopsAt(links: nat -> LinkOutcome, i: nat, n: nat) returns (k: nat)
    requires i <= n && !IdealRun(links, i, n).LinkPasses?
    ensures i <= k < n && links(k) == IdealRun(links, i, n)
    ensures forall j: nat :: i <= j < k ==> links(j).LinkPasses?
    decreases n - i
  {
    k := i;
    if links(i).LinkPasses? {
      k := RunStopsAt(links, i + 1, n);
    }
  }

  lemma {:induction false} StopIsTrue(env: Env, o: Options, chain: seq<Grant>, k: nat)
    requires k < |chain| && !IdealLink(env, o, chain, k).LinkPasses? && (o.purpose == Evidence ==> o.at.Some?)
    requires forall j: nat :: j < k ==> IdealLink(env, o, chain, j).LinkPasses?
    ensures TrueVerdict(env, o, chain, Conclude(chain, IdealLink(env, o, chain, k)))
  {
    LinkReasonIsTrue(env, o, chain, k);
    forall j | 0 <= j < k ensures LinkAuthorized(env, o, chain, j) && ProofMatches(env, chain, j) {
      LinkPassesIff(env, o, chain, j);
    }
    assert InOrderBelow(env, o, chain, k);
  }

  /** A verdict is never wrong about why: what it says is so, of the first link it can be said of. */
  lemma {:induction false} VerdictIsTrue(env: Env, o: Options, chain: seq<Grant>)
    ensures TrueVerdict(env, o, chain, IdealVerdict(env, o, chain))
  {
    ShapeReasonIsTrue(o, chain);
    ValidIffAuthorized(env, o, chain);
    var links := IdealLinks(env, o, chain);
    if StructureReason(o, chain).None? && !IdealRun(links, 0, |chain|).LinkPasses? {
      var k := RunStopsAt(links, 0, |chain|);
      forall j: nat | j < k ensures IdealLink(env, o, chain, j).LinkPasses? {
        assert links(j).LinkPasses?;
      }
      StopIsTrue(env, o, chain, k);
    }
  }
}
