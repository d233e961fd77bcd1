/**
 * What a valid verdict means (packages/trust/src/resolver.ts:1077-1093): a declarative account of
 * an authorized chain, and the proof that the resolver accepts exactly those.
 */
module Attenuation {
  import opened Common
  import opened KeyEvents
  import opened SoundLogs
  import opened Records
  import opened Grants
  import opened Resolver
  import opened Refinement
  import opened Signers

  /** Each of these abilities continues, segment by segment, some ability of the others. */
  ghost predicate WithinSegments(parent: seq<Text>, child: seq<Text>) {
    forall ability :: ability in child ==> ContinuesSome(parent, ability)
  }

  ghost predicate ContinuesSome(parent: seq<Text>, ability: Text) {
    exists p :: p in parent && Segments(p) <= Segments(ability)
  }

  /** Link `i` is delegated by its parent: who issues, for whom, within what, and by which record. */
  ghost predicate DelegatedByParent(env: Env, chain: seq<Grant>, i: nat)
    requires i + 1 < |chain|
  {
    var link, parent := chain[i], chain[i + 1];
    && link.issuerId == parent.audienceId
    && link.subjectId == parent.subjectId
    && WithinSegments(parent.abilities, link.abilities)
    && link.proof == Some(GrantDigest(env.c, parent))
  }

  /** Every audience carried lies within every audience carried nearer the root. */
  ghost predicate AudiencesNarrow(chain: seq<Grant>) {
    forall i, j, id :: 0 <= i < j < |chain| && chain[i].aud.Some? && chain[j].aud.Some? && id in chain[i].aud.value ==>
      id in chain[j].aud.value
  }

  /** The verifier is in every audience carried, and one is carried where one is demanded. */
  ghost predicate AudienceAdmits(o: Options, chain: seq<Grant>) {
    && (forall i :: 0 <= i < |chain| && chain[i].aud.Some? ==>
      o.verifierId.Some? && o.verifierId.value in chain[i].aud.value)
    && (o.requireAud && o.purpose == Request ==> exists i :: 0 <= i < |chain| && chain[i].aud.Some?)
  }

  /** The link is signed by its issuer: at its anchor in the issuer's own log, or by the key itself. */
  ghost predicate SignedByIssuer(env: Env, link: Grant) {
    if IsParticipant(link.issuerId) then
      link.anchor.Some? && SignedInOwnLog(env, GrantRecord(link), link.issuerId, link.anchor.value)
    else SignedByKey(env.c, GrantRecord(link), link.issuerId)
  }

  ghost predicate OpenAt(env: Env, link: Grant, at: int) {
    link.expiresAt.Some? ==> at < env.instant(link.expiresAt.value)
  }

  /**
   * Evidence is judged at its own time, within the link's window; anything else at the present, with
   * every caveat other than `aud` vouched for by the evaluator.
   */
  ghost predicate InForce(env: Env, o: Options, link: Grant) {
    if o.purpose == Evidence then
      o.at.Some? && OpenAt(env, link, o.at.value) && env.instant(link.issuedAt) <= o.at.value
    else
      && OpenAt(env, link, o.now)
      && (link.foreignCaveats != [] ==> o.evaluateCaveats.Some? && o.evaluateCaveats.value(link))
  }

  /** The candidate speaks of the grant in the name of one that was asked about. */
  ghost predicate SpeaksOf(candidate: Candidate, digest: Text, requested: set<Text>) {
    candidate.Parsed? && candidate.revocation.revokes == digest && candidate.revocation.issuerId in requested
  }

  /** It is that issuer's own revocation. */
  ghost predicate Revokes(env: Env, candidate: Candidate, digest: Text, requested: set<Text>) {
    SpeaksOf(candidate, digest, requested)
      && SignedInOwnLog(env, RevocationRecord(candidate.revocation), candidate.revocation.issuerId,
           candidate.revocation.anchor)
  }

  /** Nothing revokes, and nobody's log that would tell is out of reach. */
  ghost predicate NoneRevokes(env: Env, candidates: seq<Candidate>, digest: Text, requested: set<Text>) {
    forall c :: c in candidates && SpeaksOf(c, digest, requested) ==>
      !Revokes(env, c, digest, requested) && !env.view.keyLog(c.revocation.issuerId).LogUnreachable?
  }

  /** The view answered, with no more records than issuers asked about, and none of them revokes. */
  ghost predicate NotRevoked(env: Env, chain: seq<Grant>, i: nat)
    requires i < |chain|
  {
    var digest, revokers := GrantDigest(env.c, chain[i]), Revokers(chain, i);
    match env.view.revocations(digest, revokers)
    case RevocationsUnreachable => false
    case Candidates(candidates) =>
      |candidates| <= |set id | id in revokers| && NoneRevokes(env, candidates, digest, set id | id in revokers)
  }

  ghost predicate LinkAuthorized(env: Env, o: Options, chain: seq<Grant>, i: nat)
    requires i < |chain|
  {
    && InForce(env, o, chain[i])
    && SignedByIssuer(env, chain[i])
    && ((o.purpose == Evidence && !o.checkRevocation) || NotRevoked(env, chain, i))
  }

  ghost predicate InE2ee(ability: Text) {
    Segments(ability)[0] == E2EE
  }

  /** A link to a bare key expires and names who may rely on it; only the latter not if it is all `e2ee`. */
  ghost predicate WellMade(g: Grant) {
    && IsParticipant(g.subjectId) && (IsParticipant(g.issuerId) <==> g.anchor.Some?)
    && 0 < |g.abilities| <= 32 && 0 < |g.signature| <= 8
    && (!IsParticipant(g.audienceId) ==> g.expiresAt.Some?)
    && (!IsParticipant(g.audienceId) && g.aud.None? ==> forall ability :: ability in g.abilities ==> InE2ee(ability))
    && (g.aud.Some? || g.foreignCaveats != [] ==> exists ability :: ability in g.abilities && !InE2ee(ability))
    && (g.aud.Some? ==> g.aud.value != [] && forall id :: id in g.aud.value ==> IsParticipant(id))
  }

  ghost predicate AudiencesFit(o: Options, chain: seq<Grant>) {
    o.purpose != Evidence ==> AudiencesNarrow(chain) && AudienceAdmits(o, chain)
  }

  /** A self-issued root, links that are well made, audiences that fit, and no `e2ee` ability at a request. */
  ghost predicate WellShaped(o: Options, chain: seq<Grant>) {
    && 0 < |chain| <= 4
    && (forall i :: 0 <= i < |chain| ==> WellMade(chain[i]))
    && chain[|chain| - 1].proof == None
    && chain[|chain| - 1].issuerId == chain[|chain| - 1].subjectId
    && (o.purpose == Request ==> forall i, ability :: 0 <= i < |chain| && ability in chain[i].abilities ==>
      !InE2ee(ability))
    && AudiencesFit(o, chain)
  }

  ghost predicate Authorized(env: Env, o: Options, chain: seq<Grant>) {
    && WellShaped(o, chain)
    && (forall i :: 0 <= i < |chain| - 1 ==> DelegatedByParent(env, chain, i))
    && forall i :: 0 <= i < |chain| ==> LinkAuthorized(env, o, chain, i)
  }

  // -------- Segments --------

  lemma {:induction false} CoveredIsContinued(parent: seq<Text>, ability: Text)
    ensures Covered(parent, ability) <==> ContinuesSome(parent, ability)
  {
    forall p ensures AbilityCovers(p, ability) <==> Segments(p) <= Segments(ability) {
      CoverIsBySegments(p, ability);
    }
    if ContinuesSome(parent, ability) {
      var p :| p in parent && Segments(p) <= Segments(ability);
      assert AbilityCovers(p, ability);
    }
    if Covered(parent, ability) {
      var p :| p in parent && AbilityCovers(p, ability);
      assert Segments(p) <= Segments(ability);
    }
  }

  lemma {:induction false} CoversAllIsWithin(parent: seq<Text>, child: seq<Text>)
    ensures CoversAll(parent, child) <==> WithinSegments(parent, child)
  {
    forall ability ensures Covered(parent, ability) <==> ContinuesSome(parent, ability) {
      CoveredIsContinued(parent, ability);
    }
  }

  lemma {:induction false} SchemaIff(g: Grant)
    ensures GrantSchema(g) <==> WellMade(g)
  {
    forall ability ensures IsE2eeAbility(ability) <==> InE2ee(ability) {
      E2eeIsFirstSegment(ability);
    }
  }

  lemma {:induction false} NamesE2eeIff(g: Grant)
    ensures NamesE2ee(g) <==> exists ability :: ability in g.abilities && InE2ee(ability)
  {
    forall ability ensures IsE2eeAbility(ability) <==> InE2ee(ability) {
      E2eeIsFirstSegment(ability);
    }
  }

  // -------- Audiences --------

  /** The effective audience is the one carried nearest the leaf, and every other contains it. */
  ghost predicate IsEffective(chain: seq<Grant>, i: nat, e: Option<seq<Text>>) {
    && (e.None? ==> forall j :: i <= j < |chain| ==> chain[j].aud.None?)
    && (e.Some? ==> exists j :: i <= j < |chain| && chain[j].aud == e)
    && (e.Some? ==> forall j :: i <= j < |chain| && chain[j].aud.Some? ==> AudNarrows(chain[j].aud.value, e.value))
  }

  lemma {:induction false} NarrowFromStart(chain: seq<Grant>)
    ensures NarrowFrom(chain, 0) <==> AudiencesNarrow(chain)
  {
    if AudiencesNarrow(chain) {
      forall j, k | 0 <= j < k < |chain| && chain[j].aud.Some? && chain[k].aud.Some?
        ensures AudNarrows(chain[k].aud.value, chain[j].aud.value) {
      }
    }
    if NarrowFrom(chain, 0) {
      forall i, j, id | 0 <= i < j < |chain| && chain[i].aud.Some? && chain[j].aud.Some? && id in chain[i].aud.value
        ensures id in chain[j].aud.value {
        assert AudNarrows(chain[j].aud.value, chain[i].aud.value);
      }
    }
  }

  ghost predicate NarrowFrom(chain: seq<Grant>, i: nat) {
    forall j, k :: i <= j < k < |chain| && chain[j].aud.Some? && chain[k].aud.Some? ==>
      AudNarrows(chain[k].aud.value, chain[j].aud.value)
  }

  lemma {:induction false} EffectiveAudWalk(chain: seq<Grant>, i: nat)
    requires i <= |chain|
    ensures EffectiveAud(chain, i).Effective? <==> NarrowFrom(chain, i)
    ensures EffectiveAud(chain, i).Effective? ==> IsEffective(chain, i, EffectiveAud(chain, i).aud)
    decreases |chain| - i
  {
    if i < |chain| {
      EffectiveAudWalk(chain, i + 1);
      if EffectiveAud(chain, i + 1).Effective? {
        EffectiveAudStep(chain, i, EffectiveAud(chain, i + 1).aud);
      } else {
        var j, k :| i + 1 <= j < k < |chain| && chain[j].aud.Some? && chain[k].aud.Some?
          && !AudNarrows(chain[k].aud.value, chain[j].aud.value);
        assert !NarrowFrom(chain, i);
      }
    }
  }

  lemma {:induction false} EffectiveAudStep(chain: seq<Grant>, i: nat, e: Option<seq<Text>>)
    requires i < |chain| && NarrowFrom(chain, i + 1) && IsEffective(chain, i + 1, e)
    requires EffectiveAud(chain, i + 1) == Effective(e)
    ensures EffectiveAud(chain, i).Effective? <==> NarrowFrom(chain, i)
    ensures EffectiveAud(chain, i).Effective? ==> IsEffective(chain, i, EffectiveAud(chain, i).aud)
  {
    if chain[i].aud.Some? && e.Some? {
      var j :| i + 1 <= j < |chain| && chain[j].aud == e;
      if !AudNarrows(e.value, chain[i].aud.value) {
        assert !NarrowFrom(chain, i);
      } else {
        forall k | i < k < |chain| && chain[k].aud.Some? ensures AudNarrows(chain[k].aud.value, chain[i].aud.value) {
          assert AudNarrows(chain[k].aud.value, e.value);
        }
      }
    }
  }

  lemma {:induction false} AudErrorIff(o: Options, chain: seq<Grant>)
    ensures AudError(o, chain).None? <==> AudiencesFit(o, chain)
  {
    EffectiveAudWalk(chain, 0);
    NarrowFromStart(chain);
    if o.purpose != Evidence && EffectiveAud(chain, 0).Effective? {
      var e := EffectiveAud(chain, 0).aud;
      if e.Some? {
        var j :| 0 <= j < |chain| && chain[j].aud == e;
        if o.verifierId.Some? && o.verifierId.value in e.value {
          forall i | 0 <= i < |chain| && chain[i].aud.Some? ensures o.verifierId.value in chain[i].aud.value {
            assert AudNarrows(chain[i].aud.value, e.value);
          }
        }
      }
    }
  }

  // -------- Structure --------

  ghost predicate PairOk(link: Grant, parent: Grant) {
    link.issuerId == parent.audienceId && link.subjectId == parent.subjectId
      && CoversAll(parent.abilities, link.abilities)
  }

  lemma {:induction false} PairsErrorIff(chain: seq<Grant>, i: nat)
    requires i < |chain|
    ensures PairsError(chain, i).None? <==> forall j :: i <= j < |chain| - 1 ==> PairOk(chain[j], chain[j + 1])
    decreases |chain| - i
  {
    if i < |chain| - 1 { PairsErrorIff(chain, i + 1); }
  }

  ghost predicate StructureOk(o: Options, chain: seq<Grant>) {
    && 0 < |chain| <= MAX_GRANT_CHAIN_LINKS
    && (forall i :: 0 <= i < |chain| ==> GrantSchema(chain[i]))
    && (o.purpose == Request ==> forall i :: 0 <= i < |chain| ==> !NamesE2ee(chain[i]))
    && (o.purpose == Evidence ==> o.at.Some?)
    && chain[|chain| - 1].proof.None?
    && chain[|chain| - 1].issuerId == chain[|chain| - 1].subjectId
    && PairsError(chain, 0).None?
    && AudError(o, chain).None?
  }

  lemma {:induction false} StructureReasonIff(o: Options, chain: seq<Grant>)
    ensures StructureReason(o, chain).None? <==> StructureOk(o, chain)
  {}

  // -------- Links --------

  lemma {:induction false} IdealRunPasses(links: nat -> LinkOutcome, i: nat, n: nat)
    requires i <= n
    ensures IdealRun(links, i, n).LinkPasses? <==> forall j: nat :: i <= j < n ==> links(j).LinkPasses?
    decreases n - i
  {
    if i < n { IdealRunPasses(links, i + 1, n); }
  }

  lemma {:induction false} ScanClears(env: Env, digest: Text, requested: set<Text>, candidates: seq<Candidate>)
    ensures IdealScan(env, digest, requested, candidates).NoRevocation? <==>
      NoneRevokes(env, candidates, digest, requested)
  {
    if candidates != [] {
      ScanClears(env, digest, requested, candidates[1..]);
      assert candidates == [candidates[0]] + candidates[1..];
      if SpeaksOf(candidates[0], digest, requested) {
        CandidateClears(env, candidates[0].revocation);
      }
    }
  }

  /** What a candidate's own lookup and check come to. */
  lemma {:induction false} CandidateClears(env: Env, r: Revocation)
    ensures var answer := JudgeSigner(env, r.issuerId).verdict;
      && !answer.TooExpensive? && (answer.SignerThrew? <==> env.view.keyLog(r.issuerId).LogUnreachable?)
      && (answer.Signer? && JudgeCandidate(env, r, answer.states).verdict == Decided(Accepted) <==>
            SignedInOwnLog(env, RevocationRecord(r), r.issuerId, r.anchor))
  {
    SignerCostBound(env, r.issuerId);
    SignerRefusals(env, r.issuerId);
    var answer := JudgeSigner(env, r.issuerId).verdict;
    if answer.Signer? {
      AnchoredIffSigned(env, RevocationRecord(r), r.issuerId, r.anchor, answer.states);
    } else {
      UnsignedWithoutStates(env, RevocationRecord(r), r.issuerId, r.anchor);
    }
  }

  lemma {:induction false} RevocationPasses(env: Env, o: Options, chain: seq<Grant>, i: nat)
    requires i < |chain|
    ensures IdealRevocation(env, o, chain, i).LinkPasses? <==>
      (o.purpose == Evidence && !o.checkRevocation) || NotRevoked(env, chain, i)
  {
    var digest, revokers := GrantDigest(env.c, chain[i]), Revokers(chain, i);
    assert IdSet(revokers) == set id | id in revokers;
    match env.view.revocations(digest, revokers)
    case RevocationsUnreachable =>
    case Candidates(candidates) => ScanClears(env, digest, IdSet(revokers), candidates);
  }

  lemma {:induction false} SignaturePasses(env: Env, link: Grant)
    ensures IdealSignature(env, link).LinkPasses? <==> SignedByIssuer(env, link)
  {
    if IsParticipant(link.issuerId) {
      var answer := JudgeSigner(env, link.issuerId).verdict;
      if link.anchor.Some? {
        if answer.Signer? {
          AnchoredIffSigned(env, GrantRecord(link), link.issuerId, link.anchor.value, answer.states);
        } else {
          UnsignedWithoutStates(env, GrantRecord(link), link.issuerId, link.anchor.value);
        }
      }
    } else {
      OneKeySigns(env.c, GrantRecord(link), link.issuerId);
    }
  }

  ghost predicate NamesNone(c: Primitives, events: seq<KeyEvent>, anchor: Text) {
    forall i :: 0 <= i < |events| ==> EventDigest(c, events[i]) != anchor
  }

  /** The link is anchored beyond the copy the view has of its issuer's log. */
  ghost predicate AnchoredBeyond(env: Env, link: Grant) {
    IsParticipant(link.issuerId) && link.anchor.Some? && exists events ::
      OwnLog(env, link.issuerId, events) && NamesNone(env.c, events, link.anchor.value)
  }

  /** The view has no sound copy at all of the log of the link's issuer. */
  ghost predicate NoCopy(env: Env, link: Grant) {
    var log := env.view.keyLog(link.issuerId);
    IsParticipant(link.issuerId) && (log.NoLog? || (log.Log? && !SoundLog(env.c, log.events)))
  }

  lemma {:induction false} BeyondIffUnknown(env: Env, link: Grant)
    requires IsParticipant(link.issuerId) && link.anchor.Some?
    ensures var answer := JudgeSigner(env, link.issuerId).verdict;
      AnchoredBeyond(env, link) <==>
        answer.Signer? && JudgeLinkSet(env, link, answer.states).verdict == AnchorUnknown
  {
    var id, answer := link.issuerId, JudgeSigner(env, link.issuerId).verdict;
    if answer.Signer? {
      SignerIsBound(env, id, answer.states);
      var events :| OwnLog(env, id, events) && Establishes(env.c, events, answer.states);
      AcceptedAtItsEvent(env.c, GrantRecord(link), link.anchor.value, events, answer.states);
    }
    if AnchoredBeyond(env, link) {
      SignerRefusals(env, id);
      SignerCostBound(env, id);
    }
  }

  lemma {:induction false} PreludePasses(env: Env, o: Options, link: Grant)
    requires o.purpose == Evidence ==> o.at.Some?
    ensures PreludeReason(env, o, link).None? <==> InForce(env, o, link)
  {}

  lemma {:induction false} LinkPassesIff(env: Env, o: Options, chain: seq<Grant>, i: nat)
    requires i < |chain| && (o.purpose == Evidence ==> o.at.Some?)
    ensures IdealLink(env, o, chain, i).LinkPasses? <==> LinkAuthorized(env, o, chain, i) && ProofMatches(env, chain, i)
  {
    PreludePasses(env, o, chain[i]);
    SignaturePasses(env, chain[i]);
    RevocationPasses(env, o, chain, i);
  }

  lemma {:induction false} RunPassesIff(env: Env, o: Options, chain: seq<Grant>)
    requires o.purpose == Evidence ==> o.at.Some?
    ensures IdealRun(IdealLinks(env, o, chain), 0, |chain|).LinkPasses? <==>
      forall i :: 0 <= i < |chain| ==> LinkAuthorized(env, o, chain, i) && ProofMatches(env, chain, i)
  {
    var links := IdealLinks(env, o, chain);
    IdealRunPasses(links, 0, |chain|);
    forall i | 0 <= i < |chain|
      ensures links(i).LinkPasses? <==> LinkAuthorized(env, o, chain, i) && ProofMatches(env, chain, i) {
      LinkPassesIff(env, o, chain, i);
    }
  }

  lemma {:induction false} ProofsLink(env: Env, chain: seq<Grant>)
    ensures (forall i :: 0 <= i < |chain| ==> ProofMatches(env, chain, i)) <==>
      forall i :: 0 <= i < |chain| - 1 ==> chain[i].proof == Some(GrantDigest(env.c, chain[i + 1]))
  {
    if forall i :: 0 <= i < |chain| ==> ProofMatches(env, chain, i) {
      forall i | 0 <= i < |chain| - 1 ensures chain[i].proof == Some(GrantDigest(env.c, chain[i + 1])) {
        assert ProofMatches(env, chain, i + 1);
      }
    }
    if forall i :: 0 <= i < |chain| - 1 ==> chain[i].proof == Some(GrantDigest(env.c, chain[i + 1])) {
      forall i | 0 <= i < |chain| ensures ProofMatches(env, chain, i) {
        if i > 0 { assert chain[i - 1].proof == Some(GrantDigest(env.c, chain[i - 1 + 1])); }
      }
    }
  }

  lemma {:induction false} DelegationSplits(env: Env, chain: seq<Grant>)
    ensures (forall i :: 0 <= i < |chain| - 1 ==> DelegatedByParent(env, chain, i)) <==>
      && (forall i :: 0 <= i < |chain| - 1 ==> PairOk(chain[i], chain[i + 1]))
      && (forall i :: 0 <= i < |chain| - 1 ==> chain[i].proof == Some(GrantDigest(env.c, chain[i + 1])))
  {
    forall i | 0 <= i < |chain| - 1
      ensures DelegatedByParent(env, chain, i) <==>
        PairOk(chain[i], chain[i + 1]) && chain[i].proof == Some(GrantDigest(env.c, chain[i + 1])) {
      CoversAllIsWithin(chain[i + 1].abilities, chain[i].abilities);
    }
    if forall i :: 0 <= i < |chain| - 1 ==> DelegatedByParent(env, chain, i) {
      forall i | 0 <= i < |chain| - 1
        ensures PairOk(chain[i], chain[i + 1]) && chain[i].proof == Some(GrantDigest(env.c, chain[i + 1])) {
        assert DelegatedByParent(env, chain, i);
      }
    }
    if (forall i :: 0 <= i < |chain| - 1 ==> PairOk(chain[i], chain[i + 1]))
      && (forall i :: 0 <= i < |chain| - 1 ==> chain[i].proof == Some(GrantDigest(env.c, chain[i + 1]))) {
      forall i | 0 <= i < |chain| - 1 ensures DelegatedByParent(env, chain, i) {
        assert PairOk(chain[i], chain[i + 1]);
      }
    }
  }

  lemma {:induction false} ValidIffStructureAndLinks(env: Env, o: Options, chain: seq<Grant>)
    ensures IdealVerdict(env, o, chain).Valid? <==>
      StructureOk(o, chain) && forall i :: 0 <= i < |chain| ==>
        LinkAuthorized(env, o, chain, i) && ProofMatches(env, chain, i)
  {
    StructureReasonIff(o, chain);
    if StructureOk(o, chain) {
      RunPassesIff(env, o, chain);
    }
  }

  lemma {:induction false} StructureIsWellMade(o: Options, chain: seq<Grant>)
    ensures (forall i :: 0 <= i < |chain| ==> GrantSchema(chain[i])) <==>
      forall i :: 0 <= i < |chain| ==> WellMade(chain[i])
    ensures (forall i :: 0 <= i < |chain| ==> !NamesE2ee(chain[i])) <==>
      forall i, ability :: 0 <= i < |chain| && ability in chain[i].abilities ==> !InE2ee(ability)
  {
    forall i | 0 <= i < |chain| ensures GrantSchema(chain[i]) <==> WellMade(chain[i]) {
      SchemaIff(chain[i]);
    }
    forall i | 0 <= i < |chain|
      ensures NamesE2ee(chain[i]) <==> exists ability :: ability in chain[i].abilities && InE2ee(ability) {
      NamesE2eeIff(chain[i]);
    }
  }

  lemma {:induction false} StructureIsShape(env: Env, o: Options, chain: seq<Grant>)
    requires chain != [] && (o.purpose == Evidence ==> o.at.Some?)
    ensures StructureOk(o, chain) && (forall i :: 0 <= i < |chain| ==> ProofMatches(env, chain, i)) <==>
      WellShaped(o, chain) && forall i :: 0 <= i < |chain| - 1 ==> DelegatedByParent(env, chain, i)
  {
    StructureIsWellMade(o, chain);
    AudErrorIff(o, chain);
    ProofsLink(env, chain);
    DelegationSplits(env, chain);
    PairsErrorIff(chain, 0);
  }

  /** The resolver accepts exactly the authorized chains. */
  lemma {:induction false} ValidIffAuthorized(env: Env, o: Options, chain: seq<Grant>)
    ensures IdealVerdict(env, o, chain).Valid? <==> Authorized(env, o, chain)
  {
    ValidIffStructureAndLinks(env, o, chain);
    if chain != [] {
      if o.purpose == Evidence && o.at.None? {
        assert !LinkAuthorized(env, o, chain, 0);
      } else {
        StructureIsShape(env, o, chain);
      }
    }
  }

  // -------- Attenuation over the whole chain --------

  lemma {:induction false} AncestorCovers(chain: seq<Grant>, i: nat)
    requires i < |chain| && forall j :: 0 <= j < |chain| - 1 ==> PairOk(chain[j], chain[j + 1])
    ensures CoversAll(chain[i].abilities, chain[0].abilities) && chain[i].subjectId == chain[0].subjectId
  {
    if i == 0 {
      CoversAllReflexive(chain[0].abilities);
    } else {
      AncestorCovers(chain, i - 1);
      assert PairOk(chain[i - 1], chain[i - 1 + 1]);
      CoversAllTransitive(chain[i].abilities, chain[i - 1].abilities, chain[0].abilities);
    }
  }

  /** What any link of an authorized chain is to its leaf, its root and the verifier. */
  ghost predicate Attenuated(env: Env, o: Options, chain: seq<Grant>, i: nat)
    requires i < |chain|
  {
    && WithinSegments(chain[i].abilities, chain[0].abilities)
    && chain[0].subjectId == chain[i].subjectId == chain[|chain| - 1].issuerId
    && (o.purpose != Evidence && chain[i].aud.Some? ==> o.verifierId.Some? && o.verifierId.value in chain[i].aud.value)
    && chain[i].proof == if i + 1 < |chain| then Some(GrantDigest(env.c, chain[i + 1])) else None
  }

  lemma {:induction false} AuthorizedCovers(env: Env, o: Options, chain: seq<Grant>, i: nat)
    requires Authorized(env, o, chain) && i < |chain|
    ensures WithinSegments(chain[i].abilities, chain[0].abilities) && chain[i].subjectId == chain[0].subjectId
  {
    DelegationSplits(env, chain);
    AncestorCovers(chain, i);
    CoversAllIsWithin(chain[i].abilities, chain[0].abilities);
  }

  lemma {:induction false} FitAdmits(o: Options, chain: seq<Grant>, i: nat)
    requires AudiencesFit(o, chain) && i < |chain| && o.purpose != Evidence && chain[i].aud.Some?
    ensures o.verifierId.Some? && o.verifierId.value in chain[i].aud.value
  {}

  lemma {:induction false} AuthorizedBelongsToRoot(env: Env, o: Options, chain: seq<Grant>)
    requires Authorized(env, o, chain)
    ensures chain[0].subjectId == chain[|chain| - 1].issuerId
  {
    AuthorizedCovers(env, o, chain, |chain| - 1);
  }

  lemma {:induction false} AuthorizedPoints(env: Env, o: Options, chain: seq<Grant>, i: nat)
    requires Authorized(env, o, chain) && i < |chain|
    ensures chain[i].proof == if i + 1 < |chain| then Some(GrantDigest(env.c, chain[i + 1])) else None
  {
    if i + 1 < |chain| {
      assert DelegatedByParent(env, chain, i);
    }
  }

  lemma {:induction false} AuthorizedIsAttenuated(env: Env, o: Options, chain: seq<Grant>, i: nat)
    requires Authorized(env, o, chain) && i < |chain|
    ensures Attenuated(env, o, chain, i)
  {
    AuthorizedCovers(env, o, chain, i);
    AuthorizedBelongsToRoot(env, o, chain);
    AuthorizedPoints(env, o, chain, i);
    if o.purpose != Evidence && chain[i].aud.Some? {
      FitAdmits(o, chain, i);
    }
  }

  lemma {:induction false} ValidVerdictIsLeaf(env: Env, o: Options, chain: seq<Grant>, fuel: Fuel, memo: Memo)
    requires VerifyStep(env, o, chain, fuel, memo).answer.Valid?
    ensures chain != []
    ensures VerifyStep(env, o, chain, fuel, memo).answer ==
      Valid(chain[0].subjectId, chain[0].audienceId, chain[0].abilities)
  {}

  /**
   * A valid verdict, metered or not, never exceeds any ancestor: it reports the leaf's subject,
   * audience and abilities, each ability continues, segment by segment, one of every link up to the
   * root, the subject is the root's issuer, at a request the verifier is in every audience any link
   * carries, and every proof names the parent that was verified.
   */
  lemma {:induction false} ValidVerdictIsAttenuated(env: Env, o: Options, chain: seq<Grant>, fuel: Fuel, memo: Memo)
    requires MemoSound(env, memo) && VerifyStep(env, o, chain, fuel, memo).answer.Valid?
    ensures chain != []
    ensures VerifyStep(env, o, chain, fuel, memo).answer ==
      Valid(chain[0].subjectId, chain[0].audienceId, chain[0].abilities)
    ensures forall i :: 0 <= i < |chain| ==> Attenuated(env, o, chain, i)
  {
    ValidVerdictIsLeaf(env, o, chain, fuel, memo);
    MeteredRunRefinesIdeal(env, o, chain, fuel, memo);
    ValidIffAuthorized(env, o, chain);
    forall i | 0 <= i < |chain| ensures Attenuated(env, o, chain, i) {
      AuthorizedIsAttenuated(env, o, chain, i);
    }
  }
}
