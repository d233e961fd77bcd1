/** What a unit that does not stand did wrong (packages/verify/src/record-unit.ts:398-575). */
module UnitRefusals {
  import opened Common
  import opened SoundLogs
  import opened Grants
  import opened Resolver
  import opened Refinement
  import opened Signers
  import opened Attenuation
  import opened Refusals
  import opened Units
  import R = Records

  /** A reason found in the principal's own log. */
  ghost predicate TrueOfOwner(env: Env, unit: Unit, anchor: Text, reason: UnitReason) {
    var log := env.view.keyLog(unit.principal);
    match reason
    case PrincipalLogUnresolved => !log.Log? || !SoundLog(env.c, log.events)
    case PrincipalLogMismatch => SomebodyElses(env, unit.principal)
    case PrincipalAnchorUnknown =>
      log.Log? && OwnLog(env, unit.principal, log.events) && NamesNone(env.c, log.events, anchor)
    case RecordSignatureInvalid =>
      && log.Log? && OwnLog(env, unit.principal, log.events) && !NamesNone(env.c, log.events, anchor)
      && !SignedInOwnLog(env, unit.record, unit.principal, anchor)
    case _ => false
  }

  /** A reason found in the chain, or in what its leaf is to the record. */
  ghost predicate TrueOfDelegate(env: Env, unit: Unit, o: Options, chain: seq<Grant>, reason: UnitReason) {
    match reason
    case ChainInvalid(why) => TrueVerdict(env, o, chain, Invalid(why))
    case SubjectNotPrincipal => Authorized(env, o, chain) && chain[0].subjectId != unit.principal
    case AudienceNotKey => Authorized(env, o, chain) && IsParticipant(chain[0].audienceId)
    case LeafKeySignatureInvalid =>
      Authorized(env, o, chain) && !SignedByKey(env.c, unit.record, chain[0].audienceId)
    case AbilitiesInsufficient => Authorized(env, o, chain) && !ContinuesSome(chain[0].abilities, unit.required)
    case _ => false
  }

  ghost predicate TrueRuling(env: Env, unit: Unit, now: int, checkRevocation: bool, ruling: Ruling) {
    var o := Options(now, Evidence, unit.time, None, false, None, checkRevocation);
    match (unit.anchor, unit.chain, ruling)
    case (_, _, Stands) => OwnerSigned(env, unit) || DelegateSigned(env, unit, now, checkRevocation)
    case (Some(anchor), None, Falls(reason)) => TrueOfOwner(env, unit, anchor, reason)
    case (None, Some(chain), Falls(reason)) =>
      if unit.time.None? then reason == RecordMalformed else TrueOfDelegate(env, unit, o, chain, reason)
    case (None, Some(chain), Raised) => TrueVerdict(env, o, chain, Threw)
    case (_, _, Falls(reason)) => reason == ModeConflict
    case _ => false
  }

  lemma {:induction false} OwnerReasonIsTrue(env: Env, unit: Unit, anchor: Text)
    ensures match IdealOwner(env, unit, anchor)
      case Stands => SignedInOwnLog(env, unit.record, unit.principal, anchor)
      case Falls(reason) => TrueOfOwner(env, unit, anchor, reason)
      case Raised => false
  {
    var id, answer := unit.principal, JudgeSigner(env, unit.principal).verdict;
    OwnerStandsIffSigned(env, unit, anchor);
    SignerRefusals(env, id);
    SignerCostBound(env, id);
    if answer.Signer? {
      SignerIsBound(env, id, answer.states);
      var events :| OwnLog(env, id, events) && Establishes(env.c, events, answer.states);
      R.AcceptedAtItsEvent(env.c, unit.record, anchor, events, answer.states);
    }
  }

  lemma {:induction false} DelegateReasonIsTrue(env: Env, unit: Unit, o: Options, chain: seq<Grant>)
    ensures match IdealDelegated(env, unit, IdealVerdict(env, o, chain))
      case Stands => true
      case Falls(reason) => TrueOfDelegate(env, unit, o, chain, reason)
      case Raised => TrueVerdict(env, o, chain, Threw)
  {
    var verdict := IdealVerdict(env, o, chain);
    VerdictIsTrue(env, o, chain);
    if verdict.Valid? {
      assert verdict == Accept(chain);
      LeafKeyAcceptance(env.c, unit.record, chain[0].audienceId);
      CoveredIsContinued(chain[0].abilities, unit.required);
    }
  }

  /** A ruling is never wrong about why. */
  lemma {:induction false} RulingIsTrue(env: Env, unit: Unit, now: int, checkRevocation: bool)
    ensures TrueRuling(env, unit, now, checkRevocation, IdealUnit(env, unit, now, checkRevocation))
  {
    UnitStandsIffSigned(env, unit, now, checkRevocation);
    match (unit.anchor, unit.chain)
    case (Some(anchor), None) => OwnerReasonIsTrue(env, unit, anchor);
    case (None, Some(chain)) => DelegateReasonIsTrue(env, unit, ChainOptions(unit, now, checkRevocation), chain);
    case _ =>
  }
}
