/**
 * What a meter does to a verification (packages/trust/src/resolver.ts:507-535, packages/crypto/src/budget.ts):
 * nothing while it can pay for the whole, and otherwise a refusal that spends exactly what it held.
 */
module ExactMeters {
  import opened Common
  import KeyLog
  import opened Metering
  import opened Records
  import opened Grants
  import opened Resolver
  import opened Refinement
  import opened InterleavedRefusals
  import opened Units

  /** The unmetered step if the meter covers it, or a refusal that leaves nothing on the meter. */
  ghost predicate CutAt<T>(metered: Step<T>, unmetered: Step<T>, refused: bool, fuel: Fuel) {
    match fuel
    case None => metered == unmetered
    case Some(n) => if unmetered.spent <= n then metered == unmetered else refused && metered.spent == n
  }

  // -------- Lookups --------

  lemma {:induction false} SignerCutAt(env: Env, id: Text, fuel: Fuel, memo: Memo)
    ensures var s := SignerStep(env, id, fuel, memo);
      CutAt(s, SignerStep(env, id, None, memo), s.answer.TooExpensive?, fuel)
  {
    SignerCostBound(env, id);
  }

  lemma {:induction false} ScanCutAt(env: Env, digest: Text, requested: set<Text>, candidates: seq<Candidate>,
      allowance: nat, fuel: Fuel, memo: Memo)
    ensures var s := ScanStep(env, digest, requested, candidates, allowance, fuel, memo);
      CutAt(s, ScanStep(env, digest, requested, candidates, allowance, None, memo), s.answer.LookupTooExpensive?, fuel)
    decreases |candidates|, 2
  {
    if candidates != [] {
      if !Relevant(candidates[0], digest, requested) {
        ScanCutAt(env, digest, requested, candidates[1..], allowance, fuel, memo);
      } else {
        RelevantCutAt(env, digest, requested, candidates, allowance, fuel, memo);
      }
    }
  }

  lemma {:induction false} RelevantCutAt(env: Env, digest: Text, requested: set<Text>, candidates: seq<Candidate>,
      allowance: nat, fuel: Fuel, memo: Memo)
    requires candidates != [] && Relevant(candidates[0], digest, requested)
    ensures var s := ScanStep(env, digest, requested, candidates, allowance, fuel, memo);
      CutAt(s, ScanStep(env, digest, requested, candidates, allowance, None, memo), s.answer.LookupTooExpensive?, fuel)
    decreases |candidates|, 1
  {
    var id := candidates[0].revocation.issuerId;
    var signer := SignerStep(env, id, fuel, memo);
    SignerCutAt(env, id, fuel, memo);
    if signer.answer.Signer? {
      CandidateCutAt(env, digest, requested, candidates, signer.answer.states, allowance,
        Drop(fuel, signer.spent), signer.memo);
    } else if !signer.answer.TooExpensive? && !signer.answer.SignerThrew? {
      ScanCutAt(env, digest, requested, candidates[1..], allowance, Drop(fuel, signer.spent), signer.memo);
    }
  }

  lemma {:induction false} CandidateCutAt(env: Env, digest: Text, requested: set<Text>, candidates: seq<Candidate>,
      states: seq<KeyLog.AnchoredKeyState>, allowance: nat, fuel: Fuel, memo: Memo)
    requires candidates != [] && candidates[0].Parsed?
    ensures var s := CandidateStep(env, digest, requested, candidates, states, allowance, fuel, memo);
      CutAt(s, CandidateStep(env, digest, requested, candidates, states, allowance, None, memo),
        s.answer.LookupTooExpensive?, fuel)
    decreases |candidates|, 0
  {
    var w := JudgeCandidate(env, candidates[0].revocation, states);
    if w.cost <= Tighter(fuel, allowance) {
      ScanCutAt(env, digest, requested, candidates[1..], allowance - w.cost, Drop(fuel, w.cost), memo);
    }
  }

  lemma {:induction false} RevocationCutAt(env: Env, o: Options, chain: seq<Grant>, i: nat, fuel: Fuel, memo: Memo)
    requires i < |chain|
    ensures var s := RevocationStep(env, o, chain, i, fuel, memo);
      CutAt(s, RevocationStep(env, o, chain, i, None, memo), Refused(s.answer), fuel)
  {
    if ChecksRevocation(o) {
      var digest, revokers := GrantDigest(env.c, chain[i]), Revokers(chain, i);
      match env.view.revocations(digest, revokers)
      case RevocationsUnreachable =>
      case Candidates(candidates) =>
        ScanCutAt(env, digest, IdSet(revokers), candidates, CANDIDATE_ALLOWANCE, fuel, memo);
    }
  }

  // -------- Links --------

  lemma {:induction false} ChargeCutAt(w: Work<LinkOutcome>, fuel: Fuel, memo: Memo)
    requires w.cost <= MAX_KEY_EVENT_KEYS
    ensures var s := ChargeStep(w, fuel, memo); CutAt(s, ChargeStep(w, None, memo), Refused(s.answer), fuel)
  {}

  lemma {:induction false} ParticipantCutAt(env: Env, link: Grant, fuel: Fuel, memo: Memo)
    requires MemoSound(env, memo) && IsParticipant(link.issuerId)
    ensures var s := SignatureStep(env, link, fuel, memo);
      CutAt(s, SignatureStep(env, link, None, memo), Refused(s.answer), fuel)
  {
    SignerCutAt(env, link.issuerId, fuel, memo);
    SignerRefines(env, link.issuerId, fuel, memo);
    var signer := SignerStep(env, link.issuerId, fuel, memo);
    if signer.answer.Signer? && link.anchor.Some? {
      LinkCheckCost(env, link, signer.answer.states);
      var w := JudgeLinkSet(env, link, signer.answer.states);
      ChargeCutAt(Work(LinkSetOutcome(w.verdict), w.cost), Drop(fuel, signer.spent), signer.memo);
    }
  }

  lemma {:induction false} SignatureCutAt(env: Env, link: Grant, fuel: Fuel, memo: Memo)
    requires MemoSound(env, memo)
    ensures var s := SignatureStep(env, link, fuel, memo);
      CutAt(s, SignatureStep(env, link, None, memo), Refused(s.answer), fuel)
  {
    if IsParticipant(link.issuerId) {
      ParticipantCutAt(env, link, fuel, memo);
    } else {
      KeyIssuerCost(env, link);
      var w := JudgeKeyIssuer(env, link);
      ChargeCutAt(Work(KeyIssuerOutcome(w.verdict), w.cost), fuel, memo);
    }
  }

  lemma {:induction false} LinkCutAt(env: Env, o: Options, chain: seq<Grant>, i: nat, fuel: Fuel, memo: Memo)
    requires MemoSound(env, memo) && i < |chain|
    ensures var s := LinkStep(env, o, chain, i, fuel, memo);
      CutAt(s, LinkStep(env, o, chain, i, None, memo), Refused(s.answer), fuel)
  {
    SignatureCutAt(env, chain[i], fuel, memo);
    var signed := SignatureStep(env, chain[i], fuel, memo);
    RevocationCutAt(env, o, chain, i, Drop(fuel, signed.spent), signed.memo);
  }

  // -------- Chains --------

  ghost predicate AllCutAt(env: Env, links: LinkRunner, n: nat) {
    forall j: nat, f: Fuel, m: Memo :: j < n && MemoSound(env, m) ==>
      CutAt(links(j, f, m), links(j, None, m), Refused(links(j, f, m).answer), f) && MemoSound(env, links(j, f, m).memo)
  }

  lemma {:induction false} RunCutAt(env: Env, links: LinkRunner, i: nat, n: nat, fuel: Fuel, memo: Memo)
    requires MemoSound(env, memo) && i <= n && AllCutAt(env, links, n)
    ensures CutAt(RunStep(links, i, n, fuel, memo), RunStep(links, i, n, None, memo),
      Refused(RunStep(links, i, n, fuel, memo).answer), fuel)
    decreases n - i
  {
    if i < n {
      var link := links(i, fuel, memo);
      assert CutAt(link, links(i, None, memo), Refused(link.answer), fuel) && MemoSound(env, link.memo);
      RunCutAt(env, links, i + 1, n, Drop(fuel, link.spent), link.memo);
    }
  }

  /** A verification under a meter is the unmetered one if the meter covers it, or a refusal that empties it. */
  lemma {:induction false} MeteringIsExact(env: Env, o: Options, chain: seq<Grant>, fuel: Fuel, memo: Memo)
    requires MemoSound(env, memo)
    ensures var s := VerifyStep(env, o, chain, fuel, memo);
      CutAt(s, VerifyStep(env, o, chain, None, memo), s.answer.Invalid? && IsCost(s.answer.reason), fuel)
  {
    var links := LinkSteps(env, o, chain);
    forall j: nat, f: Fuel, m: Memo | j < |chain| && MemoSound(env, m)
      ensures CutAt(links(j, f, m), links(j, None, m), Refused(links(j, f, m).answer), f)
      ensures MemoSound(env, links(j, f, m).memo)
    {
      LinkCutAt(env, o, chain, j, f, m);
      LinkRefines(env, o, chain, j, f, m);
    }
    RunCutAt(env, links, 0, |chain|, fuel, memo);
  }

  /** The same of a record unit. */
  lemma {:induction false} UnitMeteringIsExact(env: Env, unit: Unit, now: int, checkRevocation: bool, fuel: Fuel,
      memo: Memo)
    requires MemoSound(env, memo)
    ensures var s := UnitStep(env, unit, now, checkRevocation, fuel, memo);
      CutAt(s, UnitStep(env, unit, now, checkRevocation, None, memo),
        s.answer.Falls? && IsUnitCost(s.answer.reason), fuel)
  {
    match (unit.anchor, unit.chain)
    case (Some(anchor), None) => OwnerCutAt(env, unit, anchor, fuel, memo);
    case (None, Some(chain)) =>
      var o := ChainOptions(unit, now, checkRevocation);
      MeteringIsExact(env, o, chain, fuel, memo);
      DelegatedCutAt(env, unit, VerifyStep(env, o, chain, fuel, memo), VerifyStep(env, o, chain, None, memo), fuel);
    case _ =>
  }

  lemma {:induction false} OwnerCutAt(env: Env, unit: Unit, anchor: Text, fuel: Fuel, memo: Memo)
    ensures var s := OwnerStep(env, unit, anchor, fuel, memo);
      CutAt(s, OwnerStep(env, unit, anchor, None, memo), s.answer.Falls? && IsUnitCost(s.answer.reason), fuel)
  {
    SignerCostBound(env, unit.principal);
    var answer := JudgeSigner(env, unit.principal).verdict;
    if answer.Signer? {
      SignerStatesNarrow(env, unit.principal, answer.states);
      AnchoredCostBound(env.c, unit.record, anchor, answer.states);
    }
  }

  lemma {:induction false} DelegatedCutAt(env: Env, unit: Unit, metered: Step<Verdict>, unmetered: Step<Verdict>,
      fuel: Fuel)
    requires CutAt(metered, unmetered, metered.answer.Invalid? && IsCost(metered.answer.reason), fuel)
    ensures var s := DelegatedStep(env, unit, metered, fuel);
      CutAt(s, DelegatedStep(env, unit, unmetered, None), s.answer.Falls? && IsUnitCost(s.answer.reason), fuel)
  {
  }

  // -------- Without a meter --------

  /** A lookup whose candidates fit its allowance answers as one without any allowance. */
  lemma {:induction false} ScanFits(env: Env, digest: Text, requested: set<Text>, candidates: seq<Candidate>,
      allowance: nat, memo: Memo)
    requires MemoSound(env, memo) && ScanCharge(env, candidates, digest, requested) <= allowance
    ensures ScanStep(env, digest, requested, candidates, allowance, None, memo).answer ==
      IdealScan(env, digest, requested, candidates)
    decreases |candidates|, 1
  {
    if candidates != [] {
      if Relevant(candidates[0], digest, requested) {
        RelevantFits(env, digest, requested, candidates, allowance, memo);
      } else {
        ScanFits(env, digest, requested, candidates[1..], allowance, memo);
      }
    }
  }

  lemma {:induction false} RelevantFits(env: Env, digest: Text, requested: set<Text>, candidates: seq<Candidate>,
      allowance: nat, memo: Memo)
    requires MemoSound(env, memo) && ScanCharge(env, candidates, digest, requested) <= allowance
    requires candidates != [] && Relevant(candidates[0], digest, requested)
    ensures ScanStep(env, digest, requested, candidates, allowance, None, memo).answer ==
      IdealScan(env, digest, requested, candidates)
    decreases |candidates|, 0
  {
    var r := candidates[0].revocation;
    SignerRefines(env, r.issuerId, None, memo);
    var signer := SignerStep(env, r.issuerId, None, memo);
    if signer.answer.Signer? {
      var w := JudgeCandidate(env, r, signer.answer.states);
      IdealScanStep(env, digest, requested, candidates, signer.answer.states);
      ScanFits(env, digest, requested, candidates[1..], allowance - w.cost, signer.memo);
    } else {
      ScanFits(env, digest, requested, candidates[1..], allowance, signer.memo);
    }
  }

  lemma {:induction false} LinkFits(env: Env, o: Options, chain: seq<Grant>, i: nat, memo: Memo)
    requires MemoSound(env, memo) && i < |chain| && ModerateAt(env, chain, i)
    ensures LinkStep(env, o, chain, i, None, memo).answer == IdealLink(env, o, chain, i)
  {
    SignatureFits(env, chain[i], memo);
    SignatureRefines(env, chain[i], None, memo);
    RevocationFits(env, o, chain, i, SignatureStep(env, chain[i], None, memo).memo);
  }

  lemma {:induction false} SignatureFits(env: Env, link: Grant, memo: Memo)
    requires MemoSound(env, memo)
    ensures SignatureStep(env, link, None, memo).answer == IdealSignature(env, link)
  {
    if IsParticipant(link.issuerId) {
      SignerRefines(env, link.issuerId, None, memo);
      var answer := JudgeSigner(env, link.issuerId).verdict;
      SignerCostBound(env, link.issuerId);
      if answer.Signer? && link.anchor.Some? {
        LinkCheckCost(env, link, answer.states);
      }
    } else {
      KeyIssuerCost(env, link);
    }
  }

  lemma {:induction false} RevocationFits(env: Env, o: Options, chain: seq<Grant>, i: nat, memo: Memo)
    requires MemoSound(env, memo) && i < |chain| && ModerateAt(env, chain, i)
    ensures RevocationStep(env, o, chain, i, None, memo).answer == IdealRevocation(env, o, chain, i)
  {
    var digest, revokers := GrantDigest(env.c, chain[i]), Revokers(chain, i);
    match env.view.revocations(digest, revokers)
    case RevocationsUnreachable =>
    case Candidates(candidates) =>
      assert ModerateAt(env, chain, i) ==> ChargeAt(env, chain, i, candidates) <= CANDIDATE_ALLOWANCE;
      ScanFits(env, digest, IdSet(revokers), candidates, CANDIDATE_ALLOWANCE, memo);
      IdealScanInTime(env, digest, IdSet(revokers), candidates);
  }

  lemma {:induction false} IdealScanInTime(env: Env, digest: Text, requested: set<Text>, candidates: seq<Candidate>)
    ensures !IdealScan(env, digest, requested, candidates).LookupTooExpensive?
  {
    if candidates != [] { IdealScanInTime(env, digest, requested, candidates[1..]); }
  }

  /** Runs whose links answer alike answer alike. */
  lemma {:induction false} SameAnswers(env: Env, links: LinkRunner, ideals: nat -> LinkOutcome,
      i: nat, n: nat, memo: Memo)
    requires MemoSound(env, memo) && i <= n
    requires forall j: nat, m: Memo :: j < n && MemoSound(env, m) ==>
      links(j, None, m).answer == ideals(j) && MemoSound(env, links(j, None, m).memo)
    ensures RunStep(links, i, n, None, memo).answer == IdealRun(ideals, i, n)
    decreases n - i
  {
    if i < n {
      SameAnswers(env, links, ideals, i + 1, n, links(i, None, memo).memo);
    }
  }

  lemma {:induction false} RunFits(env: Env, o: Options, chain: seq<Grant>, memo: Memo)
    requires MemoSound(env, memo) && Moderate(env, chain)
    ensures RunStep(LinkSteps(env, o, chain), 0, |chain|, None, memo).answer ==
      IdealRun(IdealLinks(env, o, chain), 0, |chain|)
  {
    var links, ideals := LinkSteps(env, o, chain), IdealLinks(env, o, chain);
    forall j: nat, m: Memo | j < |chain| && MemoSound(env, m)
      ensures links(j, None, m).answer == ideals(j) && MemoSound(env, links(j, None, m).memo) {
      assert ModerateAt(env, chain, j);
      LinkFits(env, o, chain, j, m);
      LinkRefines(env, o, chain, j, None, m);
    }
    SameAnswers(env, links, ideals, 0, |chain|, memo);
  }

  /** Where every lookup fits its allowance, the ideal verdict is what a meter that covers the run gives. */
  lemma {:induction false} CoveredRunIsIdeal(env: Env, o: Options, chain: seq<Grant>, fuel: Fuel, memo: Memo)
    requires MemoSound(env, memo) && Moderate(env, chain)
    ensures VerifyStep(env, o, chain, None, memo).answer == IdealVerdict(env, o, chain)
    ensures fuel.None? || VerifyStep(env, o, chain, None, memo).spent <= fuel.value ==>
      VerifyStep(env, o, chain, fuel, memo).answer == IdealVerdict(env, o, chain)
  {
    RunFits(env, o, chain, memo);
    MeteringIsExact(env, o, chain, fuel, memo);
  }
}
