/**
 * Metering and memoising never change a verdict except into a cost refusal
 * (packages/trust/src/resolver.ts:507-535, 585-666, 859-954, 1131-1386).
 */
module Refinement {
  import opened Common
  import opened Metering
  import opened KeyLog
  import opened Records
  import opened Grants
  import opened Resolver

  /** Every remembered answer is the answer a full replay of the view's log would give. */
  ghost predicate MemoSound(env: Env, memo: Memo) {
    forall id :: id in memo ==> JudgeSigner(env, id).verdict == Signer(memo[id])
  }

  predicate WithinFuel(fuel: Fuel, spent: nat) {
    fuel.Some? ==> spent <= fuel.value
  }

  lemma {:induction false} SignerCostBound(env: Env, id: Text)
    ensures JudgeSigner(env, id).cost <= DEFAULT_MAX_KEY_LOG_SIGNATURE_VERIFICATIONS
    ensures !JudgeSigner(env, id).verdict.TooExpensive?
  {
    if env.view.keyLog(id).Log? {
      ReplayCostBound(env.c, env.view.keyLog(id).events, 0);
    }
  }

  /** A lookup starts a replay exactly when it is not remembered and the view serves a log with events. */
  lemma {:induction false} ReplaysAreOfLogs(env: Env, id: Text, fuel: Fuel, memo: Memo)
    ensures var s := SignerStep(env, id, fuel, memo);
      && s.replays <= 1
      && (s.replays == 1 <==> id !in memo && exists events :: env.view.keyLog(id) == Log(events) && |events| > 0)
  {}

  // -------- Refinement: an answer is the ideal one, or a cost refusal --------

  lemma {:induction false} SignerRefines(env: Env, id: Text, fuel: Fuel, memo: Memo)
    requires MemoSound(env, memo)
    ensures var s := SignerStep(env, id, fuel, memo);
      && (s.answer == JudgeSigner(env, id).verdict || (s.answer.TooExpensive? && fuel.Some?))
      && MemoSound(env, s.memo) && WithinFuel(fuel, s.spent)
  {
    SignerCostBound(env, id);
  }

  /** A lookup's answer, memo and charges, against the ideal answer and the fuel it had. */
  ghost predicate Finds(env: Env, s: Step<Lookup>, ideal: Lookup, fuel: Fuel) {
    (s.answer == ideal || s.answer.LookupTooExpensive?) && MemoSound(env, s.memo) && WithinFuel(fuel, s.spent)
  }

  lemma {:induction false} FindsAfter<S>(env: Env, first: Step<S>, second: Step<Lookup>, ideal: Lookup, fuel: Fuel)
    requires WithinFuel(fuel, first.spent) && Finds(env, second, ideal, Drop(fuel, first.spent))
    ensures Finds(env, After(first, second), ideal, fuel)
  {}

  lemma {:induction false} ScanRefines(env: Env, digest: Text, requested: set<Text>, candidates: seq<Candidate>,
      allowance: nat, fuel: Fuel, memo: Memo)
    requires MemoSound(env, memo)
    ensures Finds(env, ScanStep(env, digest, requested, candidates, allowance, fuel, memo),
      IdealScan(env, digest, requested, candidates), fuel)
    decreases |candidates|, 1
  {
    if candidates != [] {
      if !Relevant(candidates[0], digest, requested) {
        ScanRefines(env, digest, requested, candidates[1..], allowance, fuel, memo);
      } else {
        var id := candidates[0].revocation.issuerId;
        SignerRefines(env, id, fuel, memo);
        var signer := SignerStep(env, id, fuel, memo);
        var left := Drop(fuel, signer.spent);
        if signer.answer.Signer? {
          CandidateRefines(env, digest, requested, candidates, signer.answer.states, allowance, left, signer.memo);
        } else {
          ScanRefines(env, digest, requested, candidates[1..], allowance, left, signer.memo);
        }
      }
    }
  }

  lemma {:induction false} IdealScanStep(env: Env, digest: Text, requested: set<Text>, candidates: seq<Candidate>,
      states: seq<AnchoredKeyState>)
    requires candidates != [] && Relevant(candidates[0], digest, requested)
    requires JudgeSigner(env, candidates[0].revocation.issuerId).verdict == Signer(states)
    ensures IdealScan(env, digest, requested, candidates) ==
      if JudgeCandidate(env, candidates[0].revocation, states).verdict == Decided(Accepted) then RevocationFound
      else IdealScan(env, digest, requested, candidates[1..])
  {}

  lemma {:induction false} PassedCandidateSteps(env: Env, digest: Text, requested: set<Text>,
      candidates: seq<Candidate>, states: seq<AnchoredKeyState>, allowance: nat, fuel: Fuel, memo: Memo)
    requires candidates != [] && candidates[0].Parsed?
    requires var w := JudgeCandidate(env, candidates[0].revocation, states);
      w.cost <= Tighter(fuel, allowance) && w.verdict != Decided(Accepted)
    ensures var w := JudgeCandidate(env, candidates[0].revocation, states);
      CandidateStep(env, digest, requested, candidates, states, allowance, fuel, memo) ==
        After(Step(NoRevocation, w.cost, 0, memo),
          ScanStep(env, digest, requested, candidates[1..], allowance - w.cost, Drop(fuel, w.cost), memo))
  {}

  lemma {:induction false} StoppedCandidateRefines(env: Env, digest: Text, requested: set<Text>,
      candidates: seq<Candidate>, states: seq<AnchoredKeyState>, allowance: nat, fuel: Fuel, memo: Memo)
    requires MemoSound(env, memo) && candidates != [] && Relevant(candidates[0], digest, requested)
    requires JudgeSigner(env, candidates[0].revocation.issuerId).verdict == Signer(states)
    requires var w := JudgeCandidate(env, candidates[0].revocation, states);
      w.cost > Tighter(fuel, allowance) || w.verdict == Decided(Accepted)
    ensures Finds(env, CandidateStep(env, digest, requested, candidates, states, allowance, fuel, memo),
      IdealScan(env, digest, requested, candidates), fuel)
  {
    IdealScanStep(env, digest, requested, candidates, states);
  }

  lemma {:induction false} CandidateRefines(env: Env, digest: Text, requested: set<Text>, candidates: seq<Candidate>,
      states: seq<AnchoredKeyState>, allowance: nat, fuel: Fuel, memo: Memo)
    requires MemoSound(env, memo) && candidates != [] && Relevant(candidates[0], digest, requested)
    requires JudgeSigner(env, candidates[0].revocation.issuerId).verdict == Signer(states)
    ensures Finds(env, CandidateStep(env, digest, requested, candidates, states, allowance, fuel, memo),
      IdealScan(env, digest, requested, candidates), fuel)
    decreases |candidates|, 0
  {
    var w := JudgeCandidate(env, candidates[0].revocation, states);
    if w.cost <= Tighter(fuel, allowance) && w.verdict != Decided(Accepted) {
      ScanRefines(env, digest, requested, candidates[1..], allowance - w.cost, Drop(fuel, w.cost), memo);
      PassedCandidateSteps(env, digest, requested, candidates, states, allowance, fuel, memo);
      IdealScanStep(env, digest, requested, candidates, states);
      FindsAfter(env, Step(NoRevocation, w.cost, 0, memo),
        ScanStep(env, digest, requested, candidates[1..], allowance - w.cost, Drop(fuel, w.cost), memo),
        IdealScan(env, digest, requested, candidates[1..]), fuel);
    } else {
      StoppedCandidateRefines(env, digest, requested, candidates, states, allowance, fuel, memo);
    }
  }

  lemma {:induction false} LookupRefines(env: Env, digest: Text, revokers: seq<Text>, fuel: Fuel, memo: Memo)
    requires MemoSound(env, memo)
    ensures var s := LookupStep(env, digest, revokers, fuel, memo);
      && (s.answer == IdealLookup(env, digest, revokers) || s.answer.LookupTooExpensive?)
      && MemoSound(env, s.memo) && WithinFuel(fuel, s.spent)
  {
    match env.view.revocations(digest, revokers)
    case RevocationsUnreachable =>
    case Candidates(candidates) =>
      ScanRefines(env, digest, IdSet(revokers), candidates, CANDIDATE_ALLOWANCE, fuel, memo);
  }

  /** A link's outcome is the ideal one, or a cost refusal. */
  predicate OutcomeRefines(outcome: LinkOutcome, ideal: LinkOutcome) {
    outcome == ideal || (outcome.LinkFails? && IsCost(outcome.reason))
  }

  lemma {:induction false} SignatureRefines(env: Env, link: Grant, fuel: Fuel, memo: Memo)
    requires MemoSound(env, memo)
    ensures var s := SignatureStep(env, link, fuel, memo);
      && OutcomeRefines(s.answer, IdealSignature(env, link))
      && MemoSound(env, s.memo) && WithinFuel(fuel, s.spent)
  {
    if IsParticipant(link.issuerId) {
      ParticipantRefines(env, link, fuel, memo);
    }
  }

  lemma {:induction false} ParticipantRefines(env: Env, link: Grant, fuel: Fuel, memo: Memo)
    requires MemoSound(env, memo) && IsParticipant(link.issuerId)
    ensures var s := SignatureStep(env, link, fuel, memo);
      && OutcomeRefines(s.answer, IdealSignature(env, link))
      && MemoSound(env, s.memo) && WithinFuel(fuel, s.spent)
  {
    SignerRefines(env, link.issuerId, fuel, memo);
  }

  lemma {:induction false} RevocationRefines(env: Env, o: Options, chain: seq<Grant>, i: nat, fuel: Fuel, memo: Memo)
    requires MemoSound(env, memo) && i < |chain|
    ensures var s := RevocationStep(env, o, chain, i, fuel, memo);
      && OutcomeRefines(s.answer, IdealRevocation(env, o, chain, i))
      && MemoSound(env, s.memo) && WithinFuel(fuel, s.spent)
  {
    if ChecksRevocation(o) {
      LookupRefines(env, GrantDigest(env.c, chain[i]), Revokers(chain, i), fuel, memo);
    }
  }

  lemma {:induction false} LinkRefines(env: Env, o: Options, chain: seq<Grant>, i: nat, fuel: Fuel, memo: Memo)
    requires MemoSound(env, memo) && i < |chain|
    ensures var s := LinkStep(env, o, chain, i, fuel, memo);
      && OutcomeRefines(s.answer, IdealLink(env, o, chain, i))
      && MemoSound(env, s.memo) && WithinFuel(fuel, s.spent)
  {
    SignatureRefines(env, chain[i], fuel, memo);
    var signed := SignatureStep(env, chain[i], fuel, memo);
    RevocationRefines(env, o, chain, i, Drop(fuel, signed.spent), signed.memo);
  }

  /** A step's outcome, memo and charges, against the ideal outcome and the fuel it had. */
  ghost predicate Refines(env: Env, s: Step<LinkOutcome>, ideal: LinkOutcome, fuel: Fuel) {
    OutcomeRefines(s.answer, ideal) && MemoSound(env, s.memo) && WithinFuel(fuel, s.spent)
  }

  lemma {:induction false} RunRefines(env: Env, links: LinkRunner, ideals: nat -> LinkOutcome, i: nat,
      n: nat, fuel: Fuel, memo: Memo)
    requires MemoSound(env, memo) && i <= n
    requires forall j: nat, f: Fuel, m: Memo :: j < n && MemoSound(env, m) ==>
      Refines(env, links(j, f, m), ideals(j), f)
    ensures Refines(env, RunStep(links, i, n, fuel, memo), IdealRun(ideals, i, n), fuel)
    decreases n - i
  {
    if i < n {
      var link := links(i, fuel, memo);
      assert Refines(env, link, ideals(i), fuel);
      RunRefines(env, links, ideals, i + 1, n, Drop(fuel, link.spent), link.memo);
    }
  }

  lemma {:induction false} ChainRefines(env: Env, o: Options, chain: seq<Grant>, fuel: Fuel, memo: Memo)
    requires MemoSound(env, memo)
    ensures Refines(env, RunStep(LinkSteps(env, o, chain), 0, |chain|, fuel, memo),
      IdealRun(IdealLinks(env, o, chain), 0, |chain|), fuel)
  {
    var links, ideals := LinkSteps(env, o, chain), IdealLinks(env, o, chain);
    forall j: nat, f: Fuel, m: Memo | j < |chain| && MemoSound(env, m)
      ensures Refines(env, links(j, f, m), ideals(j), f) {
      LinkRefines(env, o, chain, j, f, m);
    }
    RunRefines(env, links, ideals, 0, |chain|, fuel, memo);
  }

  /**
   * For any meters and any memo left by earlier operations over the same view, the verdict is the
   * ideal one or a cost refusal; no more is charged than the tightest meter held; and the memo
   * stays sound for the next operation.
   */
  lemma {:induction false} MeteredRunRefinesIdeal(env: Env, o: Options, chain: seq<Grant>, fuel: Fuel, memo: Memo)
    requires MemoSound(env, memo)
    ensures var s := VerifyStep(env, o, chain, fuel, memo);
      && (s.answer == IdealVerdict(env, o, chain) || (s.answer.Invalid? && IsCost(s.answer.reason)))
      && MemoSound(env, s.memo) && WithinFuel(fuel, s.spent)
  {
    ChainRefines(env, o, chain, fuel, memo);
  }

  // -------- A metered run is a prefix of the unmetered one --------

  /** The same step, or a refusal that charged no more than it. */
  ghost predicate CutsShort<T>(metered: Step<T>, unmetered: Step<T>, refused: bool) {
    metered == unmetered || (refused && metered.spent <= unmetered.spent && metered.replays <= unmetered.replays)
  }

  predicate Refused(outcome: LinkOutcome) {
    outcome.LinkFails? && IsCost(outcome.reason)
  }

  lemma {:induction false} SignerCutsShort(env: Env, id: Text, fuel: Fuel, memo: Memo)
    ensures var s := SignerStep(env, id, fuel, memo);
      CutsShort(s, SignerStep(env, id, None, memo), s.answer.TooExpensive?)
  {
    SignerCostBound(env, id);
  }

  lemma {:induction false} ScanCutsShort(env: Env, digest: Text, requested: set<Text>, candidates: seq<Candidate>,
      allowance: nat, fuel: Fuel, memo: Memo)
    ensures var s := ScanStep(env, digest, requested, candidates, allowance, fuel, memo);
      CutsShort(s, ScanStep(env, digest, requested, candidates, allowance, None, memo), s.answer.LookupTooExpensive?)
    decreases |candidates|, 2
  {
    if candidates != [] {
      if !Relevant(candidates[0], digest, requested) {
        ScanCutsShort(env, digest, requested, candidates[1..], allowance, fuel, memo);
      } else {
        RelevantCutsShort(env, digest, requested, candidates, allowance, fuel, memo);
      }
    }
  }

  lemma {:induction false} RelevantCutsShort(env: Env, digest: Text, requested: set<Text>, candidates: seq<Candidate>,
      allowance: nat, fuel: Fuel, memo: Memo)
    requires candidates != [] && Relevant(candidates[0], digest, requested)
    ensures var s := ScanStep(env, digest, requested, candidates, allowance, fuel, memo);
      CutsShort(s, ScanStep(env, digest, requested, candidates, allowance, None, memo), s.answer.LookupTooExpensive?)
    decreases |candidates|, 1
  {
    var id := candidates[0].revocation.issuerId;
    var signer := SignerStep(env, id, fuel, memo);
    SignerCutsShort(env, id, fuel, memo);
    if signer.answer.Signer? {
      CandidateCutsShort(env, digest, requested, candidates, signer.answer.states, allowance,
        Drop(fuel, signer.spent), signer.memo);
    } else if !signer.answer.TooExpensive? && !signer.answer.SignerThrew? {
      ScanCutsShort(env, digest, requested, candidates[1..], allowance, Drop(fuel, signer.spent), signer.memo);
    }
  }

  lemma {:induction false} CandidateCutsShort(env: Env, digest: Text, requested: set<Text>, candidates: seq<Candidate>,
      states: seq<AnchoredKeyState>, allowance: nat, fuel: Fuel, memo: Memo)
    requires candidates != [] && candidates[0].Parsed?
    ensures var s := CandidateStep(env, digest, requested, candidates, states, allowance, fuel, memo);
      CutsShort(s, CandidateStep(env, digest, requested, candidates, states, allowance, None, memo),
        s.answer.LookupTooExpensive?)
    decreases |candidates|, 0
  {
    var w := JudgeCandidate(env, candidates[0].revocation, states);
    if w.cost <= Tighter(fuel, allowance) {
      ScanCutsShort(env, digest, requested, candidates[1..], allowance - w.cost, Drop(fuel, w.cost), memo);
    }
  }

  lemma {:induction false} RevocationCutsShort(env: Env, o: Options, chain: seq<Grant>, i: nat, fuel: Fuel, memo: Memo)
    requires i < |chain|
    ensures var s := RevocationStep(env, o, chain, i, fuel, memo);
      CutsShort(s, RevocationStep(env, o, chain, i, None, memo), Refused(s.answer))
  {
    if ChecksRevocation(o) {
      var digest, revokers := GrantDigest(env.c, chain[i]), Revokers(chain, i);
      match env.view.revocations(digest, revokers)
      case RevocationsUnreachable =>
      case Candidates(candidates) =>
        ScanCutsShort(env, digest, IdSet(revokers), candidates, CANDIDATE_ALLOWANCE, fuel, memo);
    }
  }

  lemma {:induction false} ChargeCutsShort(w: Work<LinkOutcome>, fuel: Fuel, memo: Memo)
    requires w.cost <= MAX_KEY_EVENT_KEYS
    ensures var s := ChargeStep(w, fuel, memo); CutsShort(s, ChargeStep(w, None, memo), Refused(s.answer))
  {}

  lemma {:induction false} ParticipantCutsShort(env: Env, link: Grant, fuel: Fuel, memo: Memo)
    requires MemoSound(env, memo) && IsParticipant(link.issuerId)
    ensures var s := SignatureStep(env, link, fuel, memo);
      CutsShort(s, SignatureStep(env, link, None, memo), Refused(s.answer))
  {
    SignerCutsShort(env, link.issuerId, fuel, memo);
    SignerRefines(env, link.issuerId, fuel, memo);
    var signer := SignerStep(env, link.issuerId, fuel, memo);
    if signer.answer.Signer? && link.anchor.Some? {
      LinkCheckCost(env, link, signer.answer.states);
      var w := JudgeLinkSet(env, link, signer.answer.states);
      ChargeCutsShort(Work(LinkSetOutcome(w.verdict), w.cost), Drop(fuel, signer.spent), signer.memo);
    }
  }

  lemma {:induction false} SignatureCutsShort(env: Env, link: Grant, fuel: Fuel, memo: Memo)
    requires MemoSound(env, memo)
    ensures var s := SignatureStep(env, link, fuel, memo);
      CutsShort(s, SignatureStep(env, link, None, memo), Refused(s.answer))
  {
    if IsParticipant(link.issuerId) {
      ParticipantCutsShort(env, link, fuel, memo);
    } else {
      KeyIssuerCost(env, link);
      var w := JudgeKeyIssuer(env, link);
      ChargeCutsShort(Work(KeyIssuerOutcome(w.verdict), w.cost), fuel, memo);
    }
  }

  /** Replayed states are no wider than a key event, so one check of a record costs at most eight. */
  lemma {:induction false} SignerStatesNarrow(env: Env, id: Text, states: seq<AnchoredKeyState>)
    requires JudgeSigner(env, id).verdict == Signer(states)
    ensures forall s :: s in states ==> |s.keys| <= MAX_KEY_EVENT_KEYS
  {
    var events := env.view.keyLog(id).events;
    ReplayAcceptsValidLogs(env.c, events);
    forall s | s in states ensures |s.keys| <= MAX_KEY_EVENT_KEYS {
      var i :| 0 <= i < |states| && states[i] == s;
      assert ValidAt(env.c, events, i);
    }
  }

  lemma {:induction false} LinkCheckCost(env: Env, link: Grant, states: seq<AnchoredKeyState>)
    requires link.anchor.Some? && JudgeSigner(env, link.issuerId).verdict == Signer(states)
    ensures JudgeLinkSet(env, link, states).cost <= MAX_KEY_EVENT_KEYS
  {
    SignerStatesNarrow(env, link.issuerId, states);
    AnchoredCostBound(env.c, GrantRecord(link), link.anchor.value, states);
  }

  lemma {:induction false} CandidateCost(env: Env, r: Revocation, states: seq<AnchoredKeyState>)
    requires JudgeSigner(env, r.issuerId).verdict == Signer(states)
    ensures JudgeCandidate(env, r, states).cost <= MAX_KEY_EVENT_KEYS
  {
    SignerStatesNarrow(env, r.issuerId, states);
    AnchoredCostBound(env.c, RevocationRecord(r), r.anchor, states);
  }

  lemma {:induction false} KeyIssuerCost(env: Env, link: Grant)
    ensures JudgeKeyIssuer(env, link).cost <= 1
  {}

  lemma {:induction false} LinkCutsShort(env: Env, o: Options, chain: seq<Grant>, i: nat, fuel: Fuel, memo: Memo)
    requires MemoSound(env, memo) && i < |chain|
    ensures var s := LinkStep(env, o, chain, i, fuel, memo);
      CutsShort(s, LinkStep(env, o, chain, i, None, memo), Refused(s.answer))
  {
    SignatureCutsShort(env, chain[i], fuel, memo);
    var signed := SignatureStep(env, chain[i], fuel, memo);
    RevocationCutsShort(env, o, chain, i, Drop(fuel, signed.spent), signed.memo);
  }

  lemma {:induction false} RunCutsShort(env: Env, links: LinkRunner, i: nat, n: nat, fuel: Fuel, memo: Memo)
    requires MemoSound(env, memo) && i <= n
    requires forall j: nat, f: Fuel, m: Memo :: j < n && MemoSound(env, m) ==>
      CutsShort(links(j, f, m), links(j, None, m), Refused(links(j, f, m).answer))
        && MemoSound(env, links(j, f, m).memo)
    ensures CutsShort(RunStep(links, i, n, fuel, memo), RunStep(links, i, n, None, memo),
      Refused(RunStep(links, i, n, fuel, memo).answer))
    decreases n - i
  {
    if i < n {
      var link := links(i, fuel, memo);
      assert CutsShort(link, links(i, None, memo), Refused(link.answer)) && MemoSound(env, link.memo);
      RunCutsShort(env, links, i + 1, n, Drop(fuel, link.spent), link.memo);
    }
  }

  lemma {:induction false} ChainCutsShort(env: Env, o: Options, chain: seq<Grant>, fuel: Fuel, memo: Memo)
    requires MemoSound(env, memo)
    ensures var links := LinkSteps(env, o, chain);
      var s := RunStep(links, 0, |chain|, fuel, memo);
      CutsShort(s, RunStep(links, 0, |chain|, None, memo), Refused(s.answer))
  {
    var links := LinkSteps(env, o, chain);
    forall j: nat, f: Fuel, m: Memo | j < |chain| && MemoSound(env, m)
      ensures CutsShort(links(j, f, m), links(j, None, m), Refused(links(j, f, m).answer))
        && MemoSound(env, links(j, f, m).memo)
    {
      LinkCutsShort(env, o, chain, j, f, m);
      LinkRefines(env, o, chain, j, f, m);
    }
    RunCutsShort(env, links, 0, |chain|, fuel, memo);
  }
}
