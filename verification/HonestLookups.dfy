/**
 * What a chain costs when the view is honest about revocations (packages/trust/src/resolver.ts:1120-1130):
 * every candidate it serves for a grant revokes it, so the first one ends the run.
 */
module HonestLookups {
  import opened Common
  import opened Metering
  import opened Records
  import opened Grants
  import opened Resolver
  import opened Refinement
  import opened WorkBounds

  /** The ceiling documented for honest views: L * E * K + L * K + K. */
  const HONEST_CEILING: nat := MAX_GRANT_CHAIN_LINKS * DEFAULT_MAX_KEY_LOG_SIGNATURE_VERIFICATIONS
    + MAX_GRANT_CHAIN_LINKS * MAX_KEY_EVENT_KEYS + MAX_KEY_EVENT_KEYS

  /** A candidate that speaks of the grant in the name of one of its revokers does revoke it. */
  ghost predicate Genuine(env: Env, candidate: Candidate, digest: Text, requested: set<Text>) {
    Relevant(candidate, digest, requested) ==>
      var answer := JudgeSigner(env, candidate.revocation.issuerId).verdict;
      answer.Signer? && JudgeCandidate(env, candidate.revocation, answer.states).verdict == Decided(Accepted)
  }

  ghost predicate HonestLookup(env: Env, chain: seq<Grant>, i: nat)
    requires i < |chain|
  {
    var digest, revokers := GrantDigest(env.c, chain[i]), Revokers(chain, i);
    match env.view.revocations(digest, revokers)
    case RevocationsUnreachable => true
    case Candidates(candidates) => forall c :: c in candidates ==> Genuine(env, c, digest, IdSet(revokers))
  }

  ghost predicate HonestView(env: Env, chain: seq<Grant>) {
    forall i :: 0 <= i < |chain| ==> HonestLookup(env, chain, i)
  }

  // -------- One lookup --------

  /** Nothing was spent and the scan goes on to its end, or one candidate was judged, and it revokes. */
  ghost predicate OneCandidate(s: Step<Lookup>, memo: Memo) {
    if s.answer.NoRevocation? then s == Step(NoRevocation, 0, 0, memo)
    else s.replays <= 1 && s.spent <= Replays(s.replays) + MAX_KEY_EVENT_KEYS
  }

  lemma {:induction false} HonestScan(env: Env, digest: Text, requested: set<Text>, candidates: seq<Candidate>,
      allowance: nat, memo: Memo)
    requires MemoSound(env, memo) && allowance >= MAX_KEY_EVENT_KEYS
    requires forall c :: c in candidates ==> Genuine(env, c, digest, requested)
    ensures OneCandidate(ScanStep(env, digest, requested, candidates, allowance, None, memo), memo)
    decreases |candidates|
  {
    if candidates != [] {
      assert Genuine(env, candidates[0], digest, requested);
      if Relevant(candidates[0], digest, requested) {
        RevokingScan(env, digest, requested, candidates, allowance, memo);
      } else {
        HonestScan(env, digest, requested, candidates[1..], allowance, memo);
      }
    }
  }

  /** A genuine candidate is found: one replay at most, and one check. */
  lemma {:induction false} RevokingScan(env: Env, digest: Text, requested: set<Text>, candidates: seq<Candidate>,
      allowance: nat, memo: Memo)
    requires MemoSound(env, memo) && allowance >= MAX_KEY_EVENT_KEYS
    requires candidates != [] && Relevant(candidates[0], digest, requested)
    requires Genuine(env, candidates[0], digest, requested)
    ensures OneCandidate(ScanStep(env, digest, requested, candidates, allowance, None, memo), memo)
  {
    var r := candidates[0].revocation;
    var signer, states := SignerStep(env, r.issuerId, None, memo), JudgeSigner(env, r.issuerId).verdict.states;
    SignerCostBound(env, r.issuerId);
    CandidateCost(env, r, states);
    assert signer.answer == Signer(states) && signer.replays <= 1 && signer.spent <= Replays(signer.replays);
  }

  lemma {:induction false} HonestRevocation(env: Env, o: Options, chain: seq<Grant>, i: nat, memo: Memo)
    requires i < |chain| && HonestLookup(env, chain, i) && MemoSound(env, memo)
    ensures var s := RevocationStep(env, o, chain, i, None, memo);
      if s.answer.LinkPasses? then s.spent == 0 && s.replays == 0
      else s.replays <= 1 && s.spent <= Replays(s.replays) + MAX_KEY_EVENT_KEYS
  {
    if ChecksRevocation(o) {
      var digest, revokers := GrantDigest(env.c, chain[i]), Revokers(chain, i);
      match env.view.revocations(digest, revokers)
      case RevocationsUnreachable =>
      case Candidates(candidates) => HonestScan(env, digest, IdSet(revokers), candidates, CANDIDATE_ALLOWANCE, memo);
    }
  }

  // -------- One link --------

  /**
   * A link that passes costs one replay and its own check; one that ends the run, with `more` links above,
   * no more than both allow.
   */
  ghost predicate HonestStep(s: Step<LinkOutcome>, more: nat) {
    if s.answer.LinkPasses? then s.replays <= 1 && s.spent <= Replays(s.replays) + MAX_KEY_EVENT_KEYS
    else s.replays <= (if more > 0 then 2 else 1) && s.spent <= Replays(s.replays) + 2 * MAX_KEY_EVENT_KEYS
  }

  lemma {:induction false} SignatureSpends(env: Env, link: Grant, memo: Memo)
    requires MemoSound(env, memo)
    ensures var s := SignatureStep(env, link, None, memo);
      s.replays <= 1 && s.spent <= Replays(s.replays) + MAX_KEY_EVENT_KEYS && MemoSound(env, s.memo)
  {
    SignatureBound(env, link, memo, {link.issuerId});
    SignatureRefines(env, link, None, memo);
  }

  lemma {:induction false} HonestLink(env: Env, o: Options, chain: seq<Grant>, i: nat, memo: Memo)
    requires i < |chain| && HonestLookup(env, chain, i) && MemoSound(env, memo)
    ensures HonestStep(LinkStep(env, o, chain, i, None, memo), |chain| - 1 - i)
  {
    var signed := SignatureStep(env, chain[i], None, memo);
    SignatureSpends(env, chain[i], memo);
    HonestRevocation(env, o, chain, i, signed.memo);
    if i + 1 == |chain| {
      RootReplaysOnce(env, o, chain, i, memo);
    }
  }

  // -------- The run --------

  /** What `n` links cost under an honest view: a replay and a check each, and one candidate. */
  ghost predicate HonestRun(s: Step<LinkOutcome>, n: nat) {
    s.replays <= n && s.spent <= Replays(s.replays) + Checks(n + 1)
  }

  ghost predicate HonestSteps(env: Env, links: LinkRunner, n: nat) {
    forall j: nat, m: Memo :: j < n && MemoSound(env, m) ==>
      HonestStep(links(j, None, m), n - 1 - j) && MemoSound(env, links(j, None, m).memo)
  }

  lemma {:induction false} HonestThen(link: Step<LinkOutcome>, rest: Step<LinkOutcome>, more: nat)
    requires HonestStep(link, more) && (link.answer.LinkPasses? ==> HonestRun(rest, more))
    ensures HonestRun(Then(link, rest), more + 1)
  {}

  lemma {:induction false} HonestRunBound(env: Env, links: LinkRunner, i: nat, n: nat, memo: Memo)
    requires HonestSteps(env, links, n) && i <= n && MemoSound(env, memo)
    ensures HonestRun(RunStep(links, i, n, None, memo), n - i)
    decreases n - i
  {
    if i < n {
      var link := links(i, None, memo);
      assert HonestStep(link, n - 1 - i);
      HonestRunBound(env, links, i + 1, n, link.memo);
      HonestThen(link, RunStep(links, i + 1, n, None, link.memo), n - 1 - i);
    }
  }

  lemma {:induction false} ChainIsHonest(env: Env, o: Options, chain: seq<Grant>)
    requires HonestView(env, chain)
    ensures HonestSteps(env, LinkSteps(env, o, chain), |chain|)
  {
    var links := LinkSteps(env, o, chain);
    forall j: nat, m: Memo | j < |chain| && MemoSound(env, m)
      ensures HonestStep(links(j, None, m), |chain| - 1 - j) && MemoSound(env, links(j, None, m).memo)
    {
      HonestLink(env, o, chain, j, m);
      LinkRefines(env, o, chain, j, None, m);
    }
  }

  /**
   * Under a view that serves only genuine revocations, whatever the logs it serves, a chain starts at
   * most one replay per link and costs at most one check per link and one candidate besides: the
   * documented honest ceiling, 4136 for the longest chain.
   */
  lemma {:induction false} HonestCeiling(env: Env, o: Options, chain: seq<Grant>, fuel: Fuel, memo: Memo)
    requires MemoSound(env, memo) && HonestView(env, chain)
    ensures var s := VerifyStep(env, o, chain, fuel, memo);
      s.replays <= |chain| && s.spent <= Replays(|chain|) + Checks(|chain| + 1) && s.spent <= HONEST_CEILING
  {
    var links := LinkSteps(env, o, chain);
    VerifyCharges(env, o, chain, fuel, memo);
    ChainIsHonest(env, o, chain);
    HonestRunBound(env, links, 0, |chain|, memo);
    ChainCutsShort(env, o, chain, fuel, memo);
  }
}
