/** What one chain verification can be made to cost (packages/trust/src/resolver.ts:1094-1130). */
module WorkBounds {
  import opened Common
  import opened Metering
  import opened KeyLog
  import opened Grants
  import opened Resolver
  import opened Refinement

  /** The ceiling documented for the longest chain: L * E * K + L * K + L * R. */
  const DOCUMENTED_CEILING: nat := MAX_GRANT_CHAIN_LINKS * DEFAULT_MAX_KEY_LOG_SIGNATURE_VERIFICATIONS
    + MAX_GRANT_CHAIN_LINKS * MAX_KEY_EVENT_KEYS + MAX_GRANT_CHAIN_LINKS * CANDIDATE_ALLOWANCE

  /** E * K each: the dearest `n` log replays can be. */
  function Replays(n: nat): (checks: nat)
    ensures checks == 1024 * n
  {
    DEFAULT_MAX_KEY_LOG_SIGNATURE_VERIFICATIONS * n
  }

  /** K each: the dearest `n` checks of a record against one key state can be. */
  function Checks(n: nat): (checks: nat)
    ensures checks == 8 * n
  {
    MAX_KEY_EVENT_KEYS * n
  }

  function Min(a: nat, b: nat): nat {
    if a < b then a else b
  }

  /** The distinct issuers a lookup at link `i` asks about. */
  function Asked(chain: seq<Grant>, i: nat): nat
    requires i <= |chain|
  {
    |IdSet(Revokers(chain, i))|
  }

  function Sum(f: nat -> nat, i: nat, n: nat): nat
    requires i <= n
    decreases n - i
  {
    if i == n then 0 else f(i) + Sum(f, i + 1, n)
  }

  /** The replays a link can start: 1 + u, but at the root only one, which its lookup then remembers. */
  function LinkReplays(chain: seq<Grant>): nat -> nat {
    (i: nat) => if i + 1 < |chain| then 1 + Asked(chain, i) else if i < |chain| then 1 else 0
  }

  /** K + min(R, u * K) at each link: its curve checks apart from replays. */
  function LinkChecks(chain: seq<Grant>): nat -> nat {
    (i: nat) => if i < |chain| then MAX_KEY_EVENT_KEYS + Min(CANDIDATE_ALLOWANCE, Checks(Asked(chain, i))) else 0
  }

  /** Every one of these participants' logs replays clean. */
  ghost predicate Clean(env: Env, ids: set<Text>) {
    forall id :: id in ids ==> JudgeSigner(env, id).verdict.Signer?
  }

  /** The memo gained exactly one entry per replay, all of them among `ids`. */
  ghost predicate Grew(before: Memo, after: Memo, replays: nat, ids: set<Text>) {
    |after| == |before| + replays && before.Keys <= after.Keys && after.Keys <= before.Keys + ids
  }

  lemma {:induction false} GrewTwice(a: Memo, b: Memo, c: Memo, m: nat, n: nat, ids: set<Text>)
    requires Grew(a, b, m, ids) && Grew(b, c, n, ids)
    ensures Grew(a, c, m + n, ids)
  {}

  lemma {:induction false} SignerBound(env: Env, id: Text, memo: Memo, ids: set<Text>)
    ensures var s := SignerStep(env, id, None, memo);
      && s.replays <= 1 && s.spent <= Replays(s.replays)
      && (id in ids && Clean(env, ids) ==> Grew(memo, s.memo, s.replays, ids))
  {
    SignerCostBound(env, id);
    var s := SignerStep(env, id, None, memo);
    if id !in memo && s.answer.Signer? {
      assert s.memo.Keys == memo.Keys + {id};
    }
  }

  /** What a step of the unmetered run costs and leaves behind. */
  ghost predicate Bounded<T>(env: Env, s: Step<T>, memo: Memo, replays: nat, checks: nat, ids: set<Text>) {
    && s.replays <= replays
    && s.spent <= Replays(s.replays) + checks
    && (Clean(env, ids) ==> Grew(memo, s.memo, s.replays, ids))
  }

  lemma {:induction false} BoundedAfter<S, T>(env: Env, first: Step<S>, second: Step<T>, memo: Memo, r1: nat, c1: nat,
      r2: nat, c2: nat, ids: set<Text>)
    requires Bounded(env, first, memo, r1, c1, ids) && Bounded(env, second, first.memo, r2, c2, ids)
    ensures Bounded(env, After(first, second), memo, r1 + r2, c1 + c2, ids)
  {
    if Clean(env, ids) {
      GrewTwice(memo, first.memo, second.memo, first.replays, second.replays, ids);
    }
  }

  /** What a relevant candidate leads to, once its issuer has been asked about. */
  lemma {:induction false} SignerThenRest(env: Env, signer: Step<SignerAnswer>, rest: Step<Lookup>, memo: Memo,
      checks: nat, n: nat, ids: set<Text>)
    requires n > 0 && Bounded(env, signer, memo, 1, 0, ids) && Bounded(env, rest, signer.memo, n - 1, checks, ids)
    ensures Bounded(env, After(signer, rest), memo, n, checks, ids)
  {
    BoundedAfter(env, signer, rest, memo, 1, 0, n - 1, checks, ids);
  }

  lemma {:induction false} ScanBound(env: Env, digest: Text, requested: set<Text>, candidates: seq<Candidate>,
      allowance: nat, memo: Memo, ids: set<Text>)
    requires MemoSound(env, memo) && requested <= ids
    ensures Bounded(env, ScanStep(env, digest, requested, candidates, allowance, None, memo), memo,
      |candidates|, Min(allowance, Checks(|candidates|)), ids)
    decreases |candidates|, 2
  {
    if candidates == [] {
    } else if Relevant(candidates[0], digest, requested) {
      RelevantBound(env, digest, requested, candidates, allowance, memo, ids);
    } else {
      ScanBound(env, digest, requested, candidates[1..], allowance, memo, ids);
    }
  }

  lemma {:induction false} RelevantBound(env: Env, digest: Text, requested: set<Text>, candidates: seq<Candidate>,
      allowance: nat, memo: Memo, ids: set<Text>)
    requires MemoSound(env, memo) && requested <= ids && candidates != [] && Relevant(candidates[0], digest, requested)
    ensures Bounded(env, ScanStep(env, digest, requested, candidates, allowance, None, memo), memo,
      |candidates|, Min(allowance, Checks(|candidates|)), ids)
    decreases |candidates|, 1
  {
    var id := candidates[0].revocation.issuerId;
    SignerRefines(env, id, None, memo);
    var signer := SignerStep(env, id, None, memo);
    if signer.answer.Signer? {
      CandidateBound(env, digest, requested, candidates, signer.answer.states, allowance, signer.memo, ids);
      ScanPastSigner(env, digest, requested, candidates, signer, allowance, memo, ids);
    } else if signer.answer.SignerThrew? {
      SignerBound(env, id, memo, ids);
    } else {
      ScanBound(env, digest, requested, candidates[1..], allowance, signer.memo, ids);
      ScanPastFailure(env, digest, requested, candidates, signer, allowance, memo, ids);
    }
  }

  lemma {:induction false} ScanPastSigner(env: Env, digest: Text, requested: set<Text>, candidates: seq<Candidate>,
      signer: Step<SignerAnswer>, allowance: nat, memo: Memo, ids: set<Text>)
    requires requested <= ids && candidates != [] && Relevant(candidates[0], digest, requested)
    requires signer == SignerStep(env, candidates[0].revocation.issuerId, None, memo) && signer.answer.Signer?
    requires Bounded(env,
      CandidateStep(env, digest, requested, candidates, signer.answer.states, allowance, None, signer.memo),
      signer.memo,
      |candidates| - 1, Min(allowance, Checks(|candidates|)), ids)
    ensures Bounded(env, ScanStep(env, digest, requested, candidates, allowance, None, memo), memo,
      |candidates|, Min(allowance, Checks(|candidates|)), ids)
  {
    SignerBound(env, candidates[0].revocation.issuerId, memo, ids);
    var rest := CandidateStep(env, digest, requested, candidates, signer.answer.states, allowance, None, signer.memo);
    SignerThenRest(env, signer, rest, memo, Min(allowance, Checks(|candidates|)), |candidates|, ids);
  }

  lemma {:induction false} ScanPastFailure(env: Env, digest: Text, requested: set<Text>, candidates: seq<Candidate>,
      signer: Step<SignerAnswer>, allowance: nat, memo: Memo, ids: set<Text>)
    requires requested <= ids && candidates != [] && Relevant(candidates[0], digest, requested)
    requires signer == SignerStep(env, candidates[0].revocation.issuerId, None, memo)
      && (signer.answer.Unresolved? || signer.answer.Mismatched?)
    requires Bounded(env, ScanStep(env, digest, requested, candidates[1..], allowance, None, signer.memo), signer.memo,
      |candidates| - 1, Min(allowance, Checks(|candidates| - 1)), ids)
    ensures Bounded(env, ScanStep(env, digest, requested, candidates, allowance, None, memo), memo,
      |candidates|, Min(allowance, Checks(|candidates|)), ids)
  {
    SignerBound(env, candidates[0].revocation.issuerId, memo, ids);
    var rest := ScanStep(env, digest, requested, candidates[1..], allowance, None, signer.memo);
    SignerThenRest(env, signer, rest, memo, Min(allowance, Checks(|candidates| - 1)), |candidates|, ids);
  }

  lemma {:induction false} CandidateBound(env: Env, digest: Text, requested: set<Text>, candidates: seq<Candidate>,
      states: seq<AnchoredKeyState>, allowance: nat, memo: Memo, ids: set<Text>)
    requires MemoSound(env, memo) && requested <= ids && candidates != [] && candidates[0].Parsed?
    requires JudgeSigner(env, candidates[0].revocation.issuerId).verdict == Signer(states)
    ensures Bounded(env, CandidateStep(env, digest, requested, candidates, states, allowance, None, memo), memo,
      |candidates| - 1, Min(allowance, Checks(|candidates|)), ids)
    decreases |candidates|, 0
  {
    var w := JudgeCandidate(env, candidates[0].revocation, states);
    CandidateCost(env, candidates[0].revocation, states);
    if w.cost <= allowance {
      ScanBound(env, digest, requested, candidates[1..], allowance - w.cost, memo, ids);
    }
  }

  lemma {:induction false} RevocationBound(env: Env, o: Options, chain: seq<Grant>, i: nat, memo: Memo, ids: set<Text>)
    requires MemoSound(env, memo) && i < |chain| && IdSet(Revokers(chain, i)) <= ids
    ensures Bounded(env, RevocationStep(env, o, chain, i, None, memo), memo,
      Asked(chain, i), Min(CANDIDATE_ALLOWANCE, Checks(Asked(chain, i))), ids)
  {
    if ChecksRevocation(o) {
      var digest, revokers := GrantDigest(env.c, chain[i]), Revokers(chain, i);
      match env.view.revocations(digest, revokers)
      case RevocationsUnreachable =>
      case Candidates(candidates) =>
        ScanBound(env, digest, IdSet(revokers), candidates, CANDIDATE_ALLOWANCE, memo, ids);
    }
  }

  lemma {:induction false} SignatureBound(env: Env, link: Grant, memo: Memo, ids: set<Text>)
    requires MemoSound(env, memo) && (IsParticipant(link.issuerId) ==> link.issuerId in ids)
    ensures Bounded(env, SignatureStep(env, link, None, memo), memo, 1, MAX_KEY_EVENT_KEYS, ids)
  {
    if IsParticipant(link.issuerId) {
      SignerBound(env, link.issuerId, memo, ids);
      SignerRefines(env, link.issuerId, None, memo);
      var signer := SignerStep(env, link.issuerId, None, memo);
      if signer.answer.Signer? && link.anchor.Some? {
        LinkCheckCost(env, link, signer.answer.states);
      }
    } else {
      KeyIssuerCost(env, link);
    }
  }

  /** A step that charged the same and left the same memo is bounded by anything larger. */
  lemma {:induction false} BoundedWeaken<S, T>(env: Env, s: Step<S>, t: Step<T>, memo: Memo, r: nat, c: nat, r': nat,
      c': nat, ids: set<Text>)
    requires Bounded(env, s, memo, r, c, ids) && r <= r' && c <= c'
    requires t.spent == s.spent && t.replays == s.replays && t.memo == s.memo
    ensures Bounded(env, t, memo, r', c', ids)
  {}

  lemma {:induction false} FreeStepBounded<T>(env: Env, t: Step<T>, memo: Memo, r: nat, c: nat, ids: set<Text>)
    requires t.spent == 0 && t.replays == 0 && t.memo == memo
    ensures Bounded(env, t, memo, r, c, ids)
  {}

  /** A lookup about issuers already remembered replays nothing. */
  lemma {:induction false} ScanRemembered(env: Env, digest: Text, requested: set<Text>, candidates: seq<Candidate>,
      allowance: nat, memo: Memo)
    requires requested <= memo.Keys
    ensures ScanStep(env, digest, requested, candidates, allowance, None, memo).replays == 0
    decreases |candidates|
  {
    if candidates != [] {
      ScanRemembered(env, digest, requested, candidates[1..], allowance, memo);
      if Relevant(candidates[0], digest, requested) {
        var w := JudgeCandidate(env, candidates[0].revocation, memo[candidates[0].revocation.issuerId]);
        if w.cost <= allowance {
          ScanRemembered(env, digest, requested, candidates[1..], allowance - w.cost, memo);
        }
      }
    }
  }

  lemma {:induction false} LookupRemembered(env: Env, o: Options, chain: seq<Grant>, i: nat, memo: Memo)
    requires i < |chain| && IdSet(Revokers(chain, i)) <= memo.Keys
    ensures RevocationStep(env, o, chain, i, None, memo).replays == 0
  {
    var digest, revokers := GrantDigest(env.c, chain[i]), Revokers(chain, i);
    match env.view.revocations(digest, revokers)
    case RevocationsUnreachable =>
    case Candidates(candidates) => ScanRemembered(env, digest, IdSet(revokers), candidates, CANDIDATE_ALLOWANCE, memo);
  }

  /** Once a participant's signature has passed, its states are remembered. */
  lemma {:induction false} PassedIsRemembered(env: Env, link: Grant, memo: Memo)
    requires SignatureStep(env, link, None, memo).answer.LinkPasses? && IsParticipant(link.issuerId)
    ensures link.issuerId in SignatureStep(env, link, None, memo).memo
  {
  }

  lemma {:induction false} SignatureReplaysOnce(env: Env, link: Grant, memo: Memo)
    ensures SignatureStep(env, link, None, memo).replays <= 1
  {
  }

  lemma {:induction false} LinkStepReplays(env: Env, o: Options, chain: seq<Grant>, i: nat, memo: Memo)
    requires i < |chain|
    ensures var signed := SignatureStep(env, chain[i], None, memo);
      LinkStep(env, o, chain, i, None, memo).replays <= signed.replays
        + if signed.answer.LinkPasses? then RevocationStep(env, o, chain, i, None, signed.memo).replays else 0
  {
  }

  /** The root link's lookup asks about the root issuer alone, so the link starts one replay at most. */
  lemma {:induction false} RootReplaysOnce(env: Env, o: Options, chain: seq<Grant>, i: nat, memo: Memo)
    requires i + 1 == |chain|
    ensures LinkStep(env, o, chain, i, None, memo).replays <= 1
  {
    LinkStepReplays(env, o, chain, i, memo);
    SignatureReplaysOnce(env, chain[i], memo);
    if SignatureStep(env, chain[i], None, memo).answer.LinkPasses? {
      RootLookupFree(env, o, chain, i, memo);
    }
  }

  lemma {:induction false} RootLookupFree(env: Env, o: Options, chain: seq<Grant>, i: nat, memo: Memo)
    requires i + 1 == |chain| && SignatureStep(env, chain[i], None, memo).answer.LinkPasses?
    ensures RevocationStep(env, o, chain, i, None, SignatureStep(env, chain[i], None, memo).memo).replays == 0
  {
    assert Revokers(chain, i) ==
      (if IsParticipant(chain[i].issuerId) then [chain[i].issuerId] else []) + Revokers(chain, i + 1);
    if IsParticipant(chain[i].issuerId) { PassedIsRemembered(env, chain[i], memo); }
    LookupRemembered(env, o, chain, i, SignatureStep(env, chain[i], None, memo).memo);
  }

  lemma {:induction false} LinkSignatureBound(env: Env, chain: seq<Grant>, i: nat, memo: Memo, ids: set<Text>)
    requires MemoSound(env, memo) && i < |chain| && IdSet(Revokers(chain, i)) <= ids
    ensures var s := SignatureStep(env, chain[i], None, memo);
      Bounded(env, s, memo, 1, MAX_KEY_EVENT_KEYS, ids) && MemoSound(env, s.memo)
  {
    assert IsParticipant(chain[i].issuerId) ==> chain[i].issuerId in Revokers(chain, i);
    SignatureBound(env, chain[i], memo, ids);
    SignatureRefines(env, chain[i], None, memo);
  }

  lemma {:induction false} AnyLinkBound(env: Env, o: Options, chain: seq<Grant>, i: nat, memo: Memo, ids: set<Text>)
    requires MemoSound(env, memo) && i < |chain| && IdSet(Revokers(chain, i)) <= ids
    ensures Bounded(env, LinkStep(env, o, chain, i, None, memo), memo, 1 + Asked(chain, i), LinkChecks(chain)(i), ids)
  {
    var link, u := LinkStep(env, o, chain, i, None, memo), Asked(chain, i);
    if PreludeReason(env, o, chain[i]).Some? {
      FreeStepBounded(env, link, memo, 1 + u, LinkChecks(chain)(i), ids);
    } else {
      var signed := SignatureStep(env, chain[i], None, memo);
      LinkSignatureBound(env, chain, i, memo, ids);
      if signed.answer.LinkPasses? && ProofMatches(env, chain, i) {
        RevocationBound(env, o, chain, i, signed.memo, ids);
        BoundedAfter(env, signed, RevocationStep(env, o, chain, i, None, signed.memo), memo, 1, MAX_KEY_EVENT_KEYS,
          u, Min(CANDIDATE_ALLOWANCE, Checks(u)), ids);
      } else {
        BoundedWeaken(env, signed, link, memo, 1, MAX_KEY_EVENT_KEYS, 1 + u, LinkChecks(chain)(i), ids);
      }
    }
  }

  lemma {:induction false} LinkBound(env: Env, o: Options, chain: seq<Grant>, i: nat, memo: Memo, ids: set<Text>)
    requires MemoSound(env, memo) && i < |chain| && IdSet(Revokers(chain, i)) <= ids
    ensures Bounded(env, LinkStep(env, o, chain, i, None, memo), memo, LinkReplays(chain)(i), LinkChecks(chain)(i), ids)
  {
    AnyLinkBound(env, o, chain, i, memo, ids);
    if i + 1 == |chain| {
      RootReplaysOnce(env, o, chain, i, memo);
    }
  }

  lemma {:induction false} BoundedThen(env: Env, link: Step<LinkOutcome>, rest: Step<LinkOutcome>, memo: Memo, r1: nat,
      c1: nat, r2: nat, c2: nat, ids: set<Text>)
    requires Bounded(env, link, memo, r1, c1, ids)
    requires link.answer.LinkPasses? ==> Bounded(env, rest, link.memo, r2, c2, ids)
    ensures Bounded(env, Then(link, rest), memo, r1 + r2, c1 + c2, ids)
  {
    if link.answer.LinkPasses? {
      BoundedAfter(env, link, rest, memo, r1, c1, r2, c2, ids);
    }
  }

  /** Every link, from every sound memo, is bounded by its own terms. */
  ghost predicate LinksBounded(env: Env, links: LinkRunner, replays: nat -> nat, checks: nat -> nat,
      n: nat, ids: set<Text>) {
    forall j: nat, m: Memo :: j < n && MemoSound(env, m) ==>
      Bounded(env, links(j, None, m), m, replays(j), checks(j), ids) && MemoSound(env, links(j, None, m).memo)
  }

  lemma {:induction false} RunBound(env: Env, links: LinkRunner, replays: nat -> nat, checks: nat -> nat, i: nat,
      n: nat, memo: Memo, ids: set<Text>)
    requires MemoSound(env, memo) && i <= n && LinksBounded(env, links, replays, checks, n, ids)
    ensures Bounded(env, RunStep(links, i, n, None, memo), memo, Sum(replays, i, n), Sum(checks, i, n), ids)
    decreases n - i
  {
    if i == n {
      FreeStepBounded(env, RunStep(links, i, n, None, memo), memo, 0, 0, ids);
    } else {
      var link := links(i, None, memo);
      RunBound(env, links, replays, checks, i + 1, n, link.memo, ids);
      BoundedThen(env, link, RunStep(links, i + 1, n, None, link.memo), memo, replays(i), checks(i),
        Sum(replays, i + 1, n), Sum(checks, i + 1, n), ids);
    }
  }

  lemma {:induction false} RevokersShrink(chain: seq<Grant>, i: nat)
    requires i <= |chain|
    ensures IdSet(Revokers(chain, i)) <= IdSet(Revokers(chain, 0))
  {
    if i > 0 { RevokersShrink(chain, i - 1); }
  }

  lemma {:induction false} ChainLinksBounded(env: Env, o: Options, chain: seq<Grant>)
    ensures LinksBounded(env, LinkSteps(env, o, chain), LinkReplays(chain), LinkChecks(chain), |chain|,
      IdSet(Revokers(chain, 0)))
  {
    var links, ids := LinkSteps(env, o, chain), IdSet(Revokers(chain, 0));
    forall j: nat, m: Memo | j < |chain| && MemoSound(env, m)
      ensures Bounded(env, links(j, None, m), m, LinkReplays(chain)(j), LinkChecks(chain)(j), ids)
        && MemoSound(env, links(j, None, m).memo)
    {
      RevokersShrink(chain, j);
      LinkBound(env, o, chain, j, m, ids);
      LinkRefines(env, o, chain, j, None, m);
    }
  }

  lemma {:induction false} SumAtMost(f: nat -> nat, i: nat, n: nat)
    requires i <= n && forall j: nat :: f(j) <= 24
    ensures Sum(f, i, n) <= 24 * (n - i)
    decreases n - i
  {
    if i < n { SumAtMost(f, i + 1, n); }
  }

  /** The replays a chain of `m` more links can start: 1 at the root, 3 below it, then 4, then 5. */
  function Dearest(m: nat): nat {
    if m <= 1 then m else 1 + m + Dearest(m - 1)
  }

  lemma {:induction false} ReplaysAtMost(chain: seq<Grant>, i: nat)
    requires i <= |chain|
    ensures Sum(LinkReplays(chain), i, |chain|) <= Dearest(|chain| - i)
    decreases |chain| - i
  {
    if i < |chain| {
      IdSetSize(Revokers(chain, i));
      ReplaysAtMost(chain, i + 1);
    }
  }

  lemma {:induction false} DearestTerms()
    ensures Dearest(2) == 4 && Dearest(3) == 8 && Dearest(4) == 13
  {
    assert Dearest(4) == 5 + Dearest(3) && Dearest(3) == 4 + Dearest(2) && Dearest(2) == 3 + Dearest(1);
  }

  lemma {:induction false} LongestChain(n: nat)
    requires n <= MAX_GRANT_CHAIN_LINKS
    ensures Dearest(n) <= 13
  {
    DearestTerms();
  }

  lemma {:induction false} MapSize(m: Memo, n: Memo, ids: set<Text>)
    requires n.Keys <= m.Keys + ids
    ensures |n| <= |m| + |ids|
  {
    assert |n| == |n.Keys| && |m| == |m.Keys|;
    SubsetIsSmaller(n.Keys, m.Keys + ids);
    assert m.Keys + ids == m.Keys + (ids - m.Keys);
    SubsetIsSmaller(ids - m.Keys, ids);
  }

  /** Replays that each added a distinct issuer to the memo are at most the issuers. */
  lemma {:induction false} ReplaysAtMostIssuers(before: Memo, after: Memo, replays: nat, ids: set<Text>)
    requires Grew(before, after, replays, ids)
    ensures replays <= |ids| && Replays(replays) <= Replays(|ids|)
  {
    MapSize(before, after, ids);
  }

  /** The unmetered run's bounds, which every metered one inherits. */
  lemma {:induction false} UnmeteredRunBound(env: Env, o: Options, chain: seq<Grant>, memo: Memo)
    requires MemoSound(env, memo)
    ensures var s := RunStep(LinkSteps(env, o, chain), 0, |chain|, None, memo);
      && s.replays <= Sum(LinkReplays(chain), 0, |chain|)
      && s.spent <= Replays(s.replays) + Sum(LinkChecks(chain), 0, |chain|)
      && (Clean(env, IdSet(Revokers(chain, 0))) ==> s.replays <= Asked(chain, 0))
  {
    var links, ids := LinkSteps(env, o, chain), IdSet(Revokers(chain, 0));
    ChainLinksBounded(env, o, chain);
    RunBound(env, links, LinkReplays(chain), LinkChecks(chain), 0, |chain|, memo, ids);
    var unmetered := RunStep(links, 0, |chain|, None, memo);
    if Clean(env, ids) {
      ReplaysAtMostIssuers(memo, unmetered.memo, unmetered.replays, ids);
    }
  }

  lemma {:induction false} ChecksAtMost(chain: seq<Grant>)
    ensures Sum(LinkChecks(chain), 0, |chain|) <= 24 * |chain|
  {
    var checks := LinkChecks(chain);
    forall j: nat ensures checks(j) <= 24 {
      LinkChecksAtMost(chain, j);
    }
    SumAtMost(checks, 0, |chain|);
  }

  lemma {:induction false} LinkChecksAtMost(chain: seq<Grant>, j: nat)
    ensures LinkChecks(chain)(j) <= 24
  {
    if j < |chain| {
      assert LinkChecks(chain)(j) == MAX_KEY_EVENT_KEYS + Min(CANDIDATE_ALLOWANCE, Checks(Asked(chain, j)));
    }
  }

  /** The terms of the bounds, in closed form for the longest chain. */
  lemma {:induction false} TermsAtMost(chain: seq<Grant>)
    requires |chain| <= MAX_GRANT_CHAIN_LINKS
    ensures Sum(LinkReplays(chain), 0, |chain|) <= 13
      && Sum(LinkChecks(chain), 0, |chain|) <= 96 && Asked(chain, 0) <= 4
  {
    IdSetSize(Revokers(chain, 0));
    ChecksAtMost(chain);
    ReplaysAtMost(chain, 0);
    LongestChain(|chain|);
  }

  /** What some spend and number of replays come to, given the terms of the bounds. */
  predicate AddsUp(spent: nat, replays: nat, most: nat, checks: nat, asked: nat, clean: bool) {
    && replays <= most <= 13
    && spent <= Replays(most) + checks <= 13408
    && (clean ==> spent <= Replays(asked) + checks <= 4192)
  }

  lemma {:induction false} AddUp(metered: Step<LinkOutcome>, unmetered: Step<LinkOutcome>, most: nat, checks: nat,
      asked: nat, clean: bool)
    requires metered.spent <= unmetered.spent <= Replays(unmetered.replays) + checks
    requires metered.replays <= unmetered.replays <= most <= 13 && checks <= 96 && asked <= 4
    requires clean ==> unmetered.replays <= asked
    ensures AddsUp(metered.spent, metered.replays, most, checks, asked, clean)
  {
  }

  /** The same bounds for any meters. */
  lemma {:induction false} MeteredRunBound(env: Env, o: Options, chain: seq<Grant>, fuel: Fuel, memo: Memo)
    requires MemoSound(env, memo) && |chain| <= MAX_GRANT_CHAIN_LINKS
    ensures var s := RunStep(LinkSteps(env, o, chain), 0, |chain|, fuel, memo);
      AddsUp(s.spent, s.replays, Sum(LinkReplays(chain), 0, |chain|),
        Sum(LinkChecks(chain), 0, |chain|), Asked(chain, 0),
        Clean(env, IdSet(Revokers(chain, 0))))
  {
    UnmeteredRunBound(env, o, chain, memo);
    ChainCutsShort(env, o, chain, fuel, memo);
    TermsAtMost(chain);
    var links := LinkSteps(env, o, chain);
    AddUp(RunStep(links, 0, |chain|, fuel, memo), RunStep(links, 0, |chain|, None, memo),
      Sum(LinkReplays(chain), 0, |chain|),
      Sum(LinkChecks(chain), 0, |chain|), Asked(chain, 0), Clean(env, IdSet(Revokers(chain, 0))));
  }

  /** What a verification charges: nothing when its structure is refused, else what its run does. */
  lemma {:induction false} VerifyCharges(env: Env, o: Options, chain: seq<Grant>, fuel: Fuel, memo: Memo)
    ensures var s, run :=
      VerifyStep(env, o, chain, fuel, memo), RunStep(LinkSteps(env, o, chain), 0, |chain|, fuel, memo);
      (s.spent == 0 && s.replays == 0)
        || (|chain| <= MAX_GRANT_CHAIN_LINKS && s.spent == run.spent && s.replays == run.replays)
  {}

  /**
   * Whatever the meters, the memo and the view: a chain starts at most one replay per link and per
   * issuer asked about below the root, 13 on the longest chain, and its cost is bounded with them.
   * When the issuers' logs replay clean, the memo makes that one replay per distinct issuer, and
   * the cost is within the documented L*E*K + L*K + sum min(R, u*K), 4192 for the longest chain.
   */
  lemma {:induction false} ChainWorkBound(env: Env, o: Options, chain: seq<Grant>, fuel: Fuel, memo: Memo)
    requires MemoSound(env, memo)
    ensures VerifyStep(env, o, chain, fuel, memo).replays <= Sum(LinkReplays(chain), 0, |chain|)
    ensures VerifyStep(env, o, chain, fuel, memo).spent <=
      Replays(Sum(LinkReplays(chain), 0, |chain|)) + Sum(LinkChecks(chain), 0, |chain|)
    ensures VerifyStep(env, o, chain, fuel, memo).replays <= 13 && VerifyStep(env, o, chain, fuel, memo).spent <= 13408
    ensures Clean(env, IdSet(Revokers(chain, 0))) ==>
      VerifyStep(env, o, chain, fuel, memo).spent <= Replays(Asked(chain, 0)) + Sum(LinkChecks(chain), 0, |chain|)
    ensures Clean(env, IdSet(Revokers(chain, 0))) ==> VerifyStep(env, o, chain, fuel, memo).spent <= DOCUMENTED_CEILING
  {
    VerifyCharges(env, o, chain, fuel, memo);
    if |chain| <= MAX_GRANT_CHAIN_LINKS {
      MeteredRunBound(env, o, chain, fuel, memo);
    }
  }
}
