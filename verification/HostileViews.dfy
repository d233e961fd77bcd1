/**
 * What a hostile view can make one chain cost (packages/trust/src/resolver.ts:596-597, 1094-1130):
 * failed replays are not remembered, so a log that replays badly is replayed for every candidate.
 */
module HostileViews {
  import opened Common
  import opened SignatureSets
  import opened Metering
  import opened Grants
  import opened Resolver
  import opened Refinement
  import opened WorkBounds

  /** The participant's log is there, and replaying it fails for that many curve checks. */
  ghost predicate ReplaysBadly(env: Env, id: Text, cost: nat) {
    JudgeSigner(env, id) == Work(Unresolved, cost) && StartsReplay(env, id)
  }

  /** Candidates in one issuer's name for one grant. */
  ghost predicate AllNaming(candidates: seq<Candidate>, digest: Text, id: Text) {
    forall c :: c in candidates ==> c.Parsed? && c.revocation.revokes == digest && c.revocation.issuerId == id
  }

  lemma {:induction false} NeverRemembered(env: Env, id: Text, cost: nat, memo: Memo)
    requires ReplaysBadly(env, id, cost) && id !in memo
    ensures SignerStep(env, id, None, memo) == Step(Unresolved, cost, 1, memo)
  {
    SignerCostBound(env, id);
  }

  function Times(n: nat, cost: nat): nat {
    if n == 0 then 0 else cost + Times(n - 1, cost)
  }

  /** A lookup replays the log once per candidate. */
  lemma {:induction false} ReplayedPerCandidate(env: Env, digest: Text, requested: set<Text>,
      candidates: seq<Candidate>, allowance: nat, memo: Memo, id: Text, cost: nat)
    requires ReplaysBadly(env, id, cost) && id in requested && id !in memo && AllNaming(candidates, digest, id)
    ensures ScanStep(env, digest, requested, candidates, allowance, None, memo) ==
      Step(NoRevocation, Times(|candidates|, cost), |candidates|, memo)
    decreases |candidates|
  {
    if candidates != [] {
      assert candidates[0] in candidates;
      NeverRemembered(env, id, cost, memo);
      ReplayedPerCandidate(env, digest, requested, candidates[1..], allowance, memo, id, cost);
    }
  }

  // -------- A chain under such a view --------

  ghost function RootIssuer(chain: seq<Grant>): Text
    requires chain != []
  {
    chain[|chain| - 1].issuerId
  }

  /** The lookup about the link is answered with as many candidates as it asks issuers, all naming the root's. */
  ghost predicate Flooded(env: Env, chain: seq<Grant>, i: nat)
    requires i < |chain|
  {
    var digest, answer :=
      GrantDigest(env.c, chain[i]), env.view.revocations(GrantDigest(env.c, chain[i]), Revokers(chain, i));
    answer.Candidates? && |answer.candidates| == Asked(chain, i)
      && AllNaming(answer.candidates, digest, RootIssuer(chain))
  }

  /** A link below the root that is good in itself, its issuer's log replaying clean. */
  ghost predicate Passable(env: Env, o: Options, chain: seq<Grant>, i: nat)
    requires i < |chain|
  {
    && IsParticipant(chain[i].issuerId) && JudgeSigner(env, chain[i].issuerId).verdict.Signer?
      && StartsReplay(env, chain[i].issuerId)
    && PreludeReason(env, o, chain[i]).None? && IdealSignature(env, chain[i]).LinkPasses? && ProofMatches(env, chain, i)
  }

  /** Every link but the root's is good, and the host floods every lookup with a log that replays badly. */
  ghost predicate Hostile(env: Env, o: Options, chain: seq<Grant>, cost: nat) {
    && chain != [] && ChecksRevocation(o)
    && (forall i, j :: 0 <= i < j < |chain| ==> chain[i].issuerId != chain[j].issuerId)
    && (forall i :: 0 <= i < |chain| - 1 ==> Passable(env, o, chain, i) && Flooded(env, chain, i))
    && IsParticipant(RootIssuer(chain)) && ReplaysBadly(env, RootIssuer(chain), cost)
    && PreludeReason(env, o, chain[|chain| - 1]).None?
  }

  /** The memo knows only issuers nearer the leaf. */
  ghost predicate KnowsBelow(chain: seq<Grant>, i: nat, memo: Memo)
    requires i <= |chain|
  {
    forall j :: i <= j < |chain| ==> chain[j].issuerId !in memo
  }

  lemma {:induction false} PassableSignature(env: Env, o: Options, chain: seq<Grant>, i: nat, memo: Memo)
    requires i < |chain| && Passable(env, o, chain, i) && chain[i].issuerId !in memo
    ensures var s := SignatureStep(env, chain[i], None, memo);
      && s.answer.LinkPasses? && s.replays == 1
      && s.memo.Keys == memo.Keys + {chain[i].issuerId}
  {
    SignerCostBound(env, chain[i].issuerId);
    var states := JudgeSigner(env, chain[i].issuerId).verdict.states;
    LinkCheckCost(env, chain[i], states);
  }

  lemma {:induction false} RootAsked(chain: seq<Grant>, i: nat)
    requires i < |chain| && IsParticipant(RootIssuer(chain))
    ensures RootIssuer(chain) in IdSet(Revokers(chain, i))
  {}

  lemma {:induction false} FloodedLink(env: Env, o: Options, chain: seq<Grant>, i: nat, memo: Memo, cost: nat)
    requires Hostile(env, o, chain, cost) && i < |chain| - 1 && KnowsBelow(chain, i, memo)
    ensures var s := LinkStep(env, o, chain, i, None, memo);
      && s.answer.LinkPasses? && s.replays == 1 + Asked(chain, i) && s.spent >= Times(Asked(chain, i), cost)
      && KnowsBelow(chain, i + 1, s.memo)
  {
    PassableSignature(env, o, chain, i, memo);
    var signed := SignatureStep(env, chain[i], None, memo);
    var digest, revokers := GrantDigest(env.c, chain[i]), Revokers(chain, i);
    var candidates := env.view.revocations(digest, revokers).candidates;
    assert Flooded(env, chain, i);
    RootAsked(chain, i);
    ReplayedPerCandidate(env, digest, IdSet(revokers), candidates, CANDIDATE_ALLOWANCE, signed.memo,
      RootIssuer(chain), cost);
  }

  lemma {:induction false} RootFails(env: Env, o: Options, chain: seq<Grant>, memo: Memo, cost: nat)
    requires Hostile(env, o, chain, cost) && KnowsBelow(chain, |chain| - 1, memo)
    ensures var s := LinkStep(env, o, chain, |chain| - 1, None, memo);
      s.answer == LinkFails(IssuerKeyLogUnresolved) && s.replays == 1 && s.spent == cost
  {
    NeverRemembered(env, RootIssuer(chain), cost, memo);
  }

  /** The bad replays among a link's: all but a lower link's own. */
  function BadReplays(chain: seq<Grant>): nat -> nat {
    (i: nat) => if i + 1 < |chain| then Asked(chain, i) else if i < |chain| then 1 else 0
  }

  lemma {:induction false} TimesAdd(m: nat, n: nat, cost: nat)
    ensures Times(m + n, cost) == Times(m, cost) + Times(n, cost)
  {
    if m > 0 { TimesAdd(m - 1, n, cost); }
  }

  type MemoTest = (nat, Memo) -> bool

  /** From a memo that passes the test, link `i` costs its terms and hands on a memo that passes; the last fails. */
  ghost predicate LinkFloods(s: Step<LinkOutcome>, i: nat, n: nat, replays: nat -> nat, bad: nat -> nat,
      below: MemoTest, cost: nat) {
    && s.replays == replays(i) && s.spent >= Times(bad(i), cost)
    && if i + 1 == n then s.answer == LinkFails(IssuerKeyLogUnresolved)
      else s.answer.LinkPasses? && below(i + 1, s.memo)
  }

  ghost predicate AllFlood(links: LinkRunner, n: nat, replays: nat -> nat, bad: nat -> nat,
      below: MemoTest, cost: nat) {
    forall j: nat, m: Memo {:trigger links(j, None, m)} :: j < n && below(j, m) ==>
      LinkFloods(links(j, None, m), j, n, replays, bad, below, cost)
  }

  lemma {:induction false} FloodedRun(links: LinkRunner, i: nat, n: nat, replays: nat -> nat, bad: nat -> nat,
      below: MemoTest, memo: Memo, cost: nat)
    requires AllFlood(links, n, replays, bad, below, cost) && i < n && below(i, memo)
    ensures var s := RunStep(links, i, n, None, memo);
      s.replays == Sum(replays, i, n) && s.spent >= Times(Sum(bad, i, n), cost)
        && s.answer == LinkFails(IssuerKeyLogUnresolved)
    decreases n - i
  {
    var link := links(i, None, memo);
    assert LinkFloods(link, i, n, replays, bad, below, cost);
    if i + 1 < n {
      FloodedRun(links, i + 1, n, replays, bad, below, link.memo, cost);
      TimesAdd(bad(i), Sum(bad, i + 1, n), cost);
    }
  }

  lemma {:induction false} HostileLinkFloods(env: Env, o: Options, chain: seq<Grant>, j: nat, m: Memo, cost: nat)
    requires Hostile(env, o, chain, cost) && j < |chain| && KnowsBelow(chain, j, m)
    ensures var s := LinkStep(env, o, chain, j, None, m);
      && s.replays == LinkReplays(chain)(j) && s.spent >= Times(BadReplays(chain)(j), cost)
      && if j + 1 == |chain| then s.answer == LinkFails(IssuerKeyLogUnresolved)
        else s.answer.LinkPasses? && KnowsBelow(chain, j + 1, s.memo)
  {
    if j + 1 == |chain| {
      RootFails(env, o, chain, m, cost);
      assert Times(1, cost) == cost + Times(0, cost);
    } else {
      FloodedLink(env, o, chain, j, m, cost);
    }
  }

  /** The issuers of the links from `i` up. */
  function IssuersFrom(chain: seq<Grant>, i: nat): (ids: seq<Text>)
    requires i <= |chain|
    ensures |ids| == |chain| - i && forall j :: 0 <= j < |ids| ==> ids[j] == chain[i + j].issuerId
  {
    seq(|chain| - i, j requires 0 <= j < |chain| - i => chain[i + j].issuerId)
  }

  ghost predicate DistinctParticipants(chain: seq<Grant>) {
    && (forall j :: 0 <= j < |chain| ==> IsParticipant(chain[j].issuerId))
    && (forall j, k :: 0 <= j < k < |chain| ==> chain[j].issuerId != chain[k].issuerId)
  }

  lemma {:induction false} OneMoreIssuer(chain: seq<Grant>, i: nat)
    requires i < |chain|
    ensures IssuersFrom(chain, i) == [chain[i].issuerId] + IssuersFrom(chain, i + 1)
  {}

  lemma {:induction false} OneMoreRevoker(chain: seq<Grant>, i: nat)
    requires i < |chain| && IsParticipant(chain[i].issuerId)
    ensures Revokers(chain, i) == [chain[i].issuerId] + Revokers(chain, i + 1)
  {}

  lemma {:induction false} RevokersAreIssuers(chain: seq<Grant>, i: nat)
    requires i <= |chain| && forall j :: 0 <= j < |chain| ==> IsParticipant(chain[j].issuerId)
    ensures Revokers(chain, i) == IssuersFrom(chain, i)
    decreases |chain| - i
  {
    if i < |chain| {
      RevokersAreIssuers(chain, i + 1);
      OneMoreIssuer(chain, i);
      OneMoreRevoker(chain, i);
    }
  }

  /** With distinct participant issuers every one of them from a link up is asked about. */
  lemma {:induction false} AskedAll(chain: seq<Grant>, i: nat)
    requires i <= |chain| && DistinctParticipants(chain)
    ensures Asked(chain, i) == |chain| - i
  {
    var ids := IssuersFrom(chain, i);
    RevokersAreIssuers(chain, i);
    assert Distinct(ids);
    DistinctIffSetSize(ids);
    assert IdSet(ids) == set k | k in ids;
  }

  lemma {:induction false} SumsOf(chain: seq<Grant>, i: nat)
    requires i < |chain| && (forall j :: 0 <= j <= |chain| ==> Asked(chain, j) == |chain| - j)
    ensures Sum(LinkReplays(chain), i, |chain|) == Dearest(|chain| - i)
    ensures Sum(BadReplays(chain), i, |chain|) == Dearest(|chain| - i) - (|chain| - i - 1)
    decreases |chain| - i
  {
    if i + 1 < |chain| {
      SumsOf(chain, i + 1);
      var n := |chain|;
      assert Sum(LinkReplays(chain), i, n) == 1 + Asked(chain, i) + Sum(LinkReplays(chain), i + 1, n);
      assert Sum(BadReplays(chain), i, n) == Asked(chain, i) + Sum(BadReplays(chain), i + 1, n);
    } else {
      assert Sum(LinkReplays(chain), i + 1, |chain|) == 0 && Sum(BadReplays(chain), i + 1, |chain|) == 0;
    }
  }

  /** The replay bound is attained, whatever the chain, and every bad replay is paid for in full. */
  lemma {:induction false} ReplayBoundIsTight(env: Env, o: Options, chain: seq<Grant>, cost: nat)
    requires Hostile(env, o, chain, cost) && StructureReason(o, chain).None?
    ensures var s := VerifyStep(env, o, chain, None, map[]);
      && s.replays == Sum(LinkReplays(chain), 0, |chain|) && s.spent >= Times(Sum(BadReplays(chain), 0, |chain|), cost)
      && s.answer == Invalid(IssuerKeyLogUnresolved)
  {
    var links := LinkSteps(env, o, chain);
    ghost var below: MemoTest := (i: nat, m: Memo) => i <= |chain| && forall j :: i <= j < |chain| ==>
      chain[j].issuerId !in m;
    forall j: nat, m: Memo | j < |chain| && below(j, m)
      ensures LinkFloods(links(j, None, m), j, |chain|, LinkReplays(chain), BadReplays(chain), below, cost)
    {
      HostileLinkFloods(env, o, chain, j, m, cost);
    }
    FloodedRun(links, 0, |chain|, LinkReplays(chain), BadReplays(chain), below, map[], cost);
  }

  lemma {:induction false} HostileIssuers(env: Env, o: Options, chain: seq<Grant>, cost: nat)
    requires Hostile(env, o, chain, cost)
    ensures DistinctParticipants(chain)
  {
    forall j | 0 <= j < |chain| ensures IsParticipant(chain[j].issuerId) {
      if j < |chain| - 1 { assert Passable(env, o, chain, j); }
    }
  }

  /** In closed form: 1 replay at the root, 3 below it, then 4, then 5, all but one a link of them bad. */
  lemma {:induction false} TermsOf(chain: seq<Grant>)
    requires chain != [] && DistinctParticipants(chain)
    ensures Sum(LinkReplays(chain), 0, |chain|) == Dearest(|chain|)
    ensures Sum(BadReplays(chain), 0, |chain|) == Dearest(|chain|) - (|chain| - 1)
  {
    forall j | 0 <= j <= |chain| ensures Asked(chain, j) == |chain| - j {
      AskedAll(chain, j);
    }
    SumsOf(chain, 0);
  }

  lemma {:induction false} TimesIsReplays(n: nat)
    ensures Times(n, DEFAULT_MAX_KEY_LOG_SIGNATURE_VERIFICATIONS) == Replays(n)
  {
    if n > 0 { TimesIsReplays(n - 1); }
  }

  /** The costs of `n` flooded links: all but one replay a lower link of them bad. */
  ghost predicate Floods(n: nat, replays: nat, spent: nat) {
    replays == Dearest(n) && Dearest(n) + 1 >= n && spent >= Replays(Dearest(n) + 1 - n)
  }

  lemma {:induction false} InClosedForm(chain: seq<Grant>, replays: nat, spent: nat)
    requires chain != [] && DistinctParticipants(chain) && replays == Sum(LinkReplays(chain), 0, |chain|)
    requires spent >= Times(Sum(BadReplays(chain), 0, |chain|), DEFAULT_MAX_KEY_LOG_SIGNATURE_VERIFICATIONS)
    ensures Floods(|chain|, replays, spent)
  {
    TermsOf(chain);
    TimesIsReplays(Sum(BadReplays(chain), 0, |chain|));
  }

  /** 8 replays with three links, 13 with four, most of them of one bad log: past the documented ceiling. */
  ghost predicate PastCeiling(n: nat, replays: nat, spent: nat) {
    && replays == (if n == 3 then 8 else 13)
    && spent >= (if n == 3 then 6144 else 10240) && spent > DOCUMENTED_CEILING
  }

  lemma {:induction false} FloodsPastCeiling(n: nat, replays: nat, spent: nat)
    requires 3 <= n <= MAX_GRANT_CHAIN_LINKS && Floods(n, replays, spent)
    ensures PastCeiling(n, replays, spent)
  {
    DearestTerms();
  }

  lemma {:induction false} HostileClosedForm(env: Env, o: Options, chain: seq<Grant>, replays: nat, spent: nat)
    requires Hostile(env, o, chain, DEFAULT_MAX_KEY_LOG_SIGNATURE_VERIFICATIONS)
    requires replays == Sum(LinkReplays(chain), 0, |chain|)
    requires spent >= Times(Sum(BadReplays(chain), 0, |chain|), DEFAULT_MAX_KEY_LOG_SIGNATURE_VERIFICATIONS)
    ensures Floods(|chain|, replays, spent)
  {
    HostileIssuers(env, o, chain, DEFAULT_MAX_KEY_LOG_SIGNATURE_VERIFICATIONS);
    InClosedForm(chain, replays, spent);
  }

  /** The closed form is met for chains of every length. */
  lemma {:induction false} FloodedChainsCost(env: Env, o: Options, chain: seq<Grant>)
    requires Hostile(env, o, chain, DEFAULT_MAX_KEY_LOG_SIGNATURE_VERIFICATIONS) && StructureReason(o, chain).None?
    ensures var s := VerifyStep(env, o, chain, None, map[]); Floods(|chain|, s.replays, s.spent)
  {
    var s := VerifyStep(env, o, chain, None, map[]);
    ReplayBoundIsTight(env, o, chain, DEFAULT_MAX_KEY_LOG_SIGNATURE_VERIFICATIONS);
    HostileClosedForm(env, o, chain, s.replays, s.spent);
  }

  /** Two links cannot be made to cost more than the documented ceiling, whatever the view answers. */
  lemma {:induction false} ShortChainsFit(env: Env, o: Options, chain: seq<Grant>, fuel: Fuel, memo: Memo)
    requires MemoSound(env, memo) && |chain| <= 2
    ensures VerifyStep(env, o, chain, fuel, memo).spent <= DOCUMENTED_CEILING
  {
    ChainWorkBound(env, o, chain, fuel, memo);
    ReplaysAtMost(chain, 0);
    ChecksAtMost(chain);
    DearestTerms();
  }
}
