/**
 * Concrete chains of up to four links under a hostile view: the root's longest log, badly signed at
 * its very end, is replayed again and again. From three links on that is past the documented ceiling
 * (packages/trust/src/resolver.ts:1094-1130).
 */
module FloodedChain {
  import opened Common
  import opened SignatureSets
  import opened Metering
  import opened KeyEvents
  import opened KeyLog
  import opened Grants
  import opened Resolver
  import opened Refinement
  import opened WorkBounds
  import opened HostileViews
  import opened SampleLogs
  import opened SampleRecords
  import R = Records

  const WIDTH: nat := MAX_KEY_EVENT_KEYS

  /** The issuers, from the leaf's to the root's, are participants named by one letter each. */
  function Letter(i: nat): Text
    requires i <= 4
  {
    [97 + i]
  }

  function IssuerId(i: nat): Text
    requires i <= 4
  {
    SampleId(Letter(i), WIDTH)
  }

  lemma {:induction false} IssuersDiffer(i: nat, j: nat)
    requires i <= 4 && j <= 4 && IssuerId(i) == IssuerId(j)
    ensures i == j
  {
    SampleIdNames(Letter(i), Letter(j), WIDTH);
    assert Letter(i)[0] == Letter(j)[0];
  }

  function IssuerAnchor(i: nat): Text
    requires i <= 4
  {
    EventDigest(SamplePrimitives(), SampleLog(Letter(i), WIDTH, 1)[0])
  }

  /** Link `i`: its issuer lets the one below send messages for the root. */
  function Link(root: nat, i: nat, proof: Option<Text>): Grant
    requires i <= root <= 3
  {
    Grant(IssuerId(root), IssuerId(i), if i == 0 then IssuerId(4) else IssuerId(i - 1), [MESSAGE], None, [], proof,
          Some(IssuerAnchor(i)), Ascii("issued"), None, GoodSignatures(WIDTH))
  }

  function ProvenLink(root: nat, i: nat): Grant
    requires i <= root <= 3
    decreases root - i
  {
    Link(root, i, if i == root then None else Some(GrantDigest(SamplePrimitives(), ProvenLink(root, i + 1))))
  }

  function Chain(root: nat): (chain: seq<Grant>)
    requires root <= 3
    ensures |chain| == root + 1 && forall i :: 0 <= i <= root ==> chain[i] == ProvenLink(root, i)
  {
    seq(root + 1, i requires 0 <= i <= root => ProvenLink(root, i))
  }

  function Find(id: Text, ids: seq<Text>, logs: seq<LogAnswer>): LogAnswer
    requires |ids| == |logs|
  {
    if ids == [] then NoLog else if id == ids[0] then logs[0] else Find(id, ids[1..], logs[1..])
  }

  lemma {:induction false} FindAt(ids: seq<Text>, logs: seq<LogAnswer>, i: nat)
    requires |ids| == |logs| && i < |ids| && Distinct(ids)
    ensures Find(ids[i], ids, logs) == logs[i]
  {
    if i > 0 { FindAt(ids[1..], logs[1..], i - 1); }
  }

  function Issuers(root: nat): (ids: seq<Text>)
    requires root <= 3
    ensures |ids| == root + 1 && forall i :: 0 <= i <= root ==> ids[i] == IssuerId(i)
  {
    seq(root + 1, i requires 0 <= i <= root => IssuerId(i))
  }

  /** The root's longest log, badly signed at its very end; one good event for everybody else. */
  function Logs(root: nat): (logs: seq<LogAnswer>)
    requires root <= 3
    ensures |logs| == root + 1 && logs[root] == Log(SpoiledLog(Letter(root), WIDTH, MAX_KEY_LOG_EVENTS))
    ensures forall i :: 0 <= i < root ==> logs[i] == Log(SampleLog(Letter(i), WIDTH, 1))
  {
    seq(root + 1, i requires 0 <= i <= root =>
      Log(if i < root then SampleLog(Letter(i), WIDTH, 1) else SpoiledLog(Letter(i), WIDTH, MAX_KEY_LOG_EVENTS)))
  }

  function ServedLog(root: nat, id: Text): LogAnswer
    requires root <= 3
  {
    Find(id, Issuers(root), Logs(root))
  }

  lemma {:induction false} Served(root: nat, i: nat)
    requires i <= root <= 3
    ensures ServedLog(root, IssuerId(i)) == Logs(root)[i]
  {
    var ids := Issuers(root);
    forall j, k | 0 <= j < k < |ids| ensures ids[j] != ids[k] {
      if ids[j] == ids[k] { IssuersDiffer(j, k); }
    }
    FindAt(ids, Logs(root), i);
  }

  /** As many would-be revocations in the root's name as the lookup may be answered with. */
  function ServedCandidates(root: nat, digest: Text, ids: seq<Text>): seq<Candidate>
    requires root <= 3
  {
    seq(|IdSet(ids)|, i => Parsed(Revocation(digest, IssuerId(root), [], [], None, [])))
  }

  function Host(root: nat): Env
    requires root <= 3
  {
    Env(SamplePrimitives(),
        View((id: Text) => ServedLog(root, id),
             (digest: Text, ids: seq<Text>) => Candidates(ServedCandidates(root, digest, ids))),
        t => 0)
  }

  function Request(): Options {
    Options(0, Purpose.Request, None, None, false, None, true)
  }

  lemma {:induction false} GoodSigner(root: nat, i: nat)
    requires i < root <= 3
    ensures JudgeSigner(Host(root), IssuerId(i)) ==
      Work(Signer(StatesOf(SamplePrimitives(), SampleLog(Letter(i), WIDTH, 1))), WIDTH)
    ensures StartsReplay(Host(root), IssuerId(i))
  {
    Served(root, i);
    SampleLogCost(Letter(i), WIDTH);
    SampleLogIsValid(Letter(i), WIDTH, 1);
  }

  lemma {:induction false} RootReplaysBadly(root: nat)
    requires root <= 3
    ensures ReplaysBadly(Host(root), IssuerId(root), DEFAULT_MAX_KEY_LOG_SIGNATURE_VERIFICATIONS)
  {
    Served(root, root);
    SpoiledLogFails(Letter(root), WIDTH, MAX_KEY_LOG_EVENTS, Logs(root)[root].events);
  }

  lemma {:induction false} LinkSchema(root: nat, i: nat)
    requires i <= root <= 3
    ensures GrantSchema(ProvenLink(root, i)) && !NamesE2ee(ProvenLink(root, i))
  {
    SampleIdIsParticipant(Letter(root), WIDTH);
    SampleIdIsParticipant(Letter(i), WIDTH);
    SampleIdIsParticipant(Letter(if i == 0 then 4 else i - 1), WIDTH);
    MessageSchema(ProvenLink(root, i));
  }

  lemma {:induction false} LinkSigned(root: nat, i: nat)
    requires i < root <= 3
    ensures IdealSignature(Host(root), ProvenLink(root, i)).LinkPasses?
  {
    var c, link := SamplePrimitives(), ProvenLink(root, i);
    var states := StatesOf(c, SampleLog(Letter(i), WIDTH, 1));
    GoodSigner(root, i);
    SampleIdIsParticipant(Letter(i), WIDTH);
    SampleRecordAnchored(GrantRecord(link), Letter(i), WIDTH, 1);
    PassesOn(Host(root), link, states);
  }

  lemma {:induction false} PassesOn(env: Env, link: Grant, states: seq<AnchoredKeyState>)
    requires IsParticipant(link.issuerId) && link.anchor.Some?
      && JudgeSigner(env, link.issuerId).verdict == Signer(states)
    requires R.JudgeAnchored(env.c, GrantRecord(link), link.anchor.value, states).verdict == R.Decided(R.Accepted)
    ensures IdealSignature(env, link).LinkPasses?
  {}

  lemma {:induction false} LinkPrelude(root: nat, i: nat)
    requires i <= root <= 3
    ensures PreludeReason(Host(root), Request(), ProvenLink(root, i)).None?
  {}

  lemma {:induction false} LinkProof(root: nat, i: nat)
    requires i <= root <= 3
    ensures ProofMatches(Host(root), Chain(root), i)
  {
    if i > 0 {
      assert Chain(root)[i - 1].proof == Some(GrantDigest(SamplePrimitives(), ProvenLink(root, i)));
    }
  }

  lemma {:induction false} LinkPassable(root: nat, i: nat)
    requires i < root <= 3
    ensures Passable(Host(root), Request(), Chain(root), i)
  {
    assert ProvenLink(root, i).issuerId == IssuerId(i);
    GoodSigner(root, i);
    SampleIdIsParticipant(Letter(i), WIDTH);
    LinkPrelude(root, i);
    LinkProof(root, i);
    LinkSigned(root, i);
  }

  lemma {:induction false} LinkFlooded(root: nat, i: nat)
    requires i <= root <= 3
    ensures Flooded(Host(root), Chain(root), i)
  {
    assert RootIssuer(Chain(root)) == IssuerId(root);
  }

  lemma {:induction false} LinksDiffer(root: nat, i: nat, j: nat)
    requires i < j <= root <= 3
    ensures Chain(root)[i].issuerId != Chain(root)[j].issuerId
  {
    if IssuerId(i) == IssuerId(j) { IssuersDiffer(i, j); }
  }

  lemma {:induction false} HostIsHostile(root: nat)
    requires root <= 3
    ensures Hostile(Host(root), Request(), Chain(root), DEFAULT_MAX_KEY_LOG_SIGNATURE_VERIFICATIONS)
  {
    var chain := Chain(root);
    forall i, j | 0 <= i < j < |chain| ensures chain[i].issuerId != chain[j].issuerId {
      LinksDiffer(root, i, j);
    }
    forall i | 0 <= i < |chain| - 1 ensures Passable(Host(root), Request(), chain, i) && Flooded(Host(root), chain, i) {
      LinkPassable(root, i);
      LinkFlooded(root, i);
    }
    assert RootIssuer(chain) == IssuerId(root);
    SampleIdIsParticipant(Letter(root), WIDTH);
    RootReplaysBadly(root);
    LinkPrelude(root, root);
  }

  lemma {:induction false} PairHolds(root: nat, i: nat)
    requires i < root <= 3
    ensures PairError(Chain(root)[i], Chain(root)[i + 1]).None?
  {
    assert Chain(root)[i + 1].audienceId == IssuerId(i);
    CoversAllReflexive([MESSAGE]);
  }

  lemma {:induction false} StructureHolds(root: nat)
    requires root <= 3
    ensures StructureReason(Request(), Chain(root)).None?
  {
    var chain := Chain(root);
    forall i | 0 <= i < |chain| ensures GrantSchema(chain[i]) && !NamesE2ee(chain[i]) {
      LinkSchema(root, i);
    }
    PairsHold(root, 0);
    NoAudience(chain, 0);
  }

  lemma {:induction false} PairsHold(root: nat, i: nat)
    requires i <= root <= 3
    ensures PairsError(Chain(root), i).None?
    decreases root - i
  {
    if i < root {
      PairHolds(root, i);
      PairsHold(root, i + 1);
    }
  }

  lemma {:induction false} NoAudience(chain: seq<Grant>, i: nat)
    requires i <= |chain| && forall j :: 0 <= j < |chain| ==> chain[j].aud.None?
    ensures EffectiveAud(chain, i) == Effective(None)
    decreases |chain| - i
  {
    if i < |chain| { NoAudience(chain, i + 1); }
  }

  /** Inputs past the documented ceiling, of three links and of four. */
  lemma {:induction false} DocumentedCeilingExceeded(root: nat)
    requires 2 <= root <= 3
    ensures var s := VerifyStep(Host(root), Request(), Chain(root), None, map[]);
      |Chain(root)| == root + 1 && PastCeiling(root + 1, s.replays, s.spent)
  {
    HostIsHostile(root);
    StructureHolds(root);
    FloodedChainsCost(Host(root), Request(), Chain(root));
    var s := VerifyStep(Host(root), Request(), Chain(root), None, map[]);
    FloodsPastCeiling(root + 1, s.replays, s.spent);
  }

  lemma {:induction false} LongChainsExceed(root: nat, n: nat)
    requires 2 <= root <= 3 && root < n
    ensures !CeilingHoldsUpTo(n)
  {
    var none: Memo := map[];
    DocumentedCeilingExceeded(root);
    assert MemoSound(Host(root), none)
      && VerifyStep(Host(root), Request(), Chain(root), None, none).spent > DOCUMENTED_CEILING;
  }

  /** Chains of at most `n` links never cost more than the documented ceiling. */
  ghost predicate CeilingHoldsUpTo(n: nat) {
    forall env: Env, o: Options, chain: seq<Grant>, fuel: Fuel, memo: Memo ::
      |chain| <= n && MemoSound(env, memo) ==> VerifyStep(env, o, chain, fuel, memo).spent <= DOCUMENTED_CEILING
  }

  /** Exactly when the documented ceiling holds of every view: for chains of at most two links. */
  lemma {:induction false} CeilingHoldsIffShort(n: nat)
    ensures CeilingHoldsUpTo(n) <==> n <= 2
  {
    if n <= 2 {
      forall env: Env, o: Options, chain: seq<Grant>, fuel: Fuel, memo: Memo | |chain| <= n && MemoSound(env, memo)
        ensures VerifyStep(env, o, chain, fuel, memo).spent <= DOCUMENTED_CEILING
      {
        ShortChainsFit(env, o, chain, fuel, memo);
      }
    } else {
      LongChainsExceed(2, n);
    }
  }
}
