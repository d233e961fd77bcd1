/**
 * Verifying a delegation chain (packages/trust/src/resolver.ts:585-954, 1131-1386): the verdict of
 * an unmetered, uncached verifier, and the metered, memoised run that must refine it.
 */
module Resolver {
  import opened Common
  import opened Metering
  import opened KeyEvents
  import opened KeyLog
  import opened Records
  import opened Grants

  datatype Reason =
    | ChainEmpty
    | ChainTooLong
    | Malformed
    | E2eeNotRequestValid
    | RecordTimeRequired
    | ChainIncomplete
    | RootNotSelfIssued
    | IssuerNotParentAudience
    | SubjectDrift
    | AbilityEscalation
    | AudEscalation
    | AudienceNotAdmitted
    | AudienceRequired
    | Expired
    | NotYetIssued
    | CaveatRejected
    | IssuerKeyLogTooExpensive
    | IssuerKeyLogParticipantMismatch
    | IssuerKeyLogUnresolved
    | IssuerAnchorUnknown
    | SignatureInvalid
    | KeyIssuerSignatureInvalid
    | ProofMismatch
    | Revoked
    | SignatureCheckTooExpensive

  /** `GRANT_CHAIN_COST_REASONS`: the verifier ran out of allowance, and found nothing wrong. */
  predicate IsCost(reason: Reason) {
    reason.IssuerKeyLogTooExpensive? || reason.SignatureCheckTooExpensive?
  }

  datatype Purpose = Request | Credential | Evidence

  datatype Options = Options(
    now: int,
    purpose: Purpose,
    at: Option<int>,
    verifierId: Option<Text>,
    requireAud: bool,
    evaluateCaveats: Option<Grant -> bool>,
    checkRevocation: bool)

  /** The primitives, the view and `Date.parse`. */
  datatype Env = Env(c: Primitives, view: View, instant: Text -> int)

  /** A verdict, or the rejection of an unreachable or malformed view propagated to the caller. */
  datatype Verdict = Valid(subjectId: Text, audienceId: Text, abilities: seq<Text>) | Invalid(reason: Reason) | Threw

  datatype LinkOutcome = LinkPasses | LinkFails(reason: Reason) | LinkThrew

  datatype SignerAnswer = Signer(states: seq<AnchoredKeyState>) | Unresolved | TooExpensive | Mismatched | SignerThrew

  datatype Lookup = RevocationFound | NoRevocation | LookupTooExpensive | LookupThrew

  // -------- Checks that cost nothing --------

  datatype AudWalk = Escalates | Effective(aud: Option<seq<Text>>)

  predicate AudNarrows(inherited: seq<Text>, aud: seq<Text>) {
    forall id :: id in aud ==> id in inherited
  }

  /** The effective audience after the links from the root down to `i`. */
  function EffectiveAud(chain: seq<Grant>, i: nat): AudWalk
    requires i <= |chain|
    decreases |chain| - i
  {
    if i == |chain| then Effective(None)
    else match (EffectiveAud(chain, i + 1), chain[i].aud)
      case (Escalates, _) => Escalates
      case (Effective(e), None) => Effective(e)
      case (Effective(e), Some(aud)) => if e.Some? && !AudNarrows(e.value, aud) then Escalates else Effective(Some(aud))
  }

  function AudError(o: Options, chain: seq<Grant>): Option<Reason> {
    if o.purpose == Evidence then None
    else match EffectiveAud(chain, 0)
      case Escalates => Some(AudEscalation)
      case Effective(Some(aud)) => if o.verifierId.Some? && o.verifierId.value in aud then None
        else Some(AudienceNotAdmitted)
      case Effective(None) => if o.requireAud && o.purpose == Request then Some(AudienceRequired) else None
  }

  /** The checks of one link against its parent that read stored fields only. */
  function PairError(link: Grant, parent: Grant): Option<Reason> {
    if link.issuerId != parent.audienceId then Some(IssuerNotParentAudience)
    else if link.subjectId != parent.subjectId then Some(SubjectDrift)
    else if !CoversAll(parent.abilities, link.abilities) then Some(AbilityEscalation)
    else None
  }

  function PairsError(chain: seq<Grant>, i: nat): Option<Reason>
    requires i < |chain|
    decreases |chain| - i
  {
    if i == |chain| - 1 then None
    else match PairError(chain[i], chain[i + 1])
      case Some(reason) => Some(reason)
      case None => PairsError(chain, i + 1)
  }

  predicate NamesE2ee(g: Grant) {
    exists i :: 0 <= i < |g.abilities| && IsE2eeAbility(g.abilities[i])
  }

  /** Everything decided before any curve work, in the source's order. */
  function StructureReason(o: Options, chain: seq<Grant>): Option<Reason> {
    if chain == [] then Some(ChainEmpty)
    else if |chain| > MAX_GRANT_CHAIN_LINKS then Some(ChainTooLong)
    else if exists i :: 0 <= i < |chain| && !GrantSchema(chain[i]) then Some(Malformed)
    else if o.purpose == Request && exists i :: 0 <= i < |chain| && NamesE2ee(chain[i]) then Some(E2eeNotRequestValid)
    else if o.purpose == Evidence && o.at.None? then Some(RecordTimeRequired)
    else
      var root := chain[|chain| - 1];
      if root.proof.Some? then Some(ChainIncomplete)
      else if root.issuerId != root.subjectId then Some(RootNotSelfIssued)
      else match PairsError(chain, 0)
        case Some(reason) => Some(reason)
        case None => AudError(o, chain)
  }

  /** The instant validity windows are measured against. */
  function WindowAt(o: Options): int {
    if o.purpose == Evidence && o.at.Some? then o.at.value else o.now
  }

  /** The checks of a link before its signatures. */
  function PreludeReason(env: Env, o: Options, link: Grant): Option<Reason> {
    if link.expiresAt.Some? && env.instant(link.expiresAt.value) <= WindowAt(o) then Some(Expired)
    else if o.purpose == Evidence && WindowAt(o) < env.instant(link.issuedAt) then Some(NotYetIssued)
    else if o.purpose != Evidence && link.foreignCaveats != []
      && !(o.evaluateCaveats.Some? && o.evaluateCaveats.value(link)) then Some(CaveatRejected)
    else None
  }

  predicate ChecksRevocation(o: Options) {
    o.purpose == Evidence ==> o.checkRevocation
  }

  /** A parent's digest is compared only once its own signatures have been accepted. */
  predicate ProofMatches(env: Env, chain: seq<Grant>, i: nat)
    requires i < |chain|
  {
    i == 0 || chain[i - 1].proof == Some(GrantDigest(env.c, chain[i]))
  }

  /** The participants who may revoke link `i`: issuers from it up to the root. */
  function Revokers(chain: seq<Grant>, i: nat): (ids: seq<Text>)
    requires i <= |chain|
    ensures forall id :: id in ids ==> IsParticipant(id) && exists j :: i <= j < |chain| && chain[j].issuerId == id
    ensures forall j :: i <= j < |chain| && IsParticipant(chain[j].issuerId) ==> chain[j].issuerId in ids
    ensures |ids| <= |chain| - i
    decreases |chain| - i
  {
    if i == |chain| then []
    else (if IsParticipant(chain[i].issuerId) then [chain[i].issuerId] else []) + Revokers(chain, i + 1)
  }

  function IdSet(ids: seq<Text>): set<Text> {
    set id | id in ids
  }

  lemma {:induction false} IdSetSize(ids: seq<Text>)
    ensures |IdSet(ids)| <= |ids|
  {
    if ids != [] {
      IdSetSize(ids[1..]);
      assert IdSet(ids) == {ids[0]} + IdSet(ids[1..]);
    }
  }

  function Accept(chain: seq<Grant>): Verdict
    requires chain != []
  {
    Valid(chain[0].subjectId, chain[0].audienceId, chain[0].abilities)
  }

  // -------- Curve work, unmetered --------

  /** `resolveSignerStates` without a meter: the replay bound to the id it was fetched for. */
  function JudgeSigner(env: Env, id: Text): Work<SignerAnswer> {
    match env.view.keyLog(id)
    case LogUnreachable => Work(SignerThrew, 0)
    case NoLog => Work(Unresolved, 0)
    case Log(events) =>
      if events == [] then Work(Unresolved, 0)
      else
        var w := Judge(env.c, events, 0);
        match w.verdict
        case Rejected(_) => Work(Unresolved, w.cost)
        case States(states) => Work(if events[0].id == id then Signer(states) else Mismatched, w.cost)
  }

  /** A key issuer's link: exactly one signature, under the key itself. */
  function JudgeKeyIssuer(env: Env, link: Grant): Work<bool> {
    if |link.signature| != 1 then Work(false, 0)
    else
      var w := JudgeSet(env.c, GrantRecord(link), [link.issuerId], Decimal(1));
      Work(w.verdict == Accepted, w.cost)
  }

  function JudgeLinkSet(env: Env, link: Grant, states: seq<AnchoredKeyState>): Work<AnchoredVerdict>
    requires link.anchor.Some?
  {
    JudgeAnchored(env.c, GrantRecord(link), link.anchor.value, states)
  }

  function JudgeCandidate(env: Env, r: Revocation, states: seq<AnchoredKeyState>): Work<AnchoredVerdict> {
    JudgeAnchored(env.c, RevocationRecord(r), r.anchor, states)
  }

  function LinkSetOutcome(verdict: AnchoredVerdict): LinkOutcome {
    match verdict
    case AnchorUnknown => LinkFails(IssuerAnchorUnknown)
    case Decided(Accepted) => LinkPasses
    case Decided(_) => LinkFails(SignatureInvalid)
  }

  function KeyIssuerOutcome(accepted: bool): LinkOutcome {
    if accepted then LinkPasses else LinkFails(KeyIssuerSignatureInvalid)
  }

  predicate Relevant(candidate: Candidate, digest: Text, requested: set<Text>) {
    candidate.Parsed? && candidate.revocation.revokes == digest && candidate.revocation.issuerId in requested
  }

  // -------- The ideal verdict: no meter, no memo --------

  function IdealScan(env: Env, digest: Text, requested: set<Text>, candidates: seq<Candidate>): Lookup {
    if candidates == [] then NoRevocation
    else if !Relevant(candidates[0], digest, requested) then IdealScan(env, digest, requested, candidates[1..])
    else
      var r := candidates[0].revocation;
      match JudgeSigner(env, r.issuerId).verdict
      case SignerThrew => LookupThrew
      case Signer(states) =>
        if JudgeCandidate(env, r, states).verdict == Decided(Accepted) then RevocationFound
        else IdealScan(env, digest, requested, candidates[1..])
      case _ => IdealScan(env, digest, requested, candidates[1..])
  }

  function IdealLookup(env: Env, digest: Text, revokers: seq<Text>): Lookup {
    match env.view.revocations(digest, revokers)
    case RevocationsUnreachable => LookupThrew
    case Candidates(candidates) =>
      if |candidates| > |IdSet(revokers)| then LookupThrew else IdealScan(env, digest, IdSet(revokers), candidates)
  }

  function IdealSignature(env: Env, link: Grant): LinkOutcome {
    if IsParticipant(link.issuerId) then
      match JudgeSigner(env, link.issuerId).verdict
      case SignerThrew => LinkThrew
      case Mismatched => LinkFails(IssuerKeyLogParticipantMismatch)
      case Signer(states) =>
        if link.anchor.None? then LinkFails(Malformed)
        else LinkSetOutcome(JudgeLinkSet(env, link, states).verdict)
      case _ => LinkFails(IssuerKeyLogUnresolved)
    else KeyIssuerOutcome(JudgeKeyIssuer(env, link).verdict)
  }

  function IdealRevocation(env: Env, o: Options, chain: seq<Grant>, i: nat): LinkOutcome
    requires i < |chain|
  {
    if !ChecksRevocation(o) then LinkPasses
    else match IdealLookup(env, GrantDigest(env.c, chain[i]), Revokers(chain, i))
      case RevocationFound => LinkFails(Revoked)
      case NoRevocation => LinkPasses
      case _ => LinkThrew
  }

  function IdealLink(env: Env, o: Options, chain: seq<Grant>, i: nat): LinkOutcome
    requires i < |chain|
  {
    match PreludeReason(env, o, chain[i])
    case Some(reason) => LinkFails(reason)
    case None =>
      match IdealSignature(env, chain[i])
      case LinkFails(reason) => LinkFails(reason)
      case LinkThrew => LinkThrew
      case LinkPasses =>
        if !ProofMatches(env, chain, i) then LinkFails(ProofMismatch) else IdealRevocation(env, o, chain, i)
  }

  /** The links from `i` on, leaf first: the first that does not pass decides. */
  function IdealRun(links: nat -> LinkOutcome, i: nat, n: nat): LinkOutcome
    requires i <= n
    decreases n - i
  {
    if i == n then LinkPasses
    else if links(i).LinkPasses? then IdealRun(links, i + 1, n)
    else links(i)
  }

  function IdealLinks(env: Env, o: Options, chain: seq<Grant>): nat -> LinkOutcome {
    (i: nat) => if i < |chain| then IdealLink(env, o, chain, i) else LinkPasses
  }

  function Conclude(chain: seq<Grant>, outcome: LinkOutcome): Verdict
    requires chain != []
  {
    match outcome
    case LinkPasses => Accept(chain)
    case LinkFails(reason) => Invalid(reason)
    case LinkThrew => Threw
  }

  /** What the chain deserves, whatever it costs to find out. */
  function IdealVerdict(env: Env, o: Options, chain: seq<Grant>): Verdict {
    match StructureReason(o, chain)
    case Some(reason) => Invalid(reason)
    case None => Conclude(chain, IdealRun(IdealLinks(env, o, chain), 0, |chain|))
  }

  // -------- The metered, memoised run --------

  type Memo = map<Text, seq<AnchoredKeyState>>

  /** The tightest remaining allowance of the operation's meters, if it has any. */
  type Fuel = Option<nat>

  /** An answer, the curve checks charged for it, the replays started, and the memo afterwards. */
  datatype Step<+T> = Step(answer: T, spent: nat, replays: nat, memo: Memo)

  function Drop(fuel: Fuel, spent: nat): Fuel {
    match fuel
    case None => None
    case Some(n) => Some(if spent <= n then n - spent else 0)
  }

  /** The ceiling handed to a crypto call: the tightest meter, or that call's own default. */
  function Limit(fuel: Fuel, fallback: nat): nat {
    match fuel
    case None => fallback
    case Some(n) => n
  }

  /** The ceiling of a candidate check, which the lookup's sub-allowance always joins. */
  function Tighter(fuel: Fuel, allowance: nat): nat {
    match fuel
    case None => allowance
    case Some(n) => if n < allowance then n else allowance
  }

  function After<S, T>(first: Step<S>, second: Step<T>): Step<T> {
    Step(second.answer, first.spent + second.spent, first.replays + second.replays, second.memo)
  }

  predicate StartsReplay(env: Env, id: Text) {
    env.view.keyLog(id).Log? && env.view.keyLog(id).events != []
  }

  /** `signerStates`: the memo's answer, or a metered replay remembered only when it succeeds. */
  function SignerStep(env: Env, id: Text, fuel: Fuel, memo: Memo): Step<SignerAnswer> {
    if id in memo then Step(Signer(memo[id]), 0, 0, memo)
    else
      var w := JudgeSigner(env, id);
      var limit := Limit(fuel, DEFAULT_MAX_KEY_LOG_SIGNATURE_VERIFICATIONS);
      var started := if StartsReplay(env, id) then 1 else 0;
      if w.cost > limit then Step(TooExpensive, limit, started, memo)
      else Step(w.verdict, w.cost, started, if w.verdict.Signer? then memo[id := w.verdict.states] else memo)
  }

  /** The candidate loop of `findRevocation`, with what is left of the lookup's sub-allowance. */
  function ScanStep(env: Env, digest: Text, requested: set<Text>, candidates: seq<Candidate>, allowance: nat,
      fuel: Fuel, memo: Memo): Step<Lookup>
    decreases |candidates|
  {
    if candidates == [] then Step(NoRevocation, 0, 0, memo)
    else if !Relevant(candidates[0], digest, requested)
      then ScanStep(env, digest, requested, candidates[1..], allowance, fuel, memo)
    else
      var r := candidates[0].revocation;
      var signer := SignerStep(env, r.issuerId, fuel, memo);
      After(signer, match signer.answer
        case TooExpensive => Step(LookupTooExpensive, 0, 0, signer.memo)
        case SignerThrew => Step(LookupThrew, 0, 0, signer.memo)
        case Signer(states) =>
          CandidateStep(env, digest, requested, candidates, states, allowance, Drop(fuel, signer.spent), signer.memo)
        case _ => ScanStep(env, digest, requested, candidates[1..], allowance, Drop(fuel, signer.spent), signer.memo))
  }

  function CandidateStep(env: Env, digest: Text, requested: set<Text>, candidates: seq<Candidate>,
      states: seq<AnchoredKeyState>, allowance: nat, fuel: Fuel, memo: Memo): Step<Lookup>
    requires candidates != [] && candidates[0].Parsed?
    decreases |candidates|, 0
  {
    var w := JudgeCandidate(env, candidates[0].revocation, states);
    var limit := Tighter(fuel, allowance);
    if w.cost > limit then Step(LookupTooExpensive, limit, 0, memo)
    else
      var charged := Step(NoRevocation, w.cost, 0, memo);
      After(charged,
        if w.verdict == Decided(Accepted) then Step(RevocationFound, 0, 0, memo)
        else ScanStep(env, digest, requested, candidates[1..], allowance - w.cost, Drop(fuel, w.cost), memo))
  }

  function LookupStep(env: Env, digest: Text, revokers: seq<Text>, fuel: Fuel, memo: Memo): Step<Lookup> {
    match env.view.revocations(digest, revokers)
    case RevocationsUnreachable => Step(LookupThrew, 0, 0, memo)
    case Candidates(candidates) =>
      if |candidates| > |IdSet(revokers)| then Step(LookupThrew, 0, 0, memo)
      else ScanStep(env, digest, IdSet(revokers), candidates, CANDIDATE_ALLOWANCE, fuel, memo)
  }

  /** A crypto call outside any lookup: charged up to its ceiling, refused past it. */
  function ChargeStep(w: Work<LinkOutcome>, fuel: Fuel, memo: Memo): Step<LinkOutcome> {
    var limit := Limit(fuel, DEFAULT_MAX_SIGNATURE_VERIFICATIONS);
    if w.cost > limit then Step(LinkFails(SignatureCheckTooExpensive), limit, 0, memo)
      else Step(w.verdict, w.cost, 0, memo)
  }

  function SignatureStep(env: Env, link: Grant, fuel: Fuel, memo: Memo): Step<LinkOutcome> {
    if IsParticipant(link.issuerId) then
      var signer := SignerStep(env, link.issuerId, fuel, memo);
      After(signer, match signer.answer
        case TooExpensive => Step(LinkFails(IssuerKeyLogTooExpensive), 0, 0, signer.memo)
        case SignerThrew => Step(LinkThrew, 0, 0, signer.memo)
        case Mismatched => Step(LinkFails(IssuerKeyLogParticipantMismatch), 0, 0, signer.memo)
        case Unresolved => Step(LinkFails(IssuerKeyLogUnresolved), 0, 0, signer.memo)
        case Signer(states) =>
          if link.anchor.None? then Step(LinkFails(Malformed), 0, 0, signer.memo)
          else
            var w := JudgeLinkSet(env, link, states);
            ChargeStep(Work(LinkSetOutcome(w.verdict), w.cost), Drop(fuel, signer.spent), signer.memo))
    else
      var w := JudgeKeyIssuer(env, link);
      ChargeStep(Work(KeyIssuerOutcome(w.verdict), w.cost), fuel, memo)
  }

  function RevocationStep(env: Env, o: Options, chain: seq<Grant>, i: nat, fuel: Fuel, memo: Memo): Step<LinkOutcome>
    requires i < |chain|
  {
    if !ChecksRevocation(o) then Step(LinkPasses, 0, 0, memo)
    else
      var lookup := LookupStep(env, GrantDigest(env.c, chain[i]), Revokers(chain, i), fuel, memo);
      var outcome := match lookup.answer
        case RevocationFound => LinkFails(Revoked)
        case NoRevocation => LinkPasses
        case LookupTooExpensive => LinkFails(SignatureCheckTooExpensive)
        case LookupThrew => LinkThrew;
      Step(outcome, lookup.spent, lookup.replays, lookup.memo)
  }

  function LinkStep(env: Env, o: Options, chain: seq<Grant>, i: nat, fuel: Fuel, memo: Memo): Step<LinkOutcome>
    requires i < |chain|
  {
    match PreludeReason(env, o, chain[i])
    case Some(reason) => Step(LinkFails(reason), 0, 0, memo)
    case None =>
      var signed := SignatureStep(env, chain[i], fuel, memo);
      if !signed.answer.LinkPasses? then signed
      else if !ProofMatches(env, chain, i)
        then Step(LinkFails(ProofMismatch), signed.spent, signed.replays, signed.memo)
      else After(signed, RevocationStep(env, o, chain, i, Drop(fuel, signed.spent), signed.memo))
  }

  /** The run continues past a passing link and stops at any other. */
  function Then(link: Step<LinkOutcome>, rest: Step<LinkOutcome>): Step<LinkOutcome> {
    if link.answer.LinkPasses? then After(link, rest) else link
  }

  type LinkRunner = (nat, Fuel, Memo) -> Step<LinkOutcome>

  function LinkSteps(env: Env, o: Options, chain: seq<Grant>): LinkRunner {
    (i: nat, fuel: Fuel, memo: Memo) => if i < |chain| then LinkStep(env, o, chain, i, fuel, memo)
      else Step(LinkPasses, 0, 0, memo)
  }

  function RunStep(links: LinkRunner, i: nat, n: nat, fuel: Fuel, memo: Memo): Step<LinkOutcome>
    requires i <= n
    decreases n - i
  {
    if i == n then Step(LinkPasses, 0, 0, memo)
    else
      var link := links(i, fuel, memo);
      Then(link, RunStep(links, i + 1, n, Drop(fuel, link.spent), link.memo))
  }

  /** `verifyGrantChain` under the operation's meters and memo. */
  function VerifyStep(env: Env, o: Options, chain: seq<Grant>, fuel: Fuel, memo: Memo): Step<Verdict> {
    match StructureReason(o, chain)
    case Some(reason) => Step(Invalid(reason), 0, 0, memo)
    case None =>
      var run := RunStep(LinkSteps(env, o, chain), 0, |chain|, fuel, memo);
      Step(Conclude(chain, run.answer), run.spent, run.replays, run.memo)
  }
}
