/**
 * When the interleaved calls of a request context are refused on cost: only once some meter of the
 * context is nearly spent, or for a lookup whose candidates ask more than its own allowance
 * (packages/trust/src/resolver.ts:507-535, 585-666, 859-954).
 */
module InterleavedRefusals {
  import opened Common
  import opened Metering
  import opened Grants
  import opened Resolver
  import opened Refinement
  import opened Interleavings

  /** Too little is left on the meter for every replay to fit. */
  predicate Low(fuel: Fuel) {
    fuel.Some? && fuel.value < DEFAULT_MAX_KEY_LOG_SIGNATURE_VERIFICATIONS
  }

  /** Some meter of the context is low, the outer one or a call's own. */
  ghost predicate Short(s: State) {
    Low(s.outer) || exists k :: 0 <= k < |s.calls| && Low(s.calls[k].local)
  }

  predicate Refusal(control: Control) {
    control.Done? && control.verdict.Invalid? && IsCost(control.verdict.reason)
  }

  function CandidateCharge(env: Env, candidate: Candidate, digest: Text, requested: set<Text>): nat {
    if !Relevant(candidate, digest, requested) then 0
    else match JudgeSigner(env, candidate.revocation.issuerId).verdict
      case Signer(states) => JudgeCandidate(env, candidate.revocation, states).cost
      case _ => 0
  }

  function ScanCharge(env: Env, candidates: seq<Candidate>, digest: Text, requested: set<Text>): nat {
    if candidates == [] then 0
    else CandidateCharge(env, candidates[0], digest, requested) + ScanCharge(env, candidates[1..], digest, requested)
  }

  function ChargeAt(env: Env, chain: seq<Grant>, i: nat, candidates: seq<Candidate>): nat
    requires i < |chain|
  {
    ScanCharge(env, candidates, GrantDigest(env.c, chain[i]), IdSet(Revokers(chain, i)))
  }

  /** Every lookup of the chain fits its allowance. */
  ghost predicate Moderate(env: Env, chain: seq<Grant>) {
    forall i :: 0 <= i < |chain| ==> ModerateAt(env, chain, i)
  }

  predicate ModerateAt(env: Env, chain: seq<Grant>, i: nat)
    requires i < |chain|
  {
    match env.view.revocations(GrantDigest(env.c, chain[i]), Revokers(chain, i))
    case RevocationsUnreachable => true
    case Candidates(candidates) => ChargeAt(env, chain, i, candidates) <= CANDIDATE_ALLOWANCE
  }

  /** What is left of the allowance covers the candidates left. */
  predicate Roomy(env: Env, chain: seq<Grant>, control: Control) {
    match control
    case Scanning(i, candidates, allowance) => i < |chain| && ChargeAt(env, chain, i, candidates) <= allowance
    case Fetching(i, site, _) => i < |chain| && RoomySite(env, chain, i, site)
    case Awaiting(i, site, _, _) => i < |chain| && RoomySite(env, chain, i, site)
    case _ => true
  }

  predicate RoomySite(env: Env, chain: seq<Grant>, i: nat, site: Site)
    requires i < |chain|
  {
    match site
    case OfLink => true
    case OfCandidate(candidates, allowance) => ChargeAt(env, chain, i, candidates) <= allowance
  }

  // -------- One stretch --------

  lemma {:induction false} PairsAreFree(chain: seq<Grant>, i: nat)
    requires i < |chain|
    ensures PairsError(chain, i).Some? ==> !IsCost(PairsError(chain, i).value)
    decreases |chain| - i
  {
    if i < |chain| - 1 { PairsAreFree(chain, i + 1); }
  }

  lemma {:induction false} StructureIsFree(o: Options, chain: seq<Grant>)
    ensures StructureReason(o, chain).Some? ==> !IsCost(StructureReason(o, chain).value)
  {
    if chain != [] { PairsAreFree(chain, 0); }
  }

  lemma {:induction false} CheckedRefusal(w: Work<LinkOutcome>, i: nat, fuel: Fuel)
    requires w.cost <= MAX_KEY_EVENT_KEYS && !Refused(w.verdict)
    ensures Refusal(Checked(w, i, fuel).control) ==> Low(fuel)
  {}

  lemma {:induction false} ReadyRefusal(env: Env, o: Options, chain: seq<Grant>, i: nat, fuel: Fuel,
      known: Text -> Option<nat>, unused: nat)
    requires chain != [] && i <= |chain|
    ensures var e := FromReady(env, o, chain, i, fuel, known, unused);
      (Refusal(e.control) ==> Low(fuel)) && Roomy(env, chain, e.control)
  {
    if i < |chain| && PreludeReason(env, o, chain[i]).None? && !IsParticipant(chain[i].issuerId) {
      var w := JudgeKeyIssuer(env, chain[i]);
      KeyIssuerCost(env, chain[i]);
      CheckedRefusal(Work(KeyIssuerOutcome(w.verdict), w.cost), i, fuel);
    }
  }

  lemma {:induction false} SignedRefusal(env: Env, o: Options, chain: seq<Grant>, i: nat)
    requires i < |chain| && ModerateAt(env, chain, i)
    ensures var e := FromSigned(env, o, chain, i); !Refusal(e.control) && Roomy(env, chain, e.control)
  {}

  lemma {:induction false} ScanningRefusal(env: Env, chain: seq<Grant>, i: nat, candidates: seq<Candidate>,
      allowance: nat, known: Text -> Option<nat>, unused: nat)
    requires i < |chain| && ChargeAt(env, chain, i, candidates) <= allowance
    ensures var e := FromScanning(env, chain, i, candidates, allowance, known, unused);
      !Refusal(e.control) && Roomy(env, chain, e.control)
  {}

  /** A replay is refused only under a low meter. */
  lemma {:induction false} ReplayRefusal(env: Env, id: Text, i: nat, site: Site, ticket: nat, fuel: Fuel)
    ensures var e := Replayed(env, id, i, site, ticket, fuel);
      e.change.answer.TooExpensive? ==> Low(fuel)
  {
    SignerCostBound(env, id);
  }

  lemma {:induction false} LinkRefusal(env: Env, chain: seq<Grant>, i: nat, answer: SignerAnswer, fuel: Fuel)
    requires i < |chain| && Truthful(env, chain[i].issuerId, answer)
    ensures var e := ResumeLink(env, chain[i], i, answer, fuel);
      && (Refusal(e.control) ==> Low(fuel) || answer.TooExpensive?) && Roomy(env, chain, e.control)
  {
    if answer.Signer? && chain[i].anchor.Some? {
      var w := JudgeLinkSet(env, chain[i], answer.states);
      LinkCheckCost(env, chain[i], answer.states);
      CheckedRefusal(Work(LinkSetOutcome(w.verdict), w.cost), i, fuel);
    }
  }

  lemma {:induction false} CandidateRefusal(env: Env, chain: seq<Grant>, i: nat, candidates: seq<Candidate>,
      allowance: nat, answer: SignerAnswer, fuel: Fuel)
    requires i < |chain| && SiteOk(env, chain, i, OfCandidate(candidates, allowance))
    requires ChargeAt(env, chain, i, candidates) <= allowance
      && Truthful(env, candidates[0].revocation.issuerId, answer)
    ensures var e := ResumeCandidate(env, candidates, allowance, i, answer, fuel);
      && (Refusal(e.control) ==> Low(fuel) || answer.TooExpensive?) && Roomy(env, chain, e.control)
  {
    if answer.Signer? {
      CandidateCost(env, candidates[0].revocation, answer.states);
    }
  }

  lemma {:induction false} ResumeRefusal(env: Env, chain: seq<Grant>, i: nat, site: Site, own: bool,
      answer: SignerAnswer, fuel: Fuel)
    requires i < |chain| && SiteOk(env, chain, i, site) && Truthful(env, Subject(env, chain, i, site), answer)
    requires RoomySite(env, chain, i, site)
    ensures var e := Resume(env, chain, i, site, own, answer, fuel);
      && (Refusal(e.control) ==> Low(fuel) || answer.TooExpensive?) && Roomy(env, chain, e.control)
  {
    match site
    case OfLink => LinkRefusal(env, chain, i, answer, fuel);
    case OfCandidate(candidates, allowance) => CandidateRefusal(env, chain, i, candidates, allowance, answer, fuel);
  }

  // -------- Over whole runs --------

  /** No replay and no call was refused on cost before some meter was low. */
  ghost predicate Excused(envs: nat -> Env, s: State) {
    && (forall t :: 0 <= t < |s.promises| && s.promises[t].answer == Some(TooExpensive) ==> Short(s))
    && forall k :: 0 <= k < |s.calls| && Moderate(envs(s.calls[k].view), s.calls[k].chain) ==> CallExcused(envs, s, k)
  }

  ghost predicate CallExcused(envs: nat -> Env, s: State, k: nat)
    requires k < |s.calls|
  {
    Roomy(envs(s.calls[k].view), s.calls[k].chain, s.calls[k].control) && (Refusal(s.calls[k].control) ==> Short(s))
  }

  lemma {:induction false} ShortStays(s: State, k: nat, e: Effect)
    requires k < |s.calls| && Short(s)
    ensures Short(Moved(s, k, e))
  {
    var after := Moved(s, k, e);
    if !Low(s.outer) {
      var j :| 0 <= j < |s.calls| && Low(s.calls[j].local);
      assert Low(after.calls[j].local);
    }
  }

  lemma {:induction false} LowIsShort(s: State, k: nat)
    requires k < |s.calls| && Low(Tight(s.calls[k].local, s.outer))
    ensures Short(s)
  {}

  /** The replay a call waits for is truly answered, and refused only when a meter is low. */
  predicate AnswerExcused(env: Env, call: Call, answers: nat -> Option<SignerAnswer>, low: bool)
    requires WellPlaced(env, call)
  {
    match call.control
    case Awaiting(i, site, ticket, _) =>
      answers(ticket).Some? && Truthful(env, Subject(env, call.chain, i, site), answers(ticket).value)
      && (answers(ticket).value.TooExpensive? ==> low)
    case _ => true
  }

  /** The next stretch of a moderate call is refused only when its meter is low or its replay was refused. */
  lemma {:induction false} StretchRefusal(env: Env, call: Call, fuel: Fuel, known: Text -> Option<nat>,
      answers: nat -> Option<SignerAnswer>, unused: nat, low: bool)
    requires WellPlaced(env, call) && Roomy(env, call.chain, call.control) && Moderate(env, call.chain)
    requires Next(env, call, fuel, known, answers, unused).Some? && AnswerExcused(env, call, answers, low)
    ensures var e := Next(env, call, fuel, known, answers, unused).value;
      && (Refusal(e.control) ==> Low(fuel) || low) && Roomy(env, call.chain, e.control)
  {
    var chain := call.chain;
    match call.control
    case Ready(i) => ReadyRefusal(env, call.o, chain, i, fuel, known, unused);
    case Signed(i) =>
      assert ModerateAt(env, chain, i);
      SignedRefusal(env, call.o, chain, i);
    case Scanning(i, candidates, allowance) => ScanningRefusal(env, chain, i, candidates, allowance, known, unused);
    case Fetching(i, site, ticket) =>
    case Awaiting(i, site, ticket, own) => ResumeRefusal(env, chain, i, site, own, answers(ticket).value, fuel);
    case Done(_) => assert false;
  }

  lemma {:induction false} AnswersAreExcused(envs: nat -> Env, granted: Fuel, s: State, k: nat)
    requires Good(envs, granted, s) && CanMove(envs, s, k) && Excused(envs, s)
    ensures AnswerExcused(envs(s.calls[k].view), s.calls[k], AnswersIn(s), Short(s))
  {
    assert CallGood(envs, s.calls[k], s.promises);
  }

  lemma {:induction false} NextRefusal(envs: nat -> Env, granted: Fuel, s: State, k: nat)
    requires Good(envs, granted, s) && CanMove(envs, s, k) && Excused(envs, s)
    requires Moderate(envs(s.calls[k].view), s.calls[k].chain)
    ensures var e := NextOf(envs, s, k).value;
      && (Refusal(e.control) ==> Short(s)) && Roomy(envs(s.calls[k].view), s.calls[k].chain, e.control)
  {
    var call := s.calls[k];
    var fuel := Tight(call.local, s.outer);
    assert CallExcused(envs, s, k);
    AnswersAreExcused(envs, granted, s, k);
    if Low(fuel) { LowIsShort(s, k); }
    StretchRefusal(envs(call.view), call, fuel, KnownIn(s, call.view), AnswersIn(s), |s.promises|, Short(s));
  }

  lemma {:induction false} SettlesExcused(envs: nat -> Env, s: State, k: nat)
    requires CanMove(envs, s, k) && s.calls[k].control.Fetching?
    ensures var change := NextOf(envs, s, k).value.change;
      change.Settle? && (change.answer.TooExpensive? ==> Short(s))
  {
    var call := s.calls[k];
    var env, fuel := envs(call.view), Tight(call.local, s.outer);
    var Fetching(i, site, ticket) := call.control;
    ReplayRefusal(env, Subject(env, call.chain, i, site), i, site, ticket, fuel);
    if Low(fuel) { LowIsShort(s, k); }
  }

  lemma {:induction false} ReplaysStayExcused(envs: nat -> Env, granted: Fuel, s: State, k: nat)
    requires Good(envs, granted, s) && CanMove(envs, s, k) && Excused(envs, s)
    ensures var after := Moved(s, k, NextOf(envs, s, k).value);
      forall t :: 0 <= t < |after.promises| && after.promises[t].answer == Some(TooExpensive) ==> Short(s)
  {
    NextIsGood(envs, granted, s, k);
    if s.calls[k].control.Fetching? { SettlesExcused(envs, s, k); }
  }

  lemma {:induction false} MoveStaysExcused(envs: nat -> Env, granted: Fuel, s: State, k: nat)
    requires Good(envs, granted, s) && CanMove(envs, s, k) && Excused(envs, s)
    ensures Excused(envs, Moved(s, k, NextOf(envs, s, k).value))
  {
    var e := NextOf(envs, s, k).value;
    var after := Moved(s, k, e);
    ReplaysStayExcused(envs, granted, s, k);
    if Short(s) { ShortStays(s, k, e); }
    forall j | 0 <= j < |after.calls| && Moderate(envs(after.calls[j].view), after.calls[j].chain)
      ensures CallExcused(envs, after, j) {
      if j == k {
        NextRefusal(envs, granted, s, k);
      } else {
        assert CallExcused(envs, s, j);
      }
    }
  }

  lemma {:induction false} BeginStaysExcused(envs: nat -> Env, s: State, view: nat, o: Options,
      chain: seq<Grant>, granted: Fuel)
    requires Excused(envs, s)
    ensures Excused(envs, s.(calls := s.calls + [Begun(view, o, chain, granted)]))
  {
    var after := s.(calls := s.calls + [Begun(view, o, chain, granted)]);
    if Short(s) && !Low(s.outer) {
      var j :| 0 <= j < |s.calls| && Low(s.calls[j].local);
      assert Low(after.calls[j].local);
    }
    StructureIsFree(o, chain);
    forall k | 0 <= k < |after.calls| && Moderate(envs(after.calls[k].view), after.calls[k].chain)
      ensures CallExcused(envs, after, k) {
      if k < |s.calls| {
        assert CallExcused(envs, s, k);
      }
    }
  }

  lemma {:induction false} RunStaysExcused(envs: nat -> Env, granted: Fuel, s: State, events: seq<Event>)
    requires Good(envs, granted, s) && Excused(envs, s)
    ensures Excused(envs, Run(envs, s, events))
    decreases |events|
  {
    if events != [] {
      match events[0] {
        case Begin(view, o, chain, local) => BeginStaysExcused(envs, s, view, o, chain, local);
        case Move(k) => if CanMove(envs, s, k) { MoveStaysExcused(envs, granted, s, k); }
      }
      AdvanceStaysGood(envs, granted, s, events[0]);
      RunStaysExcused(envs, granted, Advance(envs, s, events[0]), events[1..]);
    }
  }

  /** While no meter of the context is low, a call whose lookups fit their allowance gets the ideal verdict. */
  lemma {:induction false} AmpleMetersGiveIdeal(envs: nat -> Env, granted: Fuel, events: seq<Event>, k: nat)
    requires k < |Run(envs, Opened(granted), events).calls|
    ensures var s := Run(envs, Opened(granted), events);
      var call := s.calls[k];
      Moderate(envs(call.view), call.chain) && call.control.Done? && !Short(s) ==>
        call.control.verdict == Ideal(envs, call)
  {
    RunStaysExcused(envs, granted, Opened(granted), events);
    InterleavedCallsAreSound(envs, granted, events);
    var s := Run(envs, Opened(granted), events);
    if Moderate(envs(s.calls[k].view), s.calls[k].chain) {
      assert CallExcused(envs, s, k) && CallSound(envs, s.calls[k]);
    }
  }
}
