/**
 * Several calls of one request context, interleaved wherever one of them awaits its view
 * (packages/trust/src/resolver.ts:383-417, 507-666, 859-954, 1290-1377). They share the outer meter
 * and, view by view, the memo of pending replays: a call that asks about a participant another call
 * is already replaying waits for that replay instead of starting its own.
 */
module Interleavings {
  import opened Common
  import opened Metering
  import opened Records
  import opened Grants
  import opened Resolver
  import opened Refinement
  import KeyLog

  /** What a signer is asked about for: the link itself, or the first of the candidates left. */
  datatype Site = OfLink | OfCandidate(candidates: seq<Candidate>, allowance: nat)

  /** Where a call is: between two awaits, or suspended at one. */
  datatype Control =
    | Ready(i: nat)
    | Signed(i: nat)
    | Scanning(i: nat, candidates: seq<Candidate>, allowance: nat)
    | Fetching(i: nat, site: Site, ticket: nat)
    | Awaiting(i: nat, site: Site, ticket: nat, own: bool)
    | Done(verdict: Verdict)

  /** One call of `verifyGrantChain`: its local meter as granted and as left, and what it has spent. */
  datatype Call = Call(view: nat, o: Options, chain: seq<Grant>, granted: Fuel, local: Fuel,
      spent: nat, control: Control)

  /** A replay started for a participant of a view, settled or not. */
  datatype Promise = Promise(view: nat, id: Text, answer: Option<SignerAnswer>)

  /** The outer meter, every replay ever started, which of them the memo holds, and the calls. */
  datatype State = State(outer: Fuel, promises: seq<Promise>, memo: map<(nat, Text), nat>, calls: seq<Call>)

  datatype Change = Nothing | Open(id: Text) | Settle(ticket: nat, answer: SignerAnswer) | Forget(id: Text)

  /** What one stretch of a call charges, where it leaves the call, and what it does to the memo. */
  datatype Effect = Effect(spent: nat, control: Control, change: Change)

  // -------- One stretch of one call --------

  function Tight(local: Fuel, outer: Fuel): Fuel {
    match (local, outer)
    case (None, f) => f
    case (f, None) => f
    case (Some(m), Some(n)) => Some(if m <= n then m else n)
  }

  predicate SiteOk(env: Env, chain: seq<Grant>, i: nat, site: Site)
    requires i < |chain|
  {
    match site
    case OfLink => true
    case OfCandidate(candidates, _) =>
      candidates != [] && Relevant(candidates[0], GrantDigest(env.c, chain[i]), IdSet(Revokers(chain, i)))
  }

  predicate WellPlaced(env: Env, call: Call) {
    match call.control
    case Ready(i) => call.chain != [] && i <= |call.chain|
    case Signed(i) => i < |call.chain|
    case Scanning(i, _, _) => i < |call.chain|
    case Fetching(i, site, _) => i < |call.chain| && SiteOk(env, call.chain, i, site)
    case Awaiting(i, site, _, _) => i < |call.chain| && SiteOk(env, call.chain, i, site)
    case Done(_) => true
  }

  /** The participant a suspended call asked about. */
  function Subject(env: Env, chain: seq<Grant>, i: nat, site: Site): Text
    requires i < |chain| && SiteOk(env, chain, i, site)
  {
    match site
    case OfLink => chain[i].issuerId
    case OfCandidate(candidates, _) => candidates[0].revocation.issuerId
  }

  function Fail(reason: Reason): Control {
    Done(Invalid(reason))
  }

  /** A charged check of link `i`'s signatures and what comes of it. */
  function Checked(w: Work<LinkOutcome>, i: nat, fuel: Fuel): Effect {
    var limit := Limit(fuel, DEFAULT_MAX_SIGNATURE_VERIFICATIONS);
    if w.cost > limit then Effect(limit, Fail(SignatureCheckTooExpensive), Nothing)
    else match w.verdict
      case LinkPasses => Effect(w.cost, Signed(i), Nothing)
      case LinkFails(reason) => Effect(w.cost, Fail(reason), Nothing)
      case LinkThrew => Effect(w.cost, Done(Threw), Nothing)
  }

  /** `signerStates` up to its await: the pending or remembered replay, or a new one. */
  function Ask(id: Text, i: nat, site: Site, known: Option<nat>, unused: nat): Effect {
    match known
    case Some(ticket) => Effect(0, Awaiting(i, site, ticket, false), Nothing)
    case None => Effect(0, Fetching(i, site, unused), Open(id))
  }

  /** The view answered with the log: it is replayed under whatever the meters allow by now. */
  function Replayed(env: Env, id: Text, i: nat, site: Site, ticket: nat, fuel: Fuel): Effect {
    var w := JudgeSigner(env, id);
    var limit := Limit(fuel, DEFAULT_MAX_KEY_LOG_SIGNATURE_VERIFICATIONS);
    Effect(Charge(w, limit), Awaiting(i, site, ticket, true),
      Settle(ticket, if w.cost > limit then TooExpensive else w.verdict))
  }

  function ResumeLink(env: Env, link: Grant, i: nat, answer: SignerAnswer, fuel: Fuel): Effect {
    match answer
    case TooExpensive => Effect(0, Fail(IssuerKeyLogTooExpensive), Nothing)
    case SignerThrew => Effect(0, Done(Threw), Nothing)
    case Mismatched => Effect(0, Fail(IssuerKeyLogParticipantMismatch), Nothing)
    case Unresolved => Effect(0, Fail(IssuerKeyLogUnresolved), Nothing)
    case Signer(states) =>
      if link.anchor.None? then Effect(0, Fail(Malformed), Nothing)
      else
        var w := JudgeLinkSet(env, link, states);
        Checked(Work(LinkSetOutcome(w.verdict), w.cost), i, fuel)
  }

  function ResumeCandidate(env: Env, candidates: seq<Candidate>, allowance: nat, i: nat,
      answer: SignerAnswer, fuel: Fuel): Effect
    requires candidates != [] && candidates[0].Parsed?
  {
    match answer
    case TooExpensive => Effect(0, Fail(SignatureCheckTooExpensive), Nothing)
    case SignerThrew => Effect(0, Done(Threw), Nothing)
    case Signer(states) =>
      var w := JudgeCandidate(env, candidates[0].revocation, states);
      var limit := Tighter(fuel, allowance);
      if w.cost > limit then Effect(limit, Fail(SignatureCheckTooExpensive), Nothing)
      else if w.verdict == Decided(Accepted) then Effect(w.cost, Fail(Revoked), Nothing)
      else Effect(w.cost, Scanning(i, candidates[1..], allowance - w.cost), Nothing)
    case _ => Effect(0, Scanning(i, candidates[1..], allowance), Nothing)
  }

  /** The starter of a replay that failed takes it out of the memo as it resumes. */
  function ResumeChange(id: Text, answer: SignerAnswer, own: bool): Change {
    if own && !answer.Signer? then Forget(id) else Nothing
  }

  function Resume(env: Env, chain: seq<Grant>, i: nat, site: Site, own: bool, answer: SignerAnswer, fuel: Fuel): Effect
    requires i < |chain| && SiteOk(env, chain, i, site)
  {
    var e := match site
      case OfLink => ResumeLink(env, chain[i], i, answer, fuel)
      case OfCandidate(candidates, allowance) => ResumeCandidate(env, candidates, allowance, i, answer, fuel);
    e.(change := ResumeChange(Subject(env, chain, i, site), answer, own))
  }

  function FromReady(env: Env, o: Options, chain: seq<Grant>, i: nat, fuel: Fuel,
      known: Text -> Option<nat>, unused: nat): Effect
    requires chain != [] && i <= |chain|
  {
    if i == |chain| then Effect(0, Done(Accept(chain)), Nothing)
    else match PreludeReason(env, o, chain[i])
      case Some(reason) => Effect(0, Fail(reason), Nothing)
      case None =>
        var id := chain[i].issuerId;
        if IsParticipant(id) then Ask(id, i, OfLink, known(id), unused)
        else
          var w := JudgeKeyIssuer(env, chain[i]);
          Checked(Work(KeyIssuerOutcome(w.verdict), w.cost), i, fuel)
  }

  function FromSigned(env: Env, o: Options, chain: seq<Grant>, i: nat): Effect
    requires i < |chain|
  {
    if !ProofMatches(env, chain, i) then Effect(0, Fail(ProofMismatch), Nothing)
    else if !ChecksRevocation(o) then Effect(0, Ready(i + 1), Nothing)
    else match env.view.revocations(GrantDigest(env.c, chain[i]), Revokers(chain, i))
      case RevocationsUnreachable => Effect(0, Done(Threw), Nothing)
      case Candidates(candidates) =>
        if |candidates| > |IdSet(Revokers(chain, i))| then Effect(0, Done(Threw), Nothing)
        else Effect(0, Scanning(i, candidates, CANDIDATE_ALLOWANCE), Nothing)
  }

  function FromScanning(env: Env, chain: seq<Grant>, i: nat, candidates: seq<Candidate>, allowance: nat,
      known: Text -> Option<nat>, unused: nat): Effect
    requires i < |chain|
  {
    if candidates == [] then Effect(0, Ready(i + 1), Nothing)
    else if !Relevant(candidates[0], GrantDigest(env.c, chain[i]), IdSet(Revokers(chain, i))) then
      Effect(0, Scanning(i, candidates[1..], allowance), Nothing)
    else
      var id := candidates[0].revocation.issuerId;
      Ask(id, i, OfCandidate(candidates, allowance), known(id), unused)
  }

  /** The next stretch of a call, or None where it is finished or its replay is not settled yet. */
  function Next(env: Env, call: Call, fuel: Fuel, known: Text -> Option<nat>, answers: nat -> Option<SignerAnswer>,
      unused: nat): Option<Effect>
    requires WellPlaced(env, call)
  {
    var chain := call.chain;
    match call.control
    case Done(_) => None
    case Ready(i) => Some(FromReady(env, call.o, chain, i, fuel, known, unused))
    case Signed(i) => Some(FromSigned(env, call.o, chain, i))
    case Scanning(i, candidates, allowance) => Some(FromScanning(env, chain, i, candidates, allowance, known, unused))
    case Fetching(i, site, ticket) => Some(Replayed(env, Subject(env, chain, i, site), i, site, ticket, fuel))
    case Awaiting(i, site, ticket, own) =>
      match answers(ticket)
      case None => None
      case Some(answer) => Some(Resume(env, chain, i, site, own, answer, fuel))
  }

  // -------- What the rest of a call deserves --------

  function After(chain: seq<Grant>, outcome: LinkOutcome, rest: LinkOutcome): LinkOutcome {
    if outcome.LinkPasses? then rest else outcome
  }

  function LookupOutcome(found: Lookup): LinkOutcome {
    match found
    case RevocationFound => LinkFails(Revoked)
    case NoRevocation => LinkPasses
    case _ => LinkThrew
  }

  function RestOf(env: Env, o: Options, chain: seq<Grant>, i: nat): LinkOutcome
    requires i <= |chain|
  {
    IdealRun(IdealLinks(env, o, chain), i, |chain|)
  }

  /** The ideal outcome from a point of the scan on. */
  function ScanRest(env: Env, o: Options, chain: seq<Grant>, i: nat, candidates: seq<Candidate>): LinkOutcome
    requires i < |chain|
  {
    After(chain, LookupOutcome(IdealScan(env, GrantDigest(env.c, chain[i]), IdSet(Revokers(chain, i)), candidates)),
      RestOf(env, o, chain, i + 1))
  }

  function SignedRest(env: Env, o: Options, chain: seq<Grant>, i: nat): LinkOutcome
    requires i < |chain|
  {
    if !ProofMatches(env, chain, i) then LinkFails(ProofMismatch)
    else After(chain, IdealRevocation(env, o, chain, i), RestOf(env, o, chain, i + 1))
  }

  function SiteRest(env: Env, o: Options, chain: seq<Grant>, i: nat, site: Site): LinkOutcome
    requires i < |chain|
  {
    match site
    case OfLink => RestOf(env, o, chain, i)
    case OfCandidate(candidates, _) => ScanRest(env, o, chain, i, candidates)
  }

  /** A link whose signer is being asked about has passed its prelude and is a participant's. */
  predicate SiteOpen(env: Env, o: Options, chain: seq<Grant>, i: nat, site: Site)
    requires i < |chain|
  {
    SiteOk(env, chain, i, site)
      && (site.OfLink? ==> PreludeReason(env, o, chain[i]).None? && IsParticipant(chain[i].issuerId))
  }

  /** From here an unmetered call would end as the whole call deserves. */
  predicate OnTrack(env: Env, o: Options, chain: seq<Grant>, control: Control, ideal: Verdict) {
    chain != [] && match control
      case Ready(i) => i <= |chain| && Conclude(chain, RestOf(env, o, chain, i)) == ideal
      case Signed(i) => i < |chain| && Conclude(chain, SignedRest(env, o, chain, i)) == ideal
      case Scanning(i, candidates, _) => i < |chain| && Conclude(chain, ScanRest(env, o, chain, i, candidates)) == ideal
      case Fetching(i, site, _) =>
        i < |chain| && SiteOpen(env, o, chain, i, site) && Conclude(chain, SiteRest(env, o, chain, i, site)) == ideal
      case Awaiting(i, site, _, _) =>
        i < |chain| && SiteOpen(env, o, chain, i, site) && Conclude(chain, SiteRest(env, o, chain, i, site)) == ideal
      case Done(verdict) => verdict == ideal || (verdict.Invalid? && IsCost(verdict.reason))
  }

  predicate Truthful(env: Env, id: Text, answer: SignerAnswer) {
    answer == JudgeSigner(env, id).verdict || answer.TooExpensive?
  }

  // -------- Each stretch keeps the call on track --------

  lemma {:induction false} CheckedOnTrack(env: Env, o: Options, chain: seq<Grant>, i: nat, w: Work<LinkOutcome>,
      fuel: Fuel, ideal: Verdict)
    requires i < |chain| && PreludeReason(env, o, chain[i]).None? && w.verdict == IdealSignature(env, chain[i])
    requires Conclude(chain, RestOf(env, o, chain, i)) == ideal
    ensures OnTrack(env, o, chain, Checked(w, i, fuel).control, ideal) && WithinFuel(fuel, Checked(w, i, fuel).spent)
  {
    RestUnfolds(env, o, chain, i);
  }

  lemma {:induction false} RestUnfolds(env: Env, o: Options, chain: seq<Grant>, i: nat)
    requires i < |chain| && PreludeReason(env, o, chain[i]).None?
    ensures RestOf(env, o, chain, i) == After(chain, IdealSignature(env, chain[i]), SignedRest(env, o, chain, i))
  {
    var links := IdealLinks(env, o, chain);
    assert links(i) == IdealLink(env, o, chain, i);
  }

  lemma {:induction false} ReadyOnTrack(env: Env, o: Options, chain: seq<Grant>, i: nat, fuel: Fuel,
      known: Text -> Option<nat>, unused: nat, ideal: Verdict)
    requires OnTrack(env, o, chain, Ready(i), ideal)
    ensures OnTrack(env, o, chain, FromReady(env, o, chain, i, fuel, known, unused).control, ideal)
    ensures WithinFuel(fuel, FromReady(env, o, chain, i, fuel, known, unused).spent)
  {
    if i < |chain| {
      var links := IdealLinks(env, o, chain);
      assert links(i) == IdealLink(env, o, chain, i);
      if PreludeReason(env, o, chain[i]).None? && !IsParticipant(chain[i].issuerId) {
        var w := JudgeKeyIssuer(env, chain[i]);
        CheckedOnTrack(env, o, chain, i, Work(KeyIssuerOutcome(w.verdict), w.cost), fuel, ideal);
      }
    }
  }

  lemma {:induction false} SignedUnfolds(env: Env, o: Options, chain: seq<Grant>, i: nat)
    requires i < |chain| && ProofMatches(env, chain, i)
    ensures SignedRest(env, o, chain, i) ==
      if !ChecksRevocation(o) then RestOf(env, o, chain, i + 1)
      else match env.view.revocations(GrantDigest(env.c, chain[i]), Revokers(chain, i))
        case RevocationsUnreachable => LinkThrew
        case Candidates(candidates) =>
          if |candidates| > |IdSet(Revokers(chain, i))| then LinkThrew else ScanRest(env, o, chain, i, candidates)
  {}

  lemma {:induction false} SignedOnTrack(env: Env, o: Options, chain: seq<Grant>, i: nat, ideal: Verdict)
    requires OnTrack(env, o, chain, Signed(i), ideal)
    ensures OnTrack(env, o, chain, FromSigned(env, o, chain, i).control, ideal)
  {
    if ProofMatches(env, chain, i) {
      SignedUnfolds(env, o, chain, i);
    }
  }

  lemma {:induction false} NothingLeft(env: Env, o: Options, chain: seq<Grant>, i: nat)
    requires i < |chain|
    ensures ScanRest(env, o, chain, i, []) == RestOf(env, o, chain, i + 1)
  {}

  lemma {:induction false} Skipped(env: Env, o: Options, chain: seq<Grant>, i: nat, candidates: seq<Candidate>)
    requires i < |chain| && candidates != []
      && !Relevant(candidates[0], GrantDigest(env.c, chain[i]), IdSet(Revokers(chain, i)))
    ensures ScanRest(env, o, chain, i, candidates) == ScanRest(env, o, chain, i, candidates[1..])
  {}

  lemma {:induction false} Judged(env: Env, o: Options, chain: seq<Grant>, i: nat, candidates: seq<Candidate>,
      states: seq<KeyLog.AnchoredKeyState>)
    requires i < |chain| && candidates != []
      && Relevant(candidates[0], GrantDigest(env.c, chain[i]), IdSet(Revokers(chain, i)))
    requires JudgeSigner(env, candidates[0].revocation.issuerId).verdict == Signer(states)
    ensures ScanRest(env, o, chain, i, candidates) ==
      if JudgeCandidate(env, candidates[0].revocation, states).verdict == Decided(Accepted) then LinkFails(Revoked)
      else ScanRest(env, o, chain, i, candidates[1..])
  {
    IdealScanStep(env, GrantDigest(env.c, chain[i]), IdSet(Revokers(chain, i)), candidates, states);
  }

  lemma {:induction false} NotJudged(env: Env, o: Options, chain: seq<Grant>, i: nat, candidates: seq<Candidate>)
    requires i < |chain| && candidates != []
      && Relevant(candidates[0], GrantDigest(env.c, chain[i]), IdSet(Revokers(chain, i)))
    requires !JudgeSigner(env, candidates[0].revocation.issuerId).verdict.Signer?
    ensures ScanRest(env, o, chain, i, candidates) ==
      if JudgeSigner(env, candidates[0].revocation.issuerId).verdict.SignerThrew? then LinkThrew
      else ScanRest(env, o, chain, i, candidates[1..])
  {}

  lemma {:induction false} ScanningOnTrack(env: Env, o: Options, chain: seq<Grant>, i: nat, candidates: seq<Candidate>,
      allowance: nat, known: Text -> Option<nat>, unused: nat, ideal: Verdict)
    requires OnTrack(env, o, chain, Scanning(i, candidates, allowance), ideal)
    ensures OnTrack(env, o, chain, FromScanning(env, chain, i, candidates, allowance, known, unused).control, ideal)
    ensures FromScanning(env, chain, i, candidates, allowance, known, unused).spent == 0
  {
    if candidates == [] {
      NothingLeft(env, o, chain, i);
    } else if !Relevant(candidates[0], GrantDigest(env.c, chain[i]), IdSet(Revokers(chain, i))) {
      Skipped(env, o, chain, i, candidates);
    }
  }

  lemma {:induction false} LinkResumesOnTrack(env: Env, o: Options, chain: seq<Grant>, i: nat, answer: SignerAnswer,
      fuel: Fuel, ideal: Verdict)
    requires i < |chain| && SiteOpen(env, o, chain, i, OfLink) && Conclude(chain, RestOf(env, o, chain, i)) == ideal
    requires Truthful(env, chain[i].issuerId, answer)
    ensures OnTrack(env, o, chain, ResumeLink(env, chain[i], i, answer, fuel).control, ideal)
    ensures WithinFuel(fuel, ResumeLink(env, chain[i], i, answer, fuel).spent)
  {
    RestUnfolds(env, o, chain, i);
    if answer.Signer? && chain[i].anchor.Some? {
      var w := JudgeLinkSet(env, chain[i], answer.states);
      CheckedOnTrack(env, o, chain, i, Work(LinkSetOutcome(w.verdict), w.cost), fuel, ideal);
    }
  }

  lemma {:induction false} CandidateResumesOnTrack(env: Env, o: Options, chain: seq<Grant>, i: nat,
      candidates: seq<Candidate>, allowance: nat, answer: SignerAnswer, fuel: Fuel, ideal: Verdict)
    requires i < |chain| && SiteOk(env, chain, i, OfCandidate(candidates, allowance))
    requires Conclude(chain, ScanRest(env, o, chain, i, candidates)) == ideal
      && Truthful(env, candidates[0].revocation.issuerId, answer)
    ensures OnTrack(env, o, chain, ResumeCandidate(env, candidates, allowance, i, answer, fuel).control, ideal)
    ensures WithinFuel(fuel, ResumeCandidate(env, candidates, allowance, i, answer, fuel).spent)
  {
    if answer.Signer? {
      Judged(env, o, chain, i, candidates, answer.states);
    } else if !answer.TooExpensive? {
      NotJudged(env, o, chain, i, candidates);
    }
  }

  // -------- The context --------

  function KnownIn(s: State, view: nat): Text -> Option<nat> {
    (id: Text) => if (view, id) in s.memo then Some(s.memo[(view, id)]) else None
  }

  function AnswersIn(s: State): nat -> Option<SignerAnswer> {
    (ticket: nat) => if ticket < |s.promises| then s.promises[ticket].answer else None
  }

  /** The next stretch of call `k`, under the tighter of its two meters as they stand. */
  function NextOf(envs: nat -> Env, s: State, k: nat): Option<Effect>
    requires k < |s.calls| && WellPlaced(envs(s.calls[k].view), s.calls[k])
  {
    var call := s.calls[k];
    Next(envs(call.view), call, Tight(call.local, s.outer), KnownIn(s, call.view), AnswersIn(s), |s.promises|)
  }

  function Charged(call: Call, spent: nat, control: Control): Call {
    call.(local := Drop(call.local, spent), spent := call.spent + spent, control := control)
  }

  /** Forgetting drops the entry only while it is still the one the starter put there. */
  function Changed(s: State, call: Call, change: Change): State {
    match change
    case Nothing => s
    case Open(id) =>
      s.(promises := s.promises + [Promise(call.view, id, None)], memo := s.memo[(call.view, id) := |s.promises|])
    case Settle(ticket, answer) =>
      if ticket < |s.promises|
        then s.(promises := s.promises[ticket := s.promises[ticket].(answer := Some(answer))]) else s
    case Forget(id) =>
      var mine := call.control.Awaiting? && (call.view, id) in s.memo && s.memo[(call.view, id)] == call.control.ticket;
      if mine then s.(memo := s.memo - {(call.view, id)}) else s
  }

  function Moved(s: State, k: nat, e: Effect): State
    requires k < |s.calls|
  {
    var calls := s.calls[k := Charged(s.calls[k], e.spent, e.control)];
    Changed(s, s.calls[k], e.change).(outer := Drop(s.outer, e.spent), calls := calls)
  }

  /** A call as it begins: refused on its structure, or before its first link. */
  function Begun(view: nat, o: Options, chain: seq<Grant>, granted: Fuel): Call {
    var control := match StructureReason(o, chain)
      case Some(reason) => Fail(reason)
      case None => Ready(0);
    Call(view, o, chain, granted, granted, 0, control)
  }

  /** A call begins, or the next stretch of one runs; a call that cannot go on leaves everything as it is. */
  datatype Event = Begin(view: nat, o: Options, chain: seq<Grant>, granted: Fuel) | Move(k: nat)

  function Advance(envs: nat -> Env, s: State, event: Event): State {
    match event
    case Begin(view, o, chain, granted) => s.(calls := s.calls + [Begun(view, o, chain, granted)])
    case Move(k) => if CanMove(envs, s, k) then Moved(s, k, NextOf(envs, s, k).value) else s
  }

  predicate CanMove(envs: nat -> Env, s: State, k: nat) {
    k < |s.calls| && WellPlaced(envs(s.calls[k].view), s.calls[k]) && NextOf(envs, s, k).Some?
  }

  function Run(envs: nat -> Env, s: State, events: seq<Event>): State
    decreases |events|
  {
    if events == [] then s else Run(envs, Advance(envs, s, events[0]), events[1..])
  }

  /** A context as it is created, its outer meter full and its memo empty. */
  function Opened(granted: Fuel): State {
    State(granted, [], map[], [])
  }

  // -------- What every step keeps --------

  function Ideal(envs: nat -> Env, call: Call): Verdict {
    IdealVerdict(envs(call.view), call.o, call.chain)
  }

  /** The call is where an unmetered one could be, its meter tells what it spent, and its ticket is its subject's. */
  ghost predicate CallGood(envs: nat -> Env, call: Call, promises: seq<Promise>) {
    && (if call.chain == [] then call.control == Done(Ideal(envs, call))
        else OnTrack(envs(call.view), call.o, call.chain, call.control, Ideal(envs, call)))
    && Holds(call.granted, call.local, call.spent)
    && TicketFits(envs(call.view), call, call.control, promises)
  }

  /** A meter, where there is one, is what it was granted less what was spent. */
  predicate Holds(granted: Fuel, left: Fuel, spent: nat) {
    match granted
    case None => left == None
    case Some(n) => spent <= n && left == Some(n - spent)
  }

  /** The replay a suspended call waits for is of the participant it asked about. */
  predicate TicketFits(env: Env, call: Call, control: Control, promises: seq<Promise>) {
    match control
    case Fetching(i, site, ticket) => SiteFits(env, call, i, site, ticket, promises)
    case Awaiting(i, site, ticket, _) => SiteFits(env, call, i, site, ticket, promises)
    case _ => true
  }

  predicate SiteFits(env: Env, call: Call, i: nat, site: Site, ticket: nat, promises: seq<Promise>) {
    && i < |call.chain| && SiteOk(env, call.chain, i, site)
    && ticket < |promises| && Names(promises[ticket], call.view, Subject(env, call.chain, i, site))
  }

  predicate Names(p: Promise, view: nat, id: Text) {
    p.view == view && p.id == id
  }

  function Total(calls: seq<Call>, weight: Call -> nat): nat {
    if calls == [] then 0 else weight(calls[0]) + Total(calls[1..], weight)
  }

  function Spent(calls: seq<Call>): nat {
    Total(calls, (call: Call) => call.spent)
  }

  ghost predicate PromisesGood(envs: nat -> Env, promises: seq<Promise>) {
    forall t :: 0 <= t < |promises| && promises[t].answer.Some? ==>
      Truthful(envs(promises[t].view), promises[t].id, promises[t].answer.value)
  }

  ghost predicate MemoGood(s: State) {
    forall key :: key in s.memo ==> s.memo[key] < |s.promises| && Names(s.promises[s.memo[key]], key.0, key.1)
  }

  /** Every replay not settled yet has a call that is fetching the log for it. */
  ghost predicate Fetched(s: State) {
    forall t :: 0 <= t < |s.promises| && s.promises[t].answer.None? ==> FetchedBy(s.calls, t)
  }

  ghost predicate FetchedBy(calls: seq<Call>, t: nat) {
    exists k :: 0 <= k < |calls| && calls[k].control.Fetching? && calls[k].control.ticket == t
  }

  predicate Failed(p: Promise) {
    p.answer.Some? && !p.answer.value.Signer?
  }

  /** A replay that has not failed is the one the memo holds for its participant. */
  ghost predicate Held(s: State) {
    forall t :: 0 <= t < |s.promises| && !Failed(s.promises[t]) ==> HeldAt(s, t)
  }

  predicate HeldAt(s: State, t: nat)
    requires t < |s.promises|
  {
    var key := (s.promises[t].view, s.promises[t].id);
    key in s.memo && s.memo[key] == t
  }

  /** An earlier replay of the same participant of a view has failed. */
  ghost predicate Retried(promises: seq<Promise>) {
    forall t, u :: 0 <= t < u < |promises| && Names(promises[u], promises[t].view, promises[t].id) ==>
      Failed(promises[t])
  }

  /** A replay is fetched for by one call, and only until it is settled. */
  ghost predicate Lone(s: State) {
    forall k :: 0 <= k < |s.calls| && s.calls[k].control.Fetching? ==> LoneAt(s, k)
  }

  ghost predicate LoneAt(s: State, k: nat)
    requires k < |s.calls| && s.calls[k].control.Fetching?
  {
    var ticket := s.calls[k].control.ticket;
    && ticket < |s.promises| && s.promises[ticket].answer.None?
    && forall j :: 0 <= j < |s.calls| && j != k && s.calls[j].control.Fetching? ==> s.calls[j].control.ticket != ticket
  }

  ghost predicate Good(envs: nat -> Env, granted: Fuel, s: State) {
    && (forall k :: 0 <= k < |s.calls| ==> CallGood(envs, s.calls[k], s.promises))
    && PromisesGood(envs, s.promises) && MemoGood(s) && Fetched(s)
    && Held(s) && Retried(s.promises) && Lone(s)
    && Holds(granted, s.outer, Spent(s.calls))
  }

  lemma {:induction false} TotalUpdate(calls: seq<Call>, weight: Call -> nat, k: nat, call: Call)
    requires k < |calls|
    ensures Total(calls[k := call], weight) == Total(calls, weight) - weight(calls[k]) + weight(call)
  {
    if k > 0 {
      TotalUpdate(calls[1..], weight, k - 1, call);
      assert calls[k := call][1..] == calls[1..][k - 1 := call];
    } else {
      assert calls[0 := call][1..] == calls[1..];
    }
  }

  lemma {:induction false} TotalAppend(calls: seq<Call>, weight: Call -> nat, call: Call)
    ensures Total(calls + [call], weight) == Total(calls, weight) + weight(call)
  {
    if calls != [] {
      TotalAppend(calls[1..], weight, call);
      assert (calls + [call])[1..] == calls[1..] + [call];
    }
  }

  lemma {:induction false} SpentUpdate(calls: seq<Call>, k: nat, call: Call)
    requires k < |calls|
    ensures Spent(calls[k := call]) == Spent(calls) - calls[k].spent + call.spent
  {
    TotalUpdate(calls, (call: Call) => call.spent, k, call);
  }

  lemma {:induction false} TightHolds(local: Fuel, outer: Fuel, spent: nat)
    requires WithinFuel(Tight(local, outer), spent)
    ensures WithinFuel(local, spent) && WithinFuel(outer, spent)
  {}

  lemma {:induction false} DropHolds(granted: Fuel, left: Fuel, before: nat, spent: nat)
    requires Holds(granted, left, before) && WithinFuel(left, spent)
    ensures Holds(granted, Drop(left, spent), before + spent)
  {}

  /** What a stretch must be for the context to stay good. */
  ghost predicate EffectGood(envs: nat -> Env, s: State, call: Call, e: Effect) {
    && WithinFuel(Tight(call.local, s.outer), e.spent)
    && OnTrack(envs(call.view), call.o, call.chain, e.control, Ideal(envs, call))
    && TicketFits(envs(call.view), call, e.control, Changed(s, call, e.change).promises)
    && (e.change.Settle? ==> SettlesTruly(envs, s, e.change))
    && (e.change.Open? ==>
      e.control.Fetching? && e.control.ticket == |s.promises| && (call.view, e.change.id) !in s.memo)
    && (e.change.Forget? ==>
      call.control.Awaiting? && call.control.ticket < |s.promises| && Failed(s.promises[call.control.ticket]))
    && (e.change.Settle? ==> call.control.Fetching?)
    && (e.control.Fetching? ==> e.change.Open?)
    && (call.control.Fetching? ==> e.change.Settle? && e.change.ticket == call.control.ticket)
  }

  ghost predicate SettlesTruly(envs: nat -> Env, s: State, change: Change)
    requires change.Settle?
  {
    && change.ticket < |s.promises| && s.promises[change.ticket].answer.None?
    && Truthful(envs(s.promises[change.ticket].view), s.promises[change.ticket].id, change.answer)
  }

  /** Promises are only ever added and answered. */
  predicate Extends(before: seq<Promise>, after: seq<Promise>) {
    |before| <= |after| && forall t :: 0 <= t < |before| ==> Names(after[t], before[t].view, before[t].id)
  }

  lemma {:induction false} ChangedExtends(s: State, call: Call, change: Change)
    ensures Extends(s.promises, Changed(s, call, change).promises)
  {}

  lemma {:induction false} FitsLonger(env: Env, call: Call, before: seq<Promise>, after: seq<Promise>)
    requires Extends(before, after) && TicketFits(env, call, call.control, before)
    ensures TicketFits(env, call, call.control, after)
  {}

  lemma {:induction false} PromisesStayGood(envs: nat -> Env, s: State, call: Call, e: Effect)
    requires PromisesGood(envs, s.promises) && EffectGood(envs, s, call, e)
    ensures PromisesGood(envs, Changed(s, call, e.change).promises)
  {}

  lemma {:induction false} MemoStaysGood(s: State, call: Call, change: Change)
    requires MemoGood(s)
    ensures MemoGood(Changed(s, call, change))
  {}

  lemma {:induction false} CallStaysGood(envs: nat -> Env, call: Call, s: State, mover: Call, change: Change)
    requires CallGood(envs, call, s.promises)
    ensures CallGood(envs, call, Changed(s, mover, change).promises)
  {
    ChangedExtends(s, mover, change);
    FitsLonger(envs(call.view), call, s.promises, Changed(s, mover, change).promises);
  }

  lemma {:induction false} MoverStaysGood(envs: nat -> Env, s: State, call: Call, e: Effect)
    requires CallGood(envs, call, s.promises) && call.chain != [] && EffectGood(envs, s, call, e)
    ensures CallGood(envs, Charged(call, e.spent, e.control), Changed(s, call, e.change).promises)
  {
    TightHolds(call.local, s.outer, e.spent);
    DropHolds(call.granted, call.local, call.spent, e.spent);
  }

  lemma {:induction false} FetchedStays(envs: nat -> Env, s: State, k: nat, e: Effect)
    requires k < |s.calls| && EffectGood(envs, s, s.calls[k], e) && Fetched(s)
    ensures Fetched(Changed(s, s.calls[k], e.change).(calls := s.calls[k := Charged(s.calls[k], e.spent, e.control)]))
  {
    var changed, calls := Changed(s, s.calls[k], e.change), s.calls[k := Charged(s.calls[k], e.spent, e.control)];
    forall t | 0 <= t < |changed.promises| && changed.promises[t].answer.None? ensures FetchedBy(calls, t) {
      if t == |s.promises| {
        assert calls[k].control.Fetching? && calls[k].control.ticket == t;
      } else {
        assert s.promises[t].answer.None?;
        var j :| 0 <= j < |s.calls| && s.calls[j].control.Fetching? && s.calls[j].control.ticket == t;
        assert j != k;
        assert calls[j] == s.calls[j];
      }
    }
  }

  lemma {:induction false} HeldStays(envs: nat -> Env, s: State, call: Call, e: Effect)
    requires EffectGood(envs, s, call, e) && Held(s) && MemoGood(s)
    ensures Held(Changed(s, call, e.change))
  {
    var changed := Changed(s, call, e.change);
    forall t | 0 <= t < |changed.promises| && !Failed(changed.promises[t]) ensures HeldAt(changed, t) {
      if t < |s.promises| {
        assert !Failed(s.promises[t]);
        assert HeldAt(s, t);
      }
    }
  }

  lemma {:induction false} RetriedStays(envs: nat -> Env, s: State, call: Call, e: Effect)
    requires EffectGood(envs, s, call, e) && Held(s) && Retried(s.promises)
    ensures Retried(Changed(s, call, e.change).promises)
  {
    var after := Changed(s, call, e.change).promises;
    forall t, u | 0 <= t < u < |after| && Names(after[u], after[t].view, after[t].id) ensures Failed(after[t]) {
      assert t < |s.promises|;
      if u < |s.promises| {
        assert Names(s.promises[u], s.promises[t].view, s.promises[t].id);
      }
    }
  }

  lemma {:induction false} LoneStays(envs: nat -> Env, s: State, k: nat, e: Effect)
    requires k < |s.calls| && EffectGood(envs, s, s.calls[k], e) && Lone(s)
    ensures Lone(Moved(s, k, e))
  {
    var after := Moved(s, k, e);
    forall j | 0 <= j < |after.calls| && after.calls[j].control.Fetching? ensures LoneAt(after, j) {
      if j != k {
        assert LoneAt(s, j);
      } else {
        forall i | 0 <= i < |s.calls| && i != k && s.calls[i].control.Fetching?
          ensures s.calls[i].control.ticket < |s.promises| {
          assert LoneAt(s, i);
        }
      }
    }
  }

  lemma {:induction false} CallsStayGood(envs: nat -> Env, granted: Fuel, s: State, k: nat, e: Effect)
    requires Good(envs, granted, s) && k < |s.calls| && s.calls[k].chain != [] && EffectGood(envs, s, s.calls[k], e)
    ensures var after := Moved(s, k, e);
      forall j :: 0 <= j < |after.calls| ==> CallGood(envs, after.calls[j], after.promises)
  {
    var call, after := s.calls[k], Moved(s, k, e);
    forall j | 0 <= j < |after.calls| ensures CallGood(envs, after.calls[j], after.promises) {
      if j == k {
        MoverStaysGood(envs, s, call, e);
      } else {
        CallStaysGood(envs, s.calls[j], s, call, e.change);
      }
    }
  }

  lemma {:induction false} OuterStaysGood(envs: nat -> Env, granted: Fuel, s: State, k: nat, e: Effect)
    requires Holds(granted, s.outer, Spent(s.calls)) && k < |s.calls| && EffectGood(envs, s, s.calls[k], e)
    ensures Holds(granted, Moved(s, k, e).outer, Spent(Moved(s, k, e).calls))
  {
    SpentUpdate(s.calls, k, Charged(s.calls[k], e.spent, e.control));
    TightHolds(s.calls[k].local, s.outer, e.spent);
    DropHolds(granted, s.outer, Spent(s.calls), e.spent);
  }

  lemma {:induction false} StepStaysGood(envs: nat -> Env, granted: Fuel, s: State, k: nat, e: Effect)
    requires Good(envs, granted, s) && k < |s.calls| && s.calls[k].chain != [] && EffectGood(envs, s, s.calls[k], e)
    ensures Good(envs, granted, Moved(s, k, e))
  {
    CallsStayGood(envs, granted, s, k, e);
    PromisesStayGood(envs, s, s.calls[k], e);
    MemoStaysGood(s, s.calls[k], e.change);
    FetchedStays(envs, s, k, e);
    HeldStays(envs, s, s.calls[k], e);
    RetriedStays(envs, s, s.calls[k], e);
    LoneStays(envs, s, k, e);
    OuterStaysGood(envs, granted, s, k, e);
  }

  // -------- Every stretch is a good one --------

  lemma {:induction false} GoodIsPlaced(envs: nat -> Env, granted: Fuel, s: State, k: nat)
    requires Good(envs, granted, s) && k < |s.calls|
    ensures WellPlaced(envs(s.calls[k].view), s.calls[k])
  {
    assert CallGood(envs, s.calls[k], s.promises);
  }

  lemma {:induction false} AskIsGood(envs: nat -> Env, granted: Fuel, s: State, call: Call, i: nat, site: Site)
    requires Good(envs, granted, s) && i < |call.chain| && !call.control.Fetching?
    requires SiteOk(envs(call.view), call.chain, i, site)
    requires OnTrack(envs(call.view), call.o, call.chain, Fetching(i, site, |s.promises|), Ideal(envs, call))
    ensures var id := Subject(envs(call.view), call.chain, i, site);
      EffectGood(envs, s, call, Ask(id, i, site, KnownIn(s, call.view)(id), |s.promises|))
  {
    var id := Subject(envs(call.view), call.chain, i, site);
    if (call.view, id) in s.memo {
      assert Names(s.promises[s.memo[(call.view, id)]], call.view, id);
    }
  }

  predicate AsksOfLink(env: Env, o: Options, chain: seq<Grant>, i: nat) {
    i < |chain| && PreludeReason(env, o, chain[i]).None? && IsParticipant(chain[i].issuerId)
  }

  lemma {:induction false} ReadyMoves(env: Env, o: Options, chain: seq<Grant>, i: nat, fuel: Fuel,
      known: Text -> Option<nat>, unused: nat)
    requires chain != [] && i <= |chain|
    ensures var e := FromReady(env, o, chain, i, fuel, known, unused);
      if AsksOfLink(env, o, chain, i) then e == Ask(chain[i].issuerId, i, OfLink, known(chain[i].issuerId), unused)
      else e.change.Nothing? && !e.control.Fetching? && !e.control.Awaiting?
  {}

  lemma {:induction false} ReadyIsGood(envs: nat -> Env, granted: Fuel, s: State, call: Call, i: nat)
    requires Good(envs, granted, s) && CallGood(envs, call, s.promises) && call.control == Ready(i) && call.chain != []
    ensures var fuel := Tight(call.local, s.outer);
      EffectGood(envs, s, call,
        FromReady(envs(call.view), call.o, call.chain, i, fuel, KnownIn(s, call.view), |s.promises|))
  {
    var env, fuel := envs(call.view), Tight(call.local, s.outer);
    ReadyOnTrack(env, call.o, call.chain, i, fuel, KnownIn(s, call.view), |s.promises|, Ideal(envs, call));
    ReadyMoves(env, call.o, call.chain, i, fuel, KnownIn(s, call.view), |s.promises|);
    if AsksOfLink(env, call.o, call.chain, i) {
      AskIsGood(envs, granted, s, call, i, OfLink);
    }
  }

  lemma {:induction false} SignedIsGood(envs: nat -> Env, granted: Fuel, s: State, call: Call, i: nat)
    requires Good(envs, granted, s) && CallGood(envs, call, s.promises) && call.control == Signed(i) && call.chain != []
    ensures EffectGood(envs, s, call, FromSigned(envs(call.view), call.o, call.chain, i))
  {
    SignedOnTrack(envs(call.view), call.o, call.chain, i, Ideal(envs, call));
  }

  lemma {:induction false} ScanningIsGood(envs: nat -> Env, granted: Fuel, s: State, call: Call, i: nat,
      candidates: seq<Candidate>, allowance: nat)
    requires Good(envs, granted, s) && CallGood(envs, call, s.promises)
    requires call.control == Scanning(i, candidates, allowance) && call.chain != []
    ensures EffectGood(envs, s, call,
      FromScanning(envs(call.view), call.chain, i, candidates, allowance, KnownIn(s, call.view), |s.promises|))
  {
    var env := envs(call.view);
    ScanningOnTrack(env, call.o, call.chain, i, candidates, allowance, KnownIn(s, call.view),
      |s.promises|, Ideal(envs, call));
    if candidates != [] && Relevant(candidates[0], GrantDigest(env.c, call.chain[i]), IdSet(Revokers(call.chain, i))) {
      AskIsGood(envs, granted, s, call, i, OfCandidate(candidates, allowance));
    }
  }

  lemma {:induction false} FetchingIsGood(envs: nat -> Env, granted: Fuel, s: State, call: Call, i: nat,
      site: Site, ticket: nat)
    requires Good(envs, granted, s) && CallGood(envs, call, s.promises)
    requires call.control == Fetching(i, site, ticket) && call.chain != []
    requires ticket < |s.promises| && s.promises[ticket].answer.None?
    ensures SiteOk(envs(call.view), call.chain, i, site)
    ensures var env := envs(call.view);
      EffectGood(envs, s, call,
        Replayed(env, Subject(env, call.chain, i, site), i, site, ticket, Tight(call.local, s.outer)))
  {
  }

  lemma {:induction false} ResumeMoves(env: Env, chain: seq<Grant>, i: nat, site: Site, own: bool,
      answer: SignerAnswer, fuel: Fuel)
    requires i < |chain| && SiteOk(env, chain, i, site)
    ensures var e := Resume(env, chain, i, site, own, answer, fuel);
      && !e.control.Fetching? && !e.control.Awaiting?
      && e.change == ResumeChange(Subject(env, chain, i, site), answer, own)
      && match site
        case OfLink => (e.spent, e.control) == Outcome(ResumeLink(env, chain[i], i, answer, fuel))
        case OfCandidate(candidates, allowance) =>
          (e.spent, e.control) == Outcome(ResumeCandidate(env, candidates, allowance, i, answer, fuel))
  {}

  function Outcome(e: Effect): (nat, Control) {
    (e.spent, e.control)
  }

  lemma {:induction false} ResumeOnTrack(env: Env, o: Options, chain: seq<Grant>, i: nat, site: Site, own: bool,
      answer: SignerAnswer, fuel: Fuel, ideal: Verdict)
    requires i < |chain| && SiteOpen(env, o, chain, i, site)
    requires Conclude(chain, SiteRest(env, o, chain, i, site)) == ideal
    requires Truthful(env, Subject(env, chain, i, site), answer)
    ensures var e := Resume(env, chain, i, site, own, answer, fuel);
      WithinFuel(fuel, e.spent) && OnTrack(env, o, chain, e.control, ideal)
  {
    ResumeMoves(env, chain, i, site, own, answer, fuel);
    match site
    case OfLink => LinkResumesOnTrack(env, o, chain, i, answer, fuel, ideal);
    case OfCandidate(candidates, allowance) =>
      CandidateResumesOnTrack(env, o, chain, i, candidates, allowance, answer, fuel, ideal);
  }

  lemma {:induction false} AwaitingIsGood(envs: nat -> Env, granted: Fuel, s: State, call: Call, i: nat,
      site: Site, ticket: nat, own: bool)
    requires Good(envs, granted, s) && CallGood(envs, call, s.promises)
    requires call.control == Awaiting(i, site, ticket, own) && call.chain != []
    requires ticket < |s.promises| && s.promises[ticket].answer.Some?
    ensures SiteOk(envs(call.view), call.chain, i, site)
    ensures EffectGood(envs, s, call,
      Resume(envs(call.view), call.chain, i, site, own, s.promises[ticket].answer.value, Tight(call.local, s.outer)))
  {
    var env, answer, fuel := envs(call.view), s.promises[ticket].answer.value, Tight(call.local, s.outer);
    ResumeOnTrack(env, call.o, call.chain, i, site, own, answer, fuel, Ideal(envs, call));
    ResumeMoves(env, call.chain, i, site, own, answer, fuel);
  }

  lemma {:induction false} NextIsGood(envs: nat -> Env, granted: Fuel, s: State, k: nat)
    requires Good(envs, granted, s) && CanMove(envs, s, k)
    ensures s.calls[k].chain != [] && EffectGood(envs, s, s.calls[k], NextOf(envs, s, k).value)
  {
    var call := s.calls[k];
    assert CallGood(envs, call, s.promises);
    match call.control
    case Ready(i) => ReadyIsGood(envs, granted, s, call, i);
    case Signed(i) => SignedIsGood(envs, granted, s, call, i);
    case Scanning(i, candidates, allowance) => ScanningIsGood(envs, granted, s, call, i, candidates, allowance);
    case Fetching(i, site, ticket) =>
      assert LoneAt(s, k);
      FetchingIsGood(envs, granted, s, call, i, site, ticket);
    case Awaiting(i, site, ticket, own) => AwaitingIsGood(envs, granted, s, call, i, site, ticket, own);
    case Done(_) => assert false;
  }

  // -------- Over whole runs --------

  lemma {:induction false} SpentAppend(calls: seq<Call>, call: Call)
    ensures Spent(calls + [call]) == Spent(calls) + call.spent
  {
    TotalAppend(calls, (call: Call) => call.spent, call);
  }

  lemma {:induction false} BegunIsGood(envs: nat -> Env, call: Call, promises: seq<Promise>)
    requires call == Begun(call.view, call.o, call.chain, call.granted)
    ensures CallGood(envs, call, promises)
  {}

  lemma {:induction false} BeginStaysFetched(s: State, call: Call)
    requires Fetched(s)
    ensures Fetched(s.(calls := s.calls + [call]))
  {
    forall t | 0 <= t < |s.promises| && s.promises[t].answer.None? ensures FetchedBy(s.calls + [call], t) {
      var k :| 0 <= k < |s.calls| && s.calls[k].control.Fetching? && s.calls[k].control.ticket == t;
      assert (s.calls + [call])[k] == s.calls[k];
    }
  }

  lemma {:induction false} BeginStaysLone(s: State, call: Call)
    requires Lone(s) && !call.control.Fetching?
    ensures Lone(s.(calls := s.calls + [call]))
  {
    var after := s.(calls := s.calls + [call]);
    forall k | 0 <= k < |after.calls| && after.calls[k].control.Fetching? ensures LoneAt(after, k) {
      assert k < |s.calls| && LoneAt(s, k);
    }
  }

  lemma {:induction false} BeginStaysGood(envs: nat -> Env, granted: Fuel, s: State, call: Call)
    requires Good(envs, granted, s) && CallGood(envs, call, s.promises) && call.spent == 0 && !call.control.Fetching?
    ensures Good(envs, granted, s.(calls := s.calls + [call]))
  {
    SpentAppend(s.calls, call);
    BeginStaysFetched(s, call);
    BeginStaysLone(s, call);
  }

  lemma {:induction false} AdvanceStaysGood(envs: nat -> Env, granted: Fuel, s: State, event: Event)
    requires Good(envs, granted, s)
    ensures Good(envs, granted, Advance(envs, s, event))
  {
    match event
    case Begin(view, o, chain, local) =>
      BegunIsGood(envs, Begun(view, o, chain, local), s.promises);
      BeginStaysGood(envs, granted, s, Begun(view, o, chain, local));
    case Move(k) =>
      if CanMove(envs, s, k) {
        NextIsGood(envs, granted, s, k);
        StepStaysGood(envs, granted, s, k, NextOf(envs, s, k).value);
      }
  }

  lemma {:induction false} RunStaysGood(envs: nat -> Env, granted: Fuel, s: State, events: seq<Event>)
    requires Good(envs, granted, s)
    ensures Good(envs, granted, Run(envs, s, events))
    decreases |events|
  {
    if events != [] {
      AdvanceStaysGood(envs, granted, s, events[0]);
      RunStaysGood(envs, granted, Advance(envs, s, events[0]), events[1..]);
    }
  }

  /**
   * However the calls of a context interleave, each verdict is the ideal one or a cost refusal and no meter
   * is overdrawn.
   */
  lemma {:induction false} InterleavedCallsAreSound(envs: nat -> Env, granted: Fuel, events: seq<Event>)
    ensures var s := Run(envs, Opened(granted), events);
      && Holds(granted, s.outer, Spent(s.calls))
      && forall k :: 0 <= k < |s.calls| ==> CallSound(envs, s.calls[k])
  {
    RunStaysGood(envs, granted, Opened(granted), events);
    var s := Run(envs, Opened(granted), events);
    forall k | 0 <= k < |s.calls| ensures CallSound(envs, s.calls[k]) {
      assert CallGood(envs, s.calls[k], s.promises);
    }
  }

  predicate CallSound(envs: nat -> Env, call: Call) {
    && Holds(call.granted, call.local, call.spent)
    && (call.control.Done? ==>
      var verdict := call.control.verdict;
      verdict == Ideal(envs, call) || (verdict.Invalid? && IsCost(verdict.reason)))
  }

  /** A participant of a view is replayed again only after its earlier replay failed. */
  lemma {:induction false} ReplaysAreShared(envs: nat -> Env, granted: Fuel, events: seq<Event>, t: nat, u: nat)
    requires t < u < |Run(envs, Opened(granted), events).promises|
    ensures var promises := Run(envs, Opened(granted), events).promises;
      Names(promises[u], promises[t].view, promises[t].id) ==> Failed(promises[t])
  {
    RunStaysGood(envs, granted, Opened(granted), events);
  }
}
