/**
 * A call that nothing interleaves with (packages/trust/src/resolver.ts:1131-1386): the stretches it
 * takes between its awaits come to exactly the verdict and the spending of the sequential verification.
 */
module LoneCalls {
  import opened Common
  import opened Metering
  import opened Records
  import opened Grants
  import opened Resolver
  import opened Interleavings
  import Refinement
  import KeyLog

  /** A verdict and what it is charged. */
  datatype Bill = Bill(verdict: Verdict, spent: nat)

  function Plus(spent: nat, bill: Bill): Bill {
    Bill(bill.verdict, spent + bill.spent)
  }

  // -------- What the rest of a sequential verification comes to --------

  function RunBill(env: Env, o: Options, chain: seq<Grant>, i: nat, fuel: Fuel, memo: Memo): Bill
    requires chain != [] && i <= |chain|
  {
    var run := RunStep(LinkSteps(env, o, chain), i, |chain|, fuel, memo);
    Bill(Resolver.Conclude(chain, run.answer), run.spent)
  }

  /** Link `i` has come to this: the links above it follow if it passes. */
  function LinkBill(env: Env, o: Options, chain: seq<Grant>, i: nat, link: Step<LinkOutcome>, fuel: Fuel): Bill
    requires i < |chain|
  {
    if link.answer.LinkPasses? then Plus(link.spent, RunBill(env, o, chain, i + 1, Drop(fuel, link.spent), link.memo))
    else Bill(Resolver.Conclude(chain, link.answer), link.spent)
  }

  function LookupBill(env: Env, o: Options, chain: seq<Grant>, i: nat, lookup: Step<Lookup>, fuel: Fuel): Bill
    requires i < |chain|
  {
    var outcome := match lookup.answer
      case RevocationFound => LinkFails(Revoked)
      case NoRevocation => LinkPasses
      case LookupTooExpensive => LinkFails(SignatureCheckTooExpensive)
      case LookupThrew => LinkThrew;
    LinkBill(env, o, chain, i, Step(outcome, lookup.spent, lookup.replays, lookup.memo), fuel)
  }

  function SignedBill(env: Env, o: Options, chain: seq<Grant>, i: nat, fuel: Fuel, memo: Memo): Bill
    requires i < |chain|
  {
    if !ProofMatches(env, chain, i) then Bill(Invalid(ProofMismatch), 0)
    else LinkBill(env, o, chain, i, RevocationStep(env, o, chain, i, fuel, memo), fuel)
  }

  /** The signatures of link `i` have come to this. */
  function SignatureBill(env: Env, o: Options, chain: seq<Grant>, i: nat, signed: Step<LinkOutcome>, fuel: Fuel): Bill
    requires i < |chain|
  {
    if signed.answer.LinkPasses? then
      Plus(signed.spent, SignedBill(env, o, chain, i, Drop(fuel, signed.spent), signed.memo))
    else Bill(Resolver.Conclude(chain, signed.answer), signed.spent)
  }

  function ScanBill(env: Env, o: Options, chain: seq<Grant>, i: nat, candidates: seq<Candidate>, allowance: nat,
      fuel: Fuel, memo: Memo): Bill
    requires i < |chain|
  {
    var digest, requested := GrantDigest(env.c, chain[i]), IdSet(Revokers(chain, i));
    LookupBill(env, o, chain, i, ScanStep(env, digest, requested, candidates, allowance, fuel, memo), fuel)
  }

  /** The signer of a link is known: what its check comes to. */
  function AnsweredLink(env: Env, link: Grant, answer: SignerAnswer, fuel: Fuel, memo: Memo): Step<LinkOutcome> {
    match answer
    case TooExpensive => Step(LinkFails(IssuerKeyLogTooExpensive), 0, 0, memo)
    case SignerThrew => Step(LinkThrew, 0, 0, memo)
    case Mismatched => Step(LinkFails(IssuerKeyLogParticipantMismatch), 0, 0, memo)
    case Unresolved => Step(LinkFails(IssuerKeyLogUnresolved), 0, 0, memo)
    case Signer(states) =>
      if link.anchor.None? then Step(LinkFails(Malformed), 0, 0, memo)
      else
        var w := JudgeLinkSet(env, link, states);
        ChargeStep(Work(LinkSetOutcome(w.verdict), w.cost), fuel, memo)
  }

  /** The signer of a candidate is known: what the scan from it on comes to. */
  function AnsweredCandidate(env: Env, chain: seq<Grant>, i: nat, candidates: seq<Candidate>, allowance: nat,
      answer: SignerAnswer, fuel: Fuel, memo: Memo): Step<Lookup>
    requires i < |chain| && candidates != [] && candidates[0].Parsed?
  {
    var digest, requested := GrantDigest(env.c, chain[i]), IdSet(Revokers(chain, i));
    match answer
    case TooExpensive => Step(LookupTooExpensive, 0, 0, memo)
    case SignerThrew => Step(LookupThrew, 0, 0, memo)
    case Signer(states) => CandidateStep(env, digest, requested, candidates, states, allowance, fuel, memo)
    case _ => ScanStep(env, digest, requested, candidates[1..], allowance, fuel, memo)
  }

  function AnsweredBill(env: Env, o: Options, chain: seq<Grant>, i: nat, site: Site, answer: SignerAnswer, fuel: Fuel,
      memo: Memo): Bill
    requires i < |chain| && SiteOk(env, chain, i, site)
  {
    match site
    case OfLink => SignatureBill(env, o, chain, i, AnsweredLink(env, chain[i], answer, fuel, memo), fuel)
    case OfCandidate(candidates, allowance) =>
      LookupBill(env, o, chain, i, AnsweredCandidate(env, chain, i, candidates, allowance, answer, fuel, memo), fuel)
  }

  /** What the call still comes to, if nobody else moves. */
  function Rest(env: Env, o: Options, chain: seq<Grant>, control: Control, answers: nat -> Option<SignerAnswer>,
      fuel: Fuel, memo: Memo): Option<Bill>
  {
    match control
    case Done(verdict) => Some(Bill(verdict, 0))
    case Ready(i) => if chain != [] && i <= |chain| then Some(RunBill(env, o, chain, i, fuel, memo)) else None
    case Signed(i) => if i < |chain| then Some(SignedBill(env, o, chain, i, fuel, memo)) else None
    case Scanning(i, candidates, allowance) =>
      if i < |chain| then Some(ScanBill(env, o, chain, i, candidates, allowance, fuel, memo)) else None
    case Fetching(i, OfLink, _) => if i < |chain| then Some(RunBill(env, o, chain, i, fuel, memo)) else None
    case Fetching(i, OfCandidate(candidates, allowance), _) =>
      if i < |chain| then Some(ScanBill(env, o, chain, i, candidates, allowance, fuel, memo)) else None
    case Awaiting(i, site, ticket, _) =>
      if i < |chain| && SiteOk(env, chain, i, site) && answers(ticket).Some? then
        Some(AnsweredBill(env, o, chain, i, site, answers(ticket).value, fuel, memo))
      else None
  }

  // -------- The steps of the sequential verification --------

  lemma {:induction false} DropTwice(fuel: Fuel, a: nat, b: nat)
    ensures Drop(Drop(fuel, a), b) == Drop(fuel, a + b)
  {}

  lemma {:induction false} RunUnfolds(env: Env, o: Options, chain: seq<Grant>, i: nat, fuel: Fuel, memo: Memo)
    requires i < |chain|
    ensures RunBill(env, o, chain, i, fuel, memo) ==
      LinkBill(env, o, chain, i, LinkStep(env, o, chain, i, fuel, memo), fuel)
  {
    var links := LinkSteps(env, o, chain);
    assert links(i, fuel, memo) == LinkStep(env, o, chain, i, fuel, memo);
  }

  lemma {:induction false} RevocationAfter(env: Env, o: Options, chain: seq<Grant>, i: nat, signed: Step<LinkOutcome>,
      revocation: Step<LinkOutcome>, fuel: Fuel)
    requires i < |chain|
    ensures LinkBill(env, o, chain, i, Resolver.After(signed, revocation), fuel) ==
      Plus(signed.spent, LinkBill(env, o, chain, i, revocation, Drop(fuel, signed.spent)))
  {
    DropTwice(fuel, signed.spent, revocation.spent);
    LinkAddsUp(env, o, chain, i, Resolver.After(signed, revocation), signed.spent, revocation, fuel);
  }

  lemma {:induction false} LinkAddsUp(env: Env, o: Options, chain: seq<Grant>, i: nat, whole: Step<LinkOutcome>,
      paid: nat, rest: Step<LinkOutcome>, fuel: Fuel)
    requires i < |chain| && whole.answer == rest.answer && whole.spent == paid + rest.spent && whole.memo == rest.memo
    requires Drop(Drop(fuel, paid), rest.spent) == Drop(fuel, whole.spent)
    ensures LinkBill(env, o, chain, i, whole, fuel) == Plus(paid, LinkBill(env, o, chain, i, rest, Drop(fuel, paid)))
  {}

  lemma {:induction false} LinkStepParts(env: Env, o: Options, chain: seq<Grant>, i: nat, fuel: Fuel, memo: Memo)
    requires i < |chain| && PreludeReason(env, o, chain[i]).None?
    ensures var signed := SignatureStep(env, chain[i], fuel, memo);
      LinkStep(env, o, chain, i, fuel, memo) ==
        if !signed.answer.LinkPasses? then signed
        else if !ProofMatches(env, chain, i) then
          Step(LinkFails(ProofMismatch), signed.spent, signed.replays, signed.memo)
        else
          Resolver.After(signed, RevocationStep(env, o, chain, i, Drop(fuel, signed.spent), signed.memo))
  {}

  lemma {:induction false} LinkUnfolds(env: Env, o: Options, chain: seq<Grant>, i: nat, fuel: Fuel, memo: Memo)
    requires i < |chain| && PreludeReason(env, o, chain[i]).None?
    ensures RunBill(env, o, chain, i, fuel, memo) ==
      SignatureBill(env, o, chain, i, SignatureStep(env, chain[i], fuel, memo), fuel)
  {
    RunUnfolds(env, o, chain, i, fuel, memo);
    LinkStepParts(env, o, chain, i, fuel, memo);
    var signed := SignatureStep(env, chain[i], fuel, memo);
    SignatureThenLink(env, o, chain, i, signed, LinkStep(env, o, chain, i, fuel, memo), fuel);
  }

  lemma {:induction false} SignatureThenLink(env: Env, o: Options, chain: seq<Grant>, i: nat, signed: Step<LinkOutcome>,
      link: Step<LinkOutcome>, fuel: Fuel)
    requires i < |chain|
    requires link ==
      if !signed.answer.LinkPasses? then signed
      else if !ProofMatches(env, chain, i) then
        Step(LinkFails(ProofMismatch), signed.spent, signed.replays, signed.memo)
      else
        Resolver.After(signed, RevocationStep(env, o, chain, i, Drop(fuel, signed.spent), signed.memo))
    ensures LinkBill(env, o, chain, i, link, fuel) == SignatureBill(env, o, chain, i, signed, fuel)
  {
    if signed.answer.LinkPasses? && ProofMatches(env, chain, i) {
      RevocationAfter(env, o, chain, i, signed,
        RevocationStep(env, o, chain, i, Drop(fuel, signed.spent), signed.memo), fuel);
    }
  }

  lemma {:induction false} SignerThenLink(env: Env, link: Grant, fuel: Fuel, memo: Memo)
    requires IsParticipant(link.issuerId)
    ensures var signer := SignerStep(env, link.issuerId, fuel, memo);
      SignatureStep(env, link, fuel, memo) ==
        Resolver.After(signer, AnsweredLink(env, link, signer.answer, Drop(fuel, signer.spent), signer.memo))
  {}

  lemma {:induction false} SignerThenCandidate(env: Env, chain: seq<Grant>, i: nat, candidates: seq<Candidate>,
      allowance: nat, fuel: Fuel, memo: Memo)
    requires i < |chain| && SiteOk(env, chain, i, OfCandidate(candidates, allowance))
    ensures var signer := SignerStep(env, candidates[0].revocation.issuerId, fuel, memo);
      ScanStep(env, GrantDigest(env.c, chain[i]), IdSet(Revokers(chain, i)), candidates, allowance, fuel, memo) ==
        Resolver.After(signer, AnsweredCandidate(env, chain, i, candidates, allowance, signer.answer,
          Drop(fuel, signer.spent), signer.memo))
  {}

  lemma {:induction false} LinkAfter<S>(env: Env, o: Options, chain: seq<Grant>, i: nat, first: Step<S>,
      second: Step<LinkOutcome>, fuel: Fuel)
    requires i < |chain|
    ensures SignatureBill(env, o, chain, i, Resolver.After(first, second), fuel) ==
      Plus(first.spent, SignatureBill(env, o, chain, i, second, Drop(fuel, first.spent)))
  {
    DropTwice(fuel, first.spent, second.spent);
    SignatureAddsUp(env, o, chain, i, Resolver.After(first, second), first.spent, second, fuel);
  }

  lemma {:induction false} SignatureAddsUp(env: Env, o: Options, chain: seq<Grant>, i: nat, whole: Step<LinkOutcome>,
      paid: nat, rest: Step<LinkOutcome>, fuel: Fuel)
    requires i < |chain| && whole.answer == rest.answer && whole.spent == paid + rest.spent && whole.memo == rest.memo
    requires Drop(Drop(fuel, paid), rest.spent) == Drop(fuel, whole.spent)
    ensures SignatureBill(env, o, chain, i, whole, fuel) ==
      Plus(paid, SignatureBill(env, o, chain, i, rest, Drop(fuel, paid)))
  {}

  lemma {:induction false} LookupAfter<S>(env: Env, o: Options, chain: seq<Grant>, i: nat, first: Step<S>,
      second: Step<Lookup>, fuel: Fuel)
    requires i < |chain|
    ensures LookupBill(env, o, chain, i, Resolver.After(first, second), fuel) ==
      Plus(first.spent, LookupBill(env, o, chain, i, second, Drop(fuel, first.spent)))
  {
    DropTwice(fuel, first.spent, second.spent);
    LookupAddsUp(env, o, chain, i, Resolver.After(first, second), first.spent, second, fuel);
  }

  lemma {:induction false} LookupAddsUp(env: Env, o: Options, chain: seq<Grant>, i: nat, whole: Step<Lookup>,
      paid: nat, rest: Step<Lookup>, fuel: Fuel)
    requires i < |chain| && whole.answer == rest.answer && whole.spent == paid + rest.spent && whole.memo == rest.memo
    requires Drop(Drop(fuel, paid), rest.spent) == Drop(fuel, whole.spent)
    ensures LookupBill(env, o, chain, i, whole, fuel) ==
      Plus(paid, LookupBill(env, o, chain, i, rest, Drop(fuel, paid)))
  {}

  /** What is asked of a signer and what follows from the answer, wherever it is asked. */
  lemma {:induction false} SiteUnfolds(env: Env, o: Options, chain: seq<Grant>, i: nat, site: Site, fuel: Fuel,
      memo: Memo)
    requires i < |chain| && SiteOpen(env, o, chain, i, site)
    ensures var signer := SignerStep(env, Subject(env, chain, i, site), fuel, memo);
      SiteBill(env, o, chain, i, site, fuel, memo) ==
        Plus(signer.spent, AnsweredBill(env, o, chain, i, site, signer.answer, Drop(fuel, signer.spent), signer.memo))
  {
    var signer := SignerStep(env, Subject(env, chain, i, site), fuel, memo);
    var left := Drop(fuel, signer.spent);
    match site
    case OfLink =>
      LinkUnfolds(env, o, chain, i, fuel, memo);
      SignerThenLink(env, chain[i], fuel, memo);
      LinkAfter(env, o, chain, i, signer, AnsweredLink(env, chain[i], signer.answer, left, signer.memo), fuel);
    case OfCandidate(candidates, allowance) =>
      SignerThenCandidate(env, chain, i, candidates, allowance, fuel, memo);
      LookupAfter(env, o, chain, i, signer,
        AnsweredCandidate(env, chain, i, candidates, allowance, signer.answer, left, signer.memo), fuel);
  }

  function SiteBill(env: Env, o: Options, chain: seq<Grant>, i: nat, site: Site, fuel: Fuel, memo: Memo): Bill
    requires i < |chain|
  {
    match site
    case OfLink => RunBill(env, o, chain, i, fuel, memo)
    case OfCandidate(candidates, allowance) => ScanBill(env, o, chain, i, candidates, allowance, fuel, memo)
  }

  // -------- Each stretch pays its part --------

  /** The memo, as the pending replays answer for it. */
  ghost predicate Mirrors(known: Text -> Option<nat>, answers: nat -> Option<SignerAnswer>, memo: Memo) {
    forall id ::
      (id in memo <==> known(id).Some?) && (id in memo ==> answers(known(id).value) == Some(Signer(memo[id])))
  }

  /** After a stretch: what it charged and what is left come to the whole. */
  ghost predicate Continues(env: Env, o: Options, chain: seq<Grant>, e: Effect, answers: nat -> Option<SignerAnswer>,
      fuel: Fuel, memo: Memo, whole: Bill) {
    var rest := Rest(env, o, chain, e.control, answers, Drop(fuel, e.spent), memo);
    rest.Some? && Plus(e.spent, rest.value) == whole
  }

  lemma {:induction false} CheckedContinues(env: Env, o: Options, chain: seq<Grant>, i: nat, w: Work<LinkOutcome>,
      answers: nat -> Option<SignerAnswer>, fuel: Fuel, memo: Memo)
    requires i < |chain|
    ensures Continues(env, o, chain, Checked(w, i, fuel), answers, fuel, memo,
      SignatureBill(env, o, chain, i, ChargeStep(w, fuel, memo), fuel))
  {}

  /** A remembered signer costs nothing. */
  lemma {:induction false} RememberedSite(env: Env, o: Options, chain: seq<Grant>, i: nat, site: Site, fuel: Fuel,
      memo: Memo)
    requires i < |chain| && SiteOpen(env, o, chain, i, site) && Subject(env, chain, i, site) in memo
    ensures SiteBill(env, o, chain, i, site, fuel, memo) ==
      AnsweredBill(env, o, chain, i, site, Signer(memo[Subject(env, chain, i, site)]), fuel, memo)
  {
    SiteUnfolds(env, o, chain, i, site, fuel, memo);
    assert Drop(fuel, 0) == fuel;
  }

  /** A question about a signer: remembered, or put to the view, it comes to the same. */
  lemma {:induction false} AskContinues(env: Env, o: Options, chain: seq<Grant>, i: nat, site: Site,
      known: Text -> Option<nat>, answers: nat -> Option<SignerAnswer>, unused: nat, fuel: Fuel, memo: Memo)
    requires i < |chain| && SiteOpen(env, o, chain, i, site) && Mirrors(known, answers, memo)
    ensures var id := Subject(env, chain, i, site);
      Continues(env, o, chain, Ask(id, i, site, known(id), unused), answers, fuel, memo,
        SiteBill(env, o, chain, i, site, fuel, memo))
  {
    var id := Subject(env, chain, i, site);
    assert Drop(fuel, 0) == fuel;
    if known(id).Some? {
      RememberedSite(env, o, chain, i, site, fuel, memo);
      AwaitingRest(env, o, chain, i, site, known(id).value, answers, fuel, memo);
    } else {
      FetchingRest(env, o, chain, i, site, unused, answers, fuel, memo);
    }
  }

  lemma {:induction false} AwaitingRest(env: Env, o: Options, chain: seq<Grant>, i: nat, site: Site, ticket: nat,
      answers: nat -> Option<SignerAnswer>, fuel: Fuel, memo: Memo)
    requires i < |chain| && SiteOk(env, chain, i, site) && answers(ticket).Some?
    ensures Rest(env, o, chain, Awaiting(i, site, ticket, false), answers, fuel, memo) ==
      Some(AnsweredBill(env, o, chain, i, site, answers(ticket).value, fuel, memo))
  {}

  lemma {:induction false} FetchingRest(env: Env, o: Options, chain: seq<Grant>, i: nat, site: Site, ticket: nat,
      answers: nat -> Option<SignerAnswer>, fuel: Fuel, memo: Memo)
    requires i < |chain|
    ensures Rest(env, o, chain, Fetching(i, site, ticket), answers, fuel, memo) ==
      Some(SiteBill(env, o, chain, i, site, fuel, memo))
  {}

  lemma {:induction false} ReadyContinues(env: Env, o: Options, chain: seq<Grant>, i: nat,
      known: Text -> Option<nat>, answers: nat -> Option<SignerAnswer>, unused: nat, fuel: Fuel, memo: Memo)
    requires chain != [] && i <= |chain| && Mirrors(known, answers, memo)
    ensures Continues(env, o, chain, FromReady(env, o, chain, i, fuel, known, unused), answers, fuel, memo,
      RunBill(env, o, chain, i, fuel, memo))
  {
    if i < |chain| {
      if PreludeReason(env, o, chain[i]).Some? {
        RunUnfolds(env, o, chain, i, fuel, memo);
      } else if IsParticipant(chain[i].issuerId) {
        AskContinues(env, o, chain, i, OfLink, known, answers, unused, fuel, memo);
      } else {
        var w := JudgeKeyIssuer(env, chain[i]);
        LinkUnfolds(env, o, chain, i, fuel, memo);
        CheckedContinues(env, o, chain, i, Work(KeyIssuerOutcome(w.verdict), w.cost), answers, fuel, memo);
      }
    }
  }

  /** A lookup that is answered within bounds is the scan of its candidates. */
  lemma {:induction false} RevocationIsScan(env: Env, o: Options, chain: seq<Grant>, i: nat, fuel: Fuel, memo: Memo)
    requires i < |chain| && ChecksRevocation(o)
    ensures var step := RevocationStep(env, o, chain, i, fuel, memo);
      match env.view.revocations(GrantDigest(env.c, chain[i]), Revokers(chain, i))
      case RevocationsUnreachable => step == Step(LinkThrew, 0, 0, memo)
      case Candidates(candidates) =>
        if |candidates| > |IdSet(Revokers(chain, i))| then step == Step(LinkThrew, 0, 0, memo)
        else
          LinkBill(env, o, chain, i, step, fuel) ==
            ScanBill(env, o, chain, i, candidates, CANDIDATE_ALLOWANCE, fuel, memo)
  {}

  lemma {:induction false} SignedContinues(env: Env, o: Options, chain: seq<Grant>, i: nat,
      answers: nat -> Option<SignerAnswer>, fuel: Fuel, memo: Memo)
    requires i < |chain|
    ensures Continues(env, o, chain, FromSigned(env, o, chain, i), answers, fuel, memo,
      SignedBill(env, o, chain, i, fuel, memo))
  {
    assert Drop(fuel, 0) == fuel;
    if ProofMatches(env, chain, i) && ChecksRevocation(o) {
      RevocationIsScan(env, o, chain, i, fuel, memo);
    }
  }

  lemma {:induction false} ScanningContinues(env: Env, o: Options, chain: seq<Grant>, i: nat,
      candidates: seq<Candidate>,
      allowance: nat, known: Text -> Option<nat>, answers: nat -> Option<SignerAnswer>, unused: nat, fuel: Fuel,
      memo: Memo)
    requires i < |chain| && Mirrors(known, answers, memo)
    ensures Continues(env, o, chain, FromScanning(env, chain, i, candidates, allowance, known, unused), answers, fuel,
      memo, ScanBill(env, o, chain, i, candidates, allowance, fuel, memo))
  {
    if candidates != [] && Relevant(candidates[0], GrantDigest(env.c, chain[i]), IdSet(Revokers(chain, i))) {
      AskContinues(env, o, chain, i, OfCandidate(candidates, allowance), known, answers, unused, fuel, memo);
    } else {
      PassingContinues(env, o, chain, i, candidates, allowance, answers, fuel, memo);
    }
  }

  /** The scan is over, or passes over a candidate that says nothing of this link. */
  lemma {:induction false} PassingContinues(env: Env, o: Options, chain: seq<Grant>, i: nat,
      candidates: seq<Candidate>, allowance: nat, answers: nat -> Option<SignerAnswer>, fuel: Fuel, memo: Memo)
    requires i < |chain|
    requires candidates == []
      || !Relevant(candidates[0], GrantDigest(env.c, chain[i]), IdSet(Revokers(chain, i)))
    ensures var control := if candidates == [] then Ready(i + 1) else Scanning(i, candidates[1..], allowance);
      Continues(env, o, chain, Effect(0, control, Nothing), answers, fuel, memo,
        ScanBill(env, o, chain, i, candidates, allowance, fuel, memo))
  {
    assert Drop(fuel, 0) == fuel;
    if candidates != [] {
      ScanningRest(env, o, chain, i, candidates[1..], allowance, 0, answers, fuel, memo,
        ScanBill(env, o, chain, i, candidates, allowance, fuel, memo));
    }
  }

  /** The memo once a replay is settled: it keeps what succeeded. */
  function Learned(memo: Memo, id: Text, answer: SignerAnswer): Memo {
    if answer.Signer? then memo[id := answer.states] else memo
  }

  lemma {:induction false} FetchingContinues(env: Env, o: Options, chain: seq<Grant>, i: nat, site: Site, ticket: nat,
      answers: nat -> Option<SignerAnswer>, fuel: Fuel, memo: Memo)
    requires i < |chain| && SiteOpen(env, o, chain, i, site) && Subject(env, chain, i, site) !in memo
    requires var e := Replayed(env, Subject(env, chain, i, site), i, site, ticket, fuel);
      answers(ticket) == Some(e.change.answer)
    ensures var e := Replayed(env, Subject(env, chain, i, site), i, site, ticket, fuel);
      Continues(env, o, chain, e, answers, fuel, Learned(memo, Subject(env, chain, i, site), e.change.answer),
        SiteBill(env, o, chain, i, site, fuel, memo))
  {
    SiteUnfolds(env, o, chain, i, site, fuel, memo);
  }

  /** A charge that decides nothing, and the lookup that goes on after it. */
  lemma {:induction false} ChargedLookup(env: Env, o: Options, chain: seq<Grant>, i: nat, cost: nat,
      whole: Step<Lookup>, rest: Step<Lookup>, fuel: Fuel, memo: Memo)
    requires i < |chain| && whole == Resolver.After(Step(NoRevocation, cost, 0, memo), rest)
    ensures LookupBill(env, o, chain, i, whole, fuel) ==
      Plus(cost, LookupBill(env, o, chain, i, rest, Drop(fuel, cost)))
  {
    var charged: Step<Lookup> := Step(NoRevocation, cost, 0, memo);
    LookupAfter(env, o, chain, i, charged, rest, fuel);
  }

  /** The scan is where the call goes on, with this much paid. */
  lemma {:induction false} ScanningRest(env: Env, o: Options, chain: seq<Grant>, i: nat, candidates: seq<Candidate>,
      allowance: nat, cost: nat, answers: nat -> Option<SignerAnswer>, fuel: Fuel, memo: Memo, whole: Bill)
    requires i < |chain|
    requires whole == Plus(cost, ScanBill(env, o, chain, i, candidates, allowance, Drop(fuel, cost), memo))
    ensures Continues(env, o, chain, Effect(cost, Scanning(i, candidates, allowance), Nothing), answers, fuel, memo,
      whole)
  {}

  lemma {:induction false} PassedRest(env: Env, o: Options, chain: seq<Grant>, i: nat, candidates: seq<Candidate>,
      allowance: nat, cost: nat, answers: nat -> Option<SignerAnswer>, fuel: Fuel, memo: Memo, whole: Step<Lookup>)
    requires i < |chain|
    requires whole == Resolver.After(Step(NoRevocation, cost, 0, memo),
      ScanStep(env, GrantDigest(env.c, chain[i]), IdSet(Revokers(chain, i)), candidates, allowance,
        Drop(fuel, cost), memo))
    ensures Continues(env, o, chain, Effect(cost, Scanning(i, candidates, allowance), Nothing), answers, fuel, memo,
      LookupBill(env, o, chain, i, whole, fuel))
  {
    ChargedLookup(env, o, chain, i, cost, whole,
      ScanStep(env, GrantDigest(env.c, chain[i]), IdSet(Revokers(chain, i)), candidates, allowance,
        Drop(fuel, cost), memo), fuel, memo);
    ScanningRest(env, o, chain, i, candidates, allowance, cost, answers, fuel, memo,
      LookupBill(env, o, chain, i, whole, fuel));
  }

  lemma {:induction false} StoppedRest(env: Env, o: Options, chain: seq<Grant>, i: nat, reason: Reason, cost: nat,
      lookup: Step<Lookup>, answers: nat -> Option<SignerAnswer>, fuel: Fuel, memo: Memo)
    requires i < |chain| && lookup.spent == cost
    requires (lookup.answer, reason) in {(RevocationFound, Revoked), (LookupTooExpensive, SignatureCheckTooExpensive)}
    ensures Continues(env, o, chain, Effect(cost, Fail(reason), Nothing), answers, fuel, memo,
      LookupBill(env, o, chain, i, lookup, fuel))
  {}

  /** What a candidate's check comes to in the stretch that makes it. */
  lemma {:induction false} CandidateMoves(env: Env, i: nat, candidates: seq<Candidate>, allowance: nat,
      states: seq<KeyLog.AnchoredKeyState>, fuel: Fuel)
    requires candidates != [] && candidates[0].Parsed?
    ensures var w := JudgeCandidate(env, candidates[0].revocation, states);
      ResumeCandidate(env, candidates, allowance, i, Signer(states), fuel) ==
        if w.cost > Tighter(fuel, allowance) then
          Effect(Tighter(fuel, allowance), Fail(SignatureCheckTooExpensive), Nothing)
        else if w.verdict == Decided(Accepted) then Effect(w.cost, Fail(Revoked), Nothing)
        else Effect(w.cost, Scanning(i, candidates[1..], allowance - w.cost), Nothing)
  {}

  /** What the same check comes to in the sequential scan. */
  ghost predicate CandidateDecides(env: Env, digest: Text, requested: set<Text>, candidates: seq<Candidate>,
      allowance: nat, w: Work<AnchoredVerdict>, fuel: Fuel, memo: Memo, step: Step<Lookup>)
    requires candidates != []
  {
    if w.cost > Tighter(fuel, allowance) then
      step.answer == LookupTooExpensive && step.spent == Tighter(fuel, allowance)
    else if w.verdict == Decided(Accepted) then step.answer == RevocationFound && step.spent == w.cost
    else
      step == Resolver.After(Step(NoRevocation, w.cost, 0, memo),
        ScanStep(env, digest, requested, candidates[1..], allowance - w.cost, Drop(fuel, w.cost), memo))
  }

  lemma {:induction false} CandidateIsDecided(env: Env, digest: Text, requested: set<Text>,
      candidates: seq<Candidate>, allowance: nat, states: seq<KeyLog.AnchoredKeyState>, fuel: Fuel, memo: Memo)
    requires candidates != [] && candidates[0].Parsed?
    ensures CandidateDecides(env, digest, requested, candidates, allowance,
      JudgeCandidate(env, candidates[0].revocation, states), fuel, memo,
      CandidateStep(env, digest, requested, candidates, states, allowance, fuel, memo))
  {
    var w := JudgeCandidate(env, candidates[0].revocation, states);
    if w.cost <= Tighter(fuel, allowance) && w.verdict != Decided(Accepted) {
      Refinement.PassedCandidateSteps(env, digest, requested, candidates, states, allowance, fuel, memo);
    }
  }

  lemma {:induction false} SignedCandidateContinues(env: Env, o: Options, chain: seq<Grant>, i: nat,
      candidates: seq<Candidate>, allowance: nat, states: seq<KeyLog.AnchoredKeyState>,
      answers: nat -> Option<SignerAnswer>, fuel: Fuel, memo: Memo, whole: Step<Lookup>)
    requires i < |chain| && candidates != [] && candidates[0].Parsed?
    requires CandidateDecides(env, GrantDigest(env.c, chain[i]), IdSet(Revokers(chain, i)), candidates, allowance,
      JudgeCandidate(env, candidates[0].revocation, states), fuel, memo, whole)
    ensures Continues(env, o, chain, ResumeCandidate(env, candidates, allowance, i, Signer(states), fuel), answers,
      fuel, memo, LookupBill(env, o, chain, i, whole, fuel))
  {
    CandidateMoves(env, i, candidates, allowance, states, fuel);
    CandidateCases(env, o, chain, i, candidates, allowance, JudgeCandidate(env, candidates[0].revocation, states),
      answers, fuel, memo, ResumeCandidate(env, candidates, allowance, i, Signer(states), fuel), whole);
  }

  lemma {:induction false} CandidateCases(env: Env, o: Options, chain: seq<Grant>, i: nat,
      candidates: seq<Candidate>, allowance: nat, w: Work<AnchoredVerdict>, answers: nat -> Option<SignerAnswer>,
      fuel: Fuel, memo: Memo, e: Effect, whole: Step<Lookup>)
    requires i < |chain| && candidates != []
    requires CandidateDecides(env, GrantDigest(env.c, chain[i]), IdSet(Revokers(chain, i)), candidates, allowance, w,
      fuel, memo, whole)
    requires e ==
      if w.cost > Tighter(fuel, allowance) then
        Effect(Tighter(fuel, allowance), Fail(SignatureCheckTooExpensive), Nothing)
      else if w.verdict == Decided(Accepted) then Effect(w.cost, Fail(Revoked), Nothing)
      else Effect(w.cost, Scanning(i, candidates[1..], allowance - w.cost), Nothing)
    ensures Continues(env, o, chain, e, answers, fuel, memo, LookupBill(env, o, chain, i, whole, fuel))
  {
    if w.cost > Tighter(fuel, allowance) {
      StoppedRest(env, o, chain, i, SignatureCheckTooExpensive, Tighter(fuel, allowance), whole, answers, fuel, memo);
    } else if w.verdict == Decided(Accepted) {
      StoppedRest(env, o, chain, i, Revoked, w.cost, whole, answers, fuel, memo);
    } else {
      PassedRest(env, o, chain, i, candidates[1..], allowance - w.cost, w.cost, answers, fuel, memo, whole);
    }
  }

  /** A signer whose log is too dear, or whose fetch threw, ends the lookup. */
  lemma {:induction false} EndedCandidateContinues(env: Env, o: Options, chain: seq<Grant>, i: nat,
      candidates: seq<Candidate>, allowance: nat, answer: SignerAnswer, answers: nat -> Option<SignerAnswer>,
      fuel: Fuel, memo: Memo)
    requires i < |chain| && SiteOk(env, chain, i, OfCandidate(candidates, allowance))
      && (answer.TooExpensive? || answer.SignerThrew?)
    ensures Continues(env, o, chain, ResumeCandidate(env, candidates, allowance, i, answer, fuel), answers, fuel, memo,
      LookupBill(env, o, chain, i, AnsweredCandidate(env, chain, i, candidates, allowance, answer, fuel, memo), fuel))
  {
    if answer.TooExpensive? {
      StoppedRest(env, o, chain, i, SignatureCheckTooExpensive, 0, Step(LookupTooExpensive, 0, 0, memo), answers, fuel,
        memo);
    } else {
      ThrewRest(env, o, chain, i, answers, fuel, memo);
    }
  }

  lemma {:induction false} ThrewRest(env: Env, o: Options, chain: seq<Grant>, i: nat,
      answers: nat -> Option<SignerAnswer>, fuel: Fuel, memo: Memo)
    requires i < |chain|
    ensures Continues(env, o, chain, Effect(0, Done(Threw), Nothing), answers, fuel, memo,
      LookupBill(env, o, chain, i, Step(LookupThrew, 0, 0, memo), fuel))
  {}

  /** A candidate whose signer has no states here is passed over. */
  lemma {:induction false} IgnoredCandidateContinues(env: Env, o: Options, chain: seq<Grant>, i: nat,
      candidates: seq<Candidate>, allowance: nat, answer: SignerAnswer, answers: nat -> Option<SignerAnswer>,
      fuel: Fuel, memo: Memo)
    requires i < |chain| && SiteOk(env, chain, i, OfCandidate(candidates, allowance))
      && (answer.Mismatched? || answer.Unresolved?)
    ensures Continues(env, o, chain, ResumeCandidate(env, candidates, allowance, i, answer, fuel), answers, fuel, memo,
      LookupBill(env, o, chain, i, AnsweredCandidate(env, chain, i, candidates, allowance, answer, fuel, memo), fuel))
  {
    assert Drop(fuel, 0) == fuel;
    ScanningRest(env, o, chain, i, candidates[1..], allowance, 0, answers, fuel, memo,
      ScanBill(env, o, chain, i, candidates[1..], allowance, fuel, memo));
  }

  lemma {:induction false} ResumedCandidateContinues(env: Env, o: Options, chain: seq<Grant>, i: nat,
      candidates: seq<Candidate>, allowance: nat, answer: SignerAnswer, answers: nat -> Option<SignerAnswer>,
      fuel: Fuel, memo: Memo)
    requires i < |chain| && SiteOk(env, chain, i, OfCandidate(candidates, allowance))
    ensures Continues(env, o, chain, ResumeCandidate(env, candidates, allowance, i, answer, fuel), answers, fuel, memo,
      LookupBill(env, o, chain, i, AnsweredCandidate(env, chain, i, candidates, allowance, answer, fuel, memo), fuel))
  {
    if answer.Signer? {
      CandidateIsDecided(env, GrantDigest(env.c, chain[i]), IdSet(Revokers(chain, i)), candidates, allowance,
        answer.states, fuel, memo);
      SignedCandidateContinues(env, o, chain, i, candidates, allowance, answer.states, answers, fuel, memo,
        AnsweredCandidate(env, chain, i, candidates, allowance, answer, fuel, memo));
    } else if answer.TooExpensive? || answer.SignerThrew? {
      EndedCandidateContinues(env, o, chain, i, candidates, allowance, answer, answers, fuel, memo);
    } else {
      IgnoredCandidateContinues(env, o, chain, i, candidates, allowance, answer, answers, fuel, memo);
    }
  }

  lemma {:induction false} AwaitingContinues(env: Env, o: Options, chain: seq<Grant>, i: nat, site: Site, own: bool,
      answer: SignerAnswer, answers: nat -> Option<SignerAnswer>, fuel: Fuel, memo: Memo)
    requires i < |chain| && SiteOk(env, chain, i, site)
    ensures Continues(env, o, chain, Resume(env, chain, i, site, own, answer, fuel), answers, fuel, memo,
      AnsweredBill(env, o, chain, i, site, answer, fuel, memo))
  {
    match site
    case OfLink =>
      if answer.Signer? && chain[i].anchor.Some? {
        var w := JudgeLinkSet(env, chain[i], answer.states);
        CheckedContinues(env, o, chain, i, Work(LinkSetOutcome(w.verdict), w.cost), answers, fuel, memo);
      }
    case OfCandidate(candidates, allowance) =>
      ResumedCandidateContinues(env, o, chain, i, candidates, allowance, answer, answers, fuel, memo);
  }

  // -------- A call that moves alone --------

  /** The view's memo entries are settled successes, as `memo` has them; all but the one under `gap`. */
  ghost predicate Settled(s: State, view: nat, memo: Memo, gap: Option<Text>) {
    forall id :: Some(id) != gap ==> SettledAt(s, view, memo, id)
  }

  predicate SettledAt(s: State, view: nat, memo: Memo, id: Text) {
    && (id in memo <==> (view, id) in s.memo)
    && (id in memo ==> AnswersIn(s)(s.memo[(view, id)]) == Some(Signer(memo[id])))
  }

  /** The entry under `id` is the call's own replay and `memo` has none. */
  predicate Gap(s: State, view: nat, memo: Memo, id: Text, ticket: nat) {
    id !in memo && (view, id) in s.memo && s.memo[(view, id)] == ticket && ticket < |s.promises|
  }

  /** The call waits at most for a replay of its own, and nobody else's replay is in the memo unsettled. */
  ghost predicate Alone(env: Env, s: State, call: Call, memo: Memo) {
    && WellPlaced(env, call)
    && match call.control
      case Fetching(i, site, ticket) =>
        && SiteOpen(env, call.o, call.chain, i, site) && AnswersIn(s)(ticket).None?
        && Gap(s, call.view, memo, Subject(env, call.chain, i, site), ticket)
        && Settled(s, call.view, memo, Some(Subject(env, call.chain, i, site)))
      case Awaiting(i, site, ticket, own) =>
        && AnswersIn(s)(ticket).Some?
        && if AnswersIn(s)(ticket).value.Signer? then Settled(s, call.view, memo, None)
           else
             && own && Gap(s, call.view, memo, Subject(env, call.chain, i, site), ticket)
             && Settled(s, call.view, memo, Some(Subject(env, call.chain, i, site)))
      case _ => Settled(s, call.view, memo, None)
  }

  /** What the call has spent and what it still comes to make `whole`. */
  ghost predicate Owes(env: Env, s: State, call: Call, memo: Memo, whole: Bill) {
    var rest := Rest(env, call.o, call.chain, call.control, AnswersIn(s), Tight(call.local, s.outer), memo);
    rest.Some? && Plus(call.spent, rest.value) == whole
  }

  /** The memo after a stretch: a replay that succeeded is remembered. */
  function After(env: Env, call: Call, e: Effect, memo: Memo): Memo
    requires WellPlaced(env, call)
  {
    match (call.control, e.change)
    case (Fetching(i, site, _), Settle(_, answer)) => Learned(memo, Subject(env, call.chain, i, site), answer)
    case _ => memo
  }

  lemma {:induction false} SettledMirrors(s: State, view: nat, memo: Memo)
    requires Settled(s, view, memo, None)
    ensures Mirrors(KnownIn(s, view), AnswersIn(s), memo)
  {
    forall id ensures (id in memo <==> KnownIn(s, view)(id).Some?)
      && (id in memo ==> AnswersIn(s)(KnownIn(s, view)(id).value) == Some(Signer(memo[id]))) {
      assert SettledAt(s, view, memo, id);
    }
  }

  /** A question leaves the call waiting for a settled success, or fetching under a gap of its own. */
  lemma {:induction false} AskedAlone(env: Env, s: State, k: nat, memo: Memo, i: nat, site: Site, e: Effect)
    requires k < |s.calls| && Settled(s, s.calls[k].view, memo, None)
    requires i < |s.calls[k].chain| && SiteOpen(env, s.calls[k].o, s.calls[k].chain, i, site)
    requires var id := Subject(env, s.calls[k].chain, i, site);
      e == Ask(id, i, site, KnownIn(s, s.calls[k].view)(id), |s.promises|)
    ensures Alone(env, Moved(s, k, e), Moved(s, k, e).calls[k], memo)
  {
    var call, after := s.calls[k], Moved(s, k, e);
    var id := Subject(env, call.chain, i, site);
    assert SettledAt(s, call.view, memo, id);
    forall other | Some(other) != (if e.change.Nothing? then None else Some(id))
      ensures SettledAt(after, call.view, memo, other) {
      assert SettledAt(s, call.view, memo, other);
    }
  }

  /** A stretch that leaves the memo as it is. */
  lemma {:induction false} QuietAlone(env: Env, s: State, k: nat, memo: Memo, e: Effect)
    requires k < |s.calls| && Settled(s, s.calls[k].view, memo, None)
    requires e.change.Nothing? && !e.control.Fetching? && !e.control.Awaiting?
    requires WellPlaced(env, s.calls[k].(control := e.control))
    ensures Alone(env, Moved(s, k, e), Moved(s, k, e).calls[k], memo)
  {
    var call, after := s.calls[k], Moved(s, k, e);
    forall id ensures SettledAt(after, call.view, memo, id) {
      assert SettledAt(s, call.view, memo, id);
    }
  }

  /** A settled replay is remembered, or stays a gap until its starter resumes. */
  lemma {:induction false} ReplayedAlone(env: Env, s: State, k: nat, memo: Memo, fuel: Fuel)
    requires k < |s.calls| && s.calls[k].control.Fetching? && Alone(env, s, s.calls[k], memo)
    ensures var call := s.calls[k];
      var e := Replayed(env, Subject(env, call.chain, call.control.i, call.control.site), call.control.i,
        call.control.site, call.control.ticket, fuel);
      Alone(env, Moved(s, k, e), Moved(s, k, e).calls[k], After(env, call, e, memo))
  {
    var call := s.calls[k];
    var id := Subject(env, call.chain, call.control.i, call.control.site);
    var e := Replayed(env, id, call.control.i, call.control.site, call.control.ticket, fuel);
    var after, learned := Moved(s, k, e), After(env, call, e, memo);
    forall other | other != id ensures SettledAt(after, call.view, learned, other) {
      assert SettledAt(s, call.view, memo, other);
    }
  }

  /** The call resumes: a replay of its own that failed leaves the memo. */
  lemma {:induction false} ResumedAlone(env: Env, s: State, k: nat, memo: Memo, e: Effect)
    requires k < |s.calls| && s.calls[k].control.Awaiting? && Alone(env, s, s.calls[k], memo)
    requires var control := s.calls[k].control;
      e.change == ResumeChange(Subject(env, s.calls[k].chain, control.i, control.site),
        AnswersIn(s)(control.ticket).value, control.own)
    requires !e.control.Fetching? && !e.control.Awaiting? && WellPlaced(env, s.calls[k].(control := e.control))
    ensures Alone(env, Moved(s, k, e), Moved(s, k, e).calls[k], memo)
  {
    if AnswersIn(s)(s.calls[k].control.ticket).value.Signer? {
      QuietAlone(env, s, k, memo, e);
    } else {
      ForgottenAlone(env, s, k, memo, e);
    }
  }

  lemma {:induction false} ForgottenAlone(env: Env, s: State, k: nat, memo: Memo, e: Effect)
    requires k < |s.calls| && s.calls[k].control.Awaiting?
    requires e.change.Forget? && Gap(s, s.calls[k].view, memo, e.change.id, s.calls[k].control.ticket)
    requires Settled(s, s.calls[k].view, memo, Some(e.change.id))
    requires !e.control.Fetching? && !e.control.Awaiting? && WellPlaced(env, s.calls[k].(control := e.control))
    ensures Alone(env, Moved(s, k, e), Moved(s, k, e).calls[k], memo)
  {
    var call, after := s.calls[k], Moved(s, k, e);
    assert after.memo == s.memo - {(call.view, e.change.id)} && after.promises == s.promises;
    forall other ensures SettledAt(after, call.view, memo, other) {
      if other != e.change.id {
        assert SettledAt(s, call.view, memo, other);
      }
    }
  }

  /** What is left to come reads only the replay the call waits for. */
  lemma {:induction false} RestReads(env: Env, o: Options, chain: seq<Grant>, control: Control,
      a: nat -> Option<SignerAnswer>, b: nat -> Option<SignerAnswer>, fuel: Fuel, memo: Memo)
    requires control.Awaiting? ==> a(control.ticket) == b(control.ticket)
    ensures Rest(env, o, chain, control, a, fuel, memo) == Rest(env, o, chain, control, b, fuel, memo)
  {}

  lemma {:induction false} TightDrops(local: Fuel, outer: Fuel, spent: nat)
    ensures Tight(Drop(local, spent), Drop(outer, spent)) == Drop(Tight(local, outer), spent)
  {}

  /** A stretch that pays its part keeps what the call owes. */
  lemma {:induction false} OwesStill(env: Env, s: State, k: nat, e: Effect, answers: nat -> Option<SignerAnswer>,
      memo: Memo, learned: Memo, whole: Bill)
    requires k < |s.calls| && Owes(env, s, s.calls[k], memo, whole)
    requires var call := s.calls[k];
      var fuel := Tight(call.local, s.outer);
      && Continues(env, call.o, call.chain, e, answers, fuel, learned,
        Rest(env, call.o, call.chain, call.control, AnswersIn(s), fuel, memo).value)
      && (e.control.Awaiting? ==> AnswersIn(Moved(s, k, e))(e.control.ticket) == answers(e.control.ticket))
    ensures Owes(env, Moved(s, k, e), Moved(s, k, e).calls[k], learned, whole)
  {
    var call, after := s.calls[k], Moved(s, k, e);
    TightDrops(call.local, s.outer, e.spent);
    RestReads(env, call.o, call.chain, e.control, AnswersIn(after), answers, Tight(after.calls[k].local, after.outer),
      learned);
  }

  // -------- Whole runs --------

  ghost predicate OnCourse(env: Env, s: State, k: nat, memo: Memo, whole: Bill) {
    k < |s.calls| && s.calls[k].chain != [] && Alone(env, s, s.calls[k], memo) && Owes(env, s, s.calls[k], memo, whole)
  }

  lemma {:induction false} ReadyOnCourse(env: Env, s: State, k: nat, memo: Memo, whole: Bill)
    requires OnCourse(env, s, k, memo, whole) && s.calls[k].control.Ready?
    ensures var call := s.calls[k];
      var e := FromReady(env, call.o, call.chain, call.control.i, Tight(call.local, s.outer), KnownIn(s, call.view),
        |s.promises|);
      OnCourse(env, Moved(s, k, e), k, memo, whole)
  {
    var call, i, fuel := s.calls[k], s.calls[k].control.i, Tight(s.calls[k].local, s.outer);
    var known, answers := KnownIn(s, call.view), AnswersIn(s);
    var e := FromReady(env, call.o, call.chain, i, fuel, known, |s.promises|);
    SettledMirrors(s, call.view, memo);
    ReadyContinues(env, call.o, call.chain, i, known, answers, |s.promises|, fuel, memo);
    ReadyMoves(env, call.o, call.chain, i, fuel, known, |s.promises|);
    if AsksOfLink(env, call.o, call.chain, i) {
      AskedAlone(env, s, k, memo, i, OfLink, e);
    } else {
      QuietAlone(env, s, k, memo, e);
    }
    OwesStill(env, s, k, e, answers, memo, memo, whole);
  }

  lemma {:induction false} SignedOnCourse(env: Env, s: State, k: nat, memo: Memo, whole: Bill)
    requires OnCourse(env, s, k, memo, whole) && s.calls[k].control.Signed?
    ensures var e := FromSigned(env, s.calls[k].o, s.calls[k].chain, s.calls[k].control.i);
      OnCourse(env, Moved(s, k, e), k, memo, whole)
  {
    var call, i := s.calls[k], s.calls[k].control.i;
    var e := FromSigned(env, call.o, call.chain, i);
    SignedContinues(env, call.o, call.chain, i, AnswersIn(s), Tight(call.local, s.outer), memo);
    QuietAlone(env, s, k, memo, e);
    OwesStill(env, s, k, e, AnswersIn(s), memo, memo, whole);
  }

  lemma {:induction false} ScanningOnCourse(env: Env, s: State, k: nat, memo: Memo, whole: Bill)
    requires OnCourse(env, s, k, memo, whole) && s.calls[k].control.Scanning?
    ensures var call := s.calls[k];
      var e := FromScanning(env, call.chain, call.control.i, call.control.candidates, call.control.allowance,
        KnownIn(s, call.view), |s.promises|);
      OnCourse(env, Moved(s, k, e), k, memo, whole)
  {
    var call, known, answers := s.calls[k], KnownIn(s, s.calls[k].view), AnswersIn(s);
    var i, candidates, allowance := call.control.i, call.control.candidates, call.control.allowance;
    var e := FromScanning(env, call.chain, i, candidates, allowance, known, |s.promises|);
    SettledMirrors(s, call.view, memo);
    ScanningContinues(env, call.o, call.chain, i, candidates, allowance, known, answers, |s.promises|,
      Tight(call.local, s.outer), memo);
    if candidates != [] && Relevant(candidates[0], GrantDigest(env.c, call.chain[i]), IdSet(Revokers(call.chain, i))) {
      AskedAlone(env, s, k, memo, i, OfCandidate(candidates, allowance), e);
    } else {
      QuietAlone(env, s, k, memo, e);
    }
    OwesStill(env, s, k, e, answers, memo, memo, whole);
  }

  lemma {:induction false} FetchingOnCourse(env: Env, s: State, k: nat, memo: Memo, whole: Bill)
    requires OnCourse(env, s, k, memo, whole) && s.calls[k].control.Fetching?
    ensures var call := s.calls[k];
      var e := Replayed(env, Subject(env, call.chain, call.control.i, call.control.site), call.control.i,
        call.control.site, call.control.ticket, Tight(call.local, s.outer));
      OnCourse(env, Moved(s, k, e), k, After(env, call, e, memo), whole)
  {
    var call, fuel := s.calls[k], Tight(s.calls[k].local, s.outer);
    var i, site, ticket := call.control.i, call.control.site, call.control.ticket;
    var e := Replayed(env, Subject(env, call.chain, i, site), i, site, ticket, fuel);
    var answers := AnswersIn(Moved(s, k, e));
    FetchingRest(env, call.o, call.chain, i, site, ticket, AnswersIn(s), fuel, memo);
    FetchingContinues(env, call.o, call.chain, i, site, ticket, answers, fuel, memo);
    ReplayedAlone(env, s, k, memo, fuel);
    OwesStill(env, s, k, e, answers, memo, After(env, call, e, memo), whole);
  }

  lemma {:induction false} AwaitingOnCourse(env: Env, s: State, k: nat, memo: Memo, whole: Bill)
    requires OnCourse(env, s, k, memo, whole) && s.calls[k].control.Awaiting?
    ensures var call := s.calls[k];
      var e := Resume(env, call.chain, call.control.i, call.control.site, call.control.own,
        AnswersIn(s)(call.control.ticket).value, Tight(call.local, s.outer));
      OnCourse(env, Moved(s, k, e), k, memo, whole)
  {
    var call, fuel := s.calls[k], Tight(s.calls[k].local, s.outer);
    var i, site, own, answer :=
      call.control.i, call.control.site, call.control.own, AnswersIn(s)(call.control.ticket).value;
    var e := Resume(env, call.chain, i, site, own, answer, fuel);
    AwaitingContinues(env, call.o, call.chain, i, site, own, answer, AnswersIn(s), fuel, memo);
    ResumeMoves(env, call.chain, i, site, own, answer, fuel);
    ResumedPlaced(env, call, i, site, own, answer, fuel);
    ResumedAlone(env, s, k, memo, e);
    OwesStill(env, s, k, e, AnswersIn(s), memo, memo, whole);
  }

  lemma {:induction false} ResumedPlaced(env: Env, call: Call, i: nat, site: Site, own: bool, answer: SignerAnswer,
      fuel: Fuel)
    requires i < |call.chain| && SiteOk(env, call.chain, i, site)
    ensures WellPlaced(env, call.(control := Resume(env, call.chain, i, site, own, answer, fuel).control))
  {}

  lemma {:induction false} MoveOnCourse(envs: nat -> Env, s: State, k: nat, memo: Memo, whole: Bill)
    returns (learned: Memo)
    requires k < |s.calls| && OnCourse(envs(s.calls[k].view), s, k, memo, whole)
    ensures OnCourse(envs(s.calls[k].view), Advance(envs, s, Move(k)), k, learned, whole)
  {
    var call, env := s.calls[k], envs(s.calls[k].view);
    learned := memo;
    match call.control
    case Done(_) =>
    case Ready(_) => ReadyOnCourse(env, s, k, memo, whole);
    case Signed(_) => SignedOnCourse(env, s, k, memo, whole);
    case Scanning(_, _, _) => ScanningOnCourse(env, s, k, memo, whole);
    case Fetching(i, site, ticket) =>
      learned := After(env, call, Replayed(env, Subject(env, call.chain, i, site), i, site, ticket,
        Tight(call.local, s.outer)), memo);
      FetchingOnCourse(env, s, k, memo, whole);
    case Awaiting(_, _, _, _) => AwaitingOnCourse(env, s, k, memo, whole);
  }

  /** The event that lets call `k` take its next stretch, `n` times over. */
  function Moves(k: nat, n: nat): seq<Event> {
    seq(n, i => Move(k))
  }

  lemma {:induction false} MovesOnCourse(envs: nat -> Env, s: State, k: nat, n: nat, memo: Memo, whole: Bill)
    returns (learned: Memo)
    requires k < |s.calls| && OnCourse(envs(s.calls[k].view), s, k, memo, whole)
    ensures var after := Run(envs, s, Moves(k, n));
      && k < |after.calls| && after.calls[k].view == s.calls[k].view
      && OnCourse(envs(s.calls[k].view), after, k, learned, whole)
    decreases n
  {
    learned := memo;
    if n > 0 {
      assert Moves(k, n)[1..] == Moves(k, n - 1);
      learned := MoveOnCourse(envs, s, k, memo, whole);
      learned := MovesOnCourse(envs, Advance(envs, s, Move(k)), k, n - 1, learned, whole);
    }
  }

  /**
   * A call that begins while no replay of its view is pending, and that moves alone, ends with exactly the
   * verdict and the spending of the sequential verification under the tighter meter and what the memo holds.
   */
  lemma {:induction false} LoneCallIsSequential(envs: nat -> Env, s: State, view: nat, o: Options, chain: seq<Grant>,
      local: Fuel, n: nat, memo: Memo)
    requires Settled(s, view, memo, None)
    ensures var k := |s.calls|;
      var after := Run(envs, s, [Begin(view, o, chain, local)] + Moves(k, n));
      var step := VerifyStep(envs(view), o, chain, Tight(local, s.outer), memo);
      k < |after.calls| && (after.calls[k].control.Done? ==>
        after.calls[k].control.verdict == step.answer && after.calls[k].spent == step.spent)
  {
    var k, env, begin := |s.calls|, envs(view), Begin(view, o, chain, local);
    var begun := Advance(envs, s, begin);
    assert ([begin] + Moves(k, n))[1..] == Moves(k, n);
    var step := VerifyStep(env, o, chain, Tight(local, s.outer), memo);
    if chain == [] {
      DoneStays(envs, begun, k, n);
    } else {
      BegunOnCourse(envs, s, view, o, chain, local, memo);
      var _ := MovesOnCourse(envs, begun, k, n, memo, Bill(step.answer, step.spent));
    }
  }

  lemma {:induction false} BegunOnCourse(envs: nat -> Env, s: State, view: nat, o: Options, chain: seq<Grant>,
      local: Fuel, memo: Memo)
    requires Settled(s, view, memo, None) && chain != []
    ensures var step := VerifyStep(envs(view), o, chain, Tight(local, s.outer), memo);
      OnCourse(envs(view), Advance(envs, s, Begin(view, o, chain, local)), |s.calls|, memo,
        Bill(step.answer, step.spent))
  {
    var begun := Advance(envs, s, Begin(view, o, chain, local));
    forall id ensures SettledAt(begun, view, memo, id) {
      assert SettledAt(s, view, memo, id);
    }
  }

  lemma {:induction false} DoneStays(envs: nat -> Env, s: State, k: nat, n: nat)
    requires k < |s.calls| && s.calls[k].control.Done?
    ensures Run(envs, s, Moves(k, n)) == s
    decreases n
  {
    if n > 0 {
      assert Moves(k, n)[1..] == Moves(k, n - 1);
      DoneStays(envs, s, k, n - 1);
    }
  }
}
