/**
 * One verification operation and what it shares with the rest of a request: caller-owned meters,
 * charged in parallel and each once, and a signer memo kept per view object
 * (packages/trust/src/resolver.ts:409-535, 585-666, 859-954, 1131-1386).
 */
module Operations {
  import opened Common
  import opened Metering
  import opened KeyEvents
  import opened KeyLog
  import opened Records
  import opened Grants
  import opened Resolver
  import opened Refinement

  /** A mutable allowance; callers may share one object between positions. */
  class Budget {
    var remaining: int

    constructor (n: int)
      ensures remaining == n
    {
      remaining := n;
    }

    predicate Safe()
      reads this
    {
      0 <= remaining <= MAX_SAFE_INTEGER
    }

    /** What the budget allows: a malformed count allows nothing. */
    function Usable(): nat
      reads this
    {
      SafeVerificationCount(Some(remaining), 0)
    }

    /** A malformed count becomes zero, never a refill; a well-formed one is left alone. */
    method Normalize()
      modifies this
      ensures Safe() && remaining == old(Usable())
      ensures remaining == if old(Safe()) then old(remaining) else 0
    {
      remaining := SafeVerificationCount(Some(remaining), 0);
    }
  }

  class SignerMemo {
    var states: Memo

    constructor ()
      ensures states == map[]
    {
      states := map[];
    }
  }

  /** A view object; its identity keys the memo. */
  class TrustView {
    const view: View
    const maxSignatureVerifications: Option<int>

    constructor (view: View, ceiling: Option<int>)
      ensures this.view == view && maxSignatureVerifications == ceiling
    {
      this.view := view;
      maxSignatureVerifications := ceiling;
    }
  }

  /** One request's state: its outer meter and a memo for every view it has asked. */
  class Context {
    const budget: Budget
    var memos: map<TrustView, SignerMemo>

    constructor (budget: Budget)
      modifies budget
      ensures this.budget == budget && memos == map[] && budget.Safe()
      ensures budget.remaining == if old(budget.Safe()) then old(budget.remaining) else 0
    {
      this.budget := budget;
      memos := map[];
      new;
      budget.Normalize();
    }

    /** No two views share a memo, and every memo agrees with its own view. */
    ghost predicate Sound(c: Primitives, instant: Text -> int)
      reads this, memos.Values
    {
      && (forall v, w :: v in memos && w in memos && memos[v] == memos[w] ==> v == w)
      && (forall v :: v in memos ==> MemoSound(Env(c, v.view, instant), memos[v].states))
    }
  }

  function Present(b: Budget?): set<Budget> {
    if b == null then {} else {b}
  }

  function Allowing(n: int): Fuel
    requires 0 <= n
  {
    var allowance: nat := n;
    Some(allowance)
  }

  /** The tightest of at most two allowances; the same object twice is one allowance. */
  ghost function TightestOf(local: Budget?, outer: Budget?): Fuel
    requires (local != null ==> local.Safe()) && (outer != null ==> outer.Safe())
    reads local, outer
  {
    if local == null then (if outer == null then None else Allowing(outer.remaining))
    else if outer == null then Allowing(local.remaining)
    else Allowing(if local.remaining <= outer.remaining then local.remaining else outer.remaining)
  }

  /** `new Set([local, outer, allowance])` without the absent ones. */
  method DistinctMeters(local: Budget?, outer: Budget?, allowance: Budget?) returns (meters: seq<Budget>)
    ensures forall i, j :: 0 <= i < j < |meters| ==> meters[i] != meters[j]
    ensures forall b :: b in meters <==> b in Present(local) + Present(outer) + Present(allowance)
  {
    meters := [];
    if local != null {
      meters := [local];
    }
    if outer != null && outer !in meters {
      meters := meters + [outer];
    }
    if allowance != null && allowance !in meters {
      meters := meters + [allowance];
    }
  }

  ghost predicate IsTightest(limit: Fuel, meters: seq<Budget>)
    reads meters
  {
    match limit
    case None => meters == []
    case Some(n) =>
      && (exists b :: b in meters && b.remaining == n)
      && (forall b :: b in meters ==> n <= b.remaining)
  }

  /** The smallest remaining allowance, if there is any meter at all. */
  method Tightest(meters: seq<Budget>) returns (limit: Fuel)
    requires forall b :: b in meters ==> b.Safe()
    ensures IsTightest(limit, meters)
  {
    limit := None;
    for i := 0 to |meters|
      invariant IsTightest(limit, meters[..i])
    {
      assert meters[..i + 1] == meters[..i] + [meters[i]] && meters[i] in meters;
      if limit.None? || meters[i].remaining < limit.value {
        limit := Allowing(meters[i].remaining);
      }
    }
    assert meters[..|meters|] == meters;
  }

  method NormalizeAll(meters: seq<Budget>)
    requires forall i, j :: 0 <= i < j < |meters| ==> meters[i] != meters[j]
    modifies meters
    ensures forall b :: b in meters ==> b.Safe() && b.remaining == if old(b.Safe()) then old(b.remaining) else 0
  {
    for i := 0 to |meters|
      invariant forall j :: 0 <= j < i ==>
        meters[j].Safe() && meters[j].remaining == if old(meters[j].Safe()) then old(meters[j].remaining) else 0
      invariant forall j :: i <= j < |meters| ==> meters[j].remaining == old(meters[j].remaining)
    {
      meters[i].Normalize();
    }
  }

  /** `verificationWorkOptions`: the distinct meters, made safe, and the tightest of them. */
  method WorkOptions(local: Budget?, outer: Budget?, allowance: Budget?) returns (meters: seq<Budget>, limit: Fuel)
    modifies local, outer, allowance
    ensures forall i, j :: 0 <= i < j < |meters| ==> meters[i] != meters[j]
    ensures forall b :: b in meters <==> b in Present(local) + Present(outer) + Present(allowance)
    ensures forall b :: b in meters ==> b.Safe() && b.remaining == if old(b.Safe()) then old(b.remaining) else 0
    ensures IsTightest(limit, meters)
  {
    meters := DistinctMeters(local, outer, allowance);
    forall i | 0 <= i < |meters| ensures meters[i] == local || meters[i] == outer || meters[i] == allowance {
      assert meters[i] in meters && meters[i] in Present(local) + Present(outer) + Present(allowance);
    }
    NormalizeAll(meters);
    limit := Tightest(meters);
  }

  /** `onSignatureVerifications`: every distinct meter falls by what was spent, once. */
  method ChargeAll(meters: seq<Budget>, spent: nat)
    requires forall i, j :: 0 <= i < j < |meters| ==> meters[i] != meters[j]
    modifies meters
    ensures forall b :: b in meters ==> b.remaining == old(b.remaining) - spent
  {
    for i := 0 to |meters|
      invariant forall j :: 0 <= j < i ==> meters[j].remaining == old(meters[j].remaining) - spent
      invariant forall j :: i <= j < |meters| ==> meters[j].remaining == old(meters[j].remaining)
    {
      meters[i].remaining := meters[i].remaining - spent;
    }
  }

  /** What one candidate does to a lookup: its verdict, if it decides, and everything it charged. */
  datatype Turn = Turn(found: Option<Lookup>, spent: nat, replays: nat, memo: Memo, allowance: nat)

  function CandidateFound(checked: Metered<AnchoredVerdict>): Option<Lookup> {
    match checked
    case BudgetExceeded => Some(LookupTooExpensive)
    case Finished(verdict) => if verdict == Decided(Accepted) then Some(RevocationFound) else None
  }

  /** A turn once the candidate's issuer has been asked about. */
  function ResolvedTurn(env: Env, r: Revocation, s: Step<SignerAnswer>, allowance: nat, fuel: Fuel): Turn {
    match s.answer
    case TooExpensive => Turn(Some(LookupTooExpensive), s.spent, s.replays, s.memo, allowance)
    case SignerThrew => Turn(Some(LookupThrew), s.spent, s.replays, s.memo, allowance)
    case Signer(states) =>
      var w := JudgeCandidate(env, r, states);
      var limit := Tighter(Drop(fuel, s.spent), allowance);
      Turn(CandidateFound(Meter(w, limit)), s.spent + Charge(w, limit), s.replays, s.memo, allowance - Charge(w, limit))
    case _ => Turn(None, s.spent, s.replays, s.memo, allowance)
  }

  function TurnStep(env: Env, digest: Text, requested: set<Text>, candidate: Candidate, allowance: nat,
      fuel: Fuel, memo: Memo): Turn {
    if !Relevant(candidate, digest, requested) then Turn(None, 0, 0, memo, allowance)
    else ResolvedTurn(env, candidate.revocation,
      SignerStep(env, candidate.revocation.issuerId, fuel, memo), allowance, fuel)
  }

  /** The lookup after a turn. */
  function Onward(env: Env, digest: Text, requested: set<Text>, rest: seq<Candidate>, t: Turn,
      fuel: Fuel): Step<Lookup> {
    match t.found
    case Some(lookup) => Step(lookup, t.spent, t.replays, t.memo)
    case None =>
      After(Step(NoRevocation, t.spent, t.replays, t.memo),
        ScanStep(env, digest, requested, rest, t.allowance, Drop(fuel, t.spent), t.memo))
  }

  lemma {:induction false} DropTwice(fuel: Fuel, m: nat, n: nat)
    ensures Drop(Drop(fuel, m), n) == Drop(fuel, m + n)
    ensures WithinFuel(fuel, m) && WithinFuel(Drop(fuel, m), n) ==> WithinFuel(fuel, m + n)
  {}

  lemma {:induction false} CandidateTakesTurn(env: Env, digest: Text, requested: set<Text>, candidates: seq<Candidate>,
      states: seq<AnchoredKeyState>, allowance: nat, fuel: Fuel, memo: Memo)
    requires candidates != [] && candidates[0].Parsed?
    ensures var w := JudgeCandidate(env, candidates[0].revocation, states);
      var limit := Tighter(fuel, allowance);
      var charge := Charge(w, limit);
      CandidateStep(env, digest, requested, candidates, states, allowance, fuel, memo) ==
        Onward(env, digest, requested, candidates[1..],
          Turn(CandidateFound(Meter(w, limit)), charge, 0, memo, allowance - charge), fuel)
  {}

  lemma {:induction false} OnwardAfter(env: Env, digest: Text, requested: set<Text>, rest: seq<Candidate>,
      first: Step<SignerAnswer>, t: Turn, fuel: Fuel)
    ensures After(first, Onward(env, digest, requested, rest, t, Drop(fuel, first.spent))) ==
      Onward(env, digest, requested, rest,
        t.(spent := first.spent + t.spent, replays := first.replays + t.replays), fuel)
  {
    DropTwice(fuel, first.spent, t.spent);
  }

  /** What `ScanStep` does once the issuer of its first candidate has been asked about. */
  function ResolvedScan(env: Env, digest: Text, requested: set<Text>, candidates: seq<Candidate>,
      s: Step<SignerAnswer>, allowance: nat, fuel: Fuel): Step<Lookup>
    requires candidates != [] && candidates[0].Parsed?
  {
    After(s, match s.answer
      case TooExpensive => Step(LookupTooExpensive, 0, 0, s.memo)
      case SignerThrew => Step(LookupThrew, 0, 0, s.memo)
      case Signer(states) =>
        CandidateStep(env, digest, requested, candidates, states, allowance, Drop(fuel, s.spent), s.memo)
      case _ => ScanStep(env, digest, requested, candidates[1..], allowance, Drop(fuel, s.spent), s.memo))
  }

  lemma {:induction false} ResolvedTakesTurn(env: Env, digest: Text, requested: set<Text>, candidates: seq<Candidate>,
      s: Step<SignerAnswer>, allowance: nat, fuel: Fuel)
    requires candidates != [] && candidates[0].Parsed?
    ensures ResolvedScan(env, digest, requested, candidates, s, allowance, fuel) ==
      Onward(env, digest, requested, candidates[1..],
        ResolvedTurn(env, candidates[0].revocation, s, allowance, fuel), fuel)
  {
    if s.answer.Signer? {
      var w := JudgeCandidate(env, candidates[0].revocation, s.answer.states);
      var limit := Tighter(Drop(fuel, s.spent), allowance);
      CandidateTakesTurn(env, digest, requested, candidates, s.answer.states, allowance, Drop(fuel, s.spent), s.memo);
      OnwardAfter(env, digest, requested, candidates[1..], s,
        Turn(CandidateFound(Meter(w, limit)), Charge(w, limit), 0, s.memo, allowance - Charge(w, limit)), fuel);
    }
  }

  /** The candidate loop is its turns, one after another. */
  lemma {:induction false} ScanTakesTurns(env: Env, digest: Text, requested: set<Text>, candidates: seq<Candidate>,
      allowance: nat, fuel: Fuel, memo: Memo)
    requires candidates != []
    ensures ScanStep(env, digest, requested, candidates, allowance, fuel, memo) ==
      Onward(env, digest, requested, candidates[1..],
        TurnStep(env, digest, requested, candidates[0], allowance, fuel, memo), fuel)
  {
    if Relevant(candidates[0], digest, requested) {
      ResolvedTakesTurn(env, digest, requested, candidates,
        SignerStep(env, candidates[0].revocation.issuerId, fuel, memo), allowance, fuel);
    }
  }

  /** After `i` candidates without a verdict the whole lookup is what was spent, then the rest of it. */
  ghost predicate Reached(env: Env, digest: Text, requested: set<Text>,
      candidates: seq<Candidate>, fuel: Fuel, memo: Memo,
    i: nat, allowance: nat, left: Fuel, now: Memo, spent: nat, replays: nat)
    requires i <= |candidates|
  {
    ScanStep(env, digest, requested, candidates, CANDIDATE_ALLOWANCE, fuel, memo) ==
      After(Step(NoRevocation, spent, replays, now),
        ScanStep(env, digest, requested, candidates[i..], allowance, left, now))
  }

  type TurnRunner = (Candidate, nat, Fuel, Memo) -> Turn

  ghost predicate RunsTurns(turns: TurnRunner, env: Env, digest: Text, requested: set<Text>) {
    forall c: Candidate, n: nat, f: Fuel, m: Memo {:trigger TurnStep(env, digest, requested, c, n, f, m)} ::
      turns(c, n, f, m) == TurnStep(env, digest, requested, c, n, f, m)
  }

  lemma {:induction false} TurnReaches(env: Env, digest: Text, requested: set<Text>, candidates: seq<Candidate>,
      turns: TurnRunner, fuel: Fuel, memo: Memo,
    i: nat, allowance: nat, left: Fuel, now: Memo, spent: nat, replays: nat)
    requires RunsTurns(turns, env, digest, requested)
    requires i < |candidates|
      && Reached(env, digest, requested, candidates, fuel, memo, i, allowance, left, now, spent, replays)
    ensures var t := turns(candidates[i], allowance, left, now);
      match t.found
      case Some(lookup) => ScanStep(env, digest, requested, candidates, CANDIDATE_ALLOWANCE, fuel, memo) ==
        Step(lookup, spent + t.spent, replays + t.replays, t.memo)
      case None => Reached(env, digest, requested, candidates, fuel, memo, i + 1, t.allowance, Drop(left, t.spent),
        t.memo, spent + t.spent, replays + t.replays)
  {
    ScanTakesTurns(env, digest, requested, candidates[i..], allowance, left, now);
    assert candidates[i..][0] == candidates[i] && candidates[i..][1..] == candidates[i + 1..];
  }

  /** `SignatureStep` for a participant's link, its issuer already asked about. */
  function ResolvedSignature(env: Env, link: Grant, s: Step<SignerAnswer>, fuel: Fuel): Step<LinkOutcome> {
    After(s, match s.answer
      case TooExpensive => Step(LinkFails(IssuerKeyLogTooExpensive), 0, 0, s.memo)
      case SignerThrew => Step(LinkThrew, 0, 0, s.memo)
      case Mismatched => Step(LinkFails(IssuerKeyLogParticipantMismatch), 0, 0, s.memo)
      case Unresolved => Step(LinkFails(IssuerKeyLogUnresolved), 0, 0, s.memo)
      case Signer(states) =>
        if link.anchor.None? then Step(LinkFails(Malformed), 0, 0, s.memo)
        else
          var w := JudgeLinkSet(env, link, states);
          ChargeStep(Work(LinkSetOutcome(w.verdict), w.cost), Drop(fuel, s.spent), s.memo))
  }

  /** `LinkStep` once the signatures of the link have been judged. */
  function SignedLink(env: Env, o: Options, chain: seq<Grant>, i: nat, signed: Step<LinkOutcome>,
      fuel: Fuel): Step<LinkOutcome>
    requires i < |chain|
  {
    if !signed.answer.LinkPasses? then signed
    else if !ProofMatches(env, chain, i) then Step(LinkFails(ProofMismatch), signed.spent, signed.replays, signed.memo)
    else After(signed, RevocationStep(env, o, chain, i, Drop(fuel, signed.spent), signed.memo))
  }

  ghost predicate RunsLinks(links: LinkRunner, env: Env, o: Options, chain: seq<Grant>) {
    forall j: nat, f: Fuel, m: Memo {:trigger LinkStep(env, o, chain, j, f, m)} :: j < |chain| ==>
      links(j, f, m) == LinkStep(env, o, chain, j, f, m)
  }

  /** After `i` passing links the whole run is what was spent, then the rest of it. */
  ghost predicate RunReached(links: LinkRunner, n: nat, fuel: Fuel, memo: Memo, i: nat, left: Fuel, now: Memo,
      spent: nat, replays: nat)
    requires i <= n
  {
    RunStep(links, 0, n, fuel, memo) == After(Step(LinkPasses, spent, replays, now), RunStep(links, i, n, left, now))
  }

  lemma {:induction false} RunAdvances(links: LinkRunner, n: nat, fuel: Fuel, memo: Memo, i: nat, left: Fuel,
      now: Memo, spent: nat, replays: nat)
    requires i < n && RunReached(links, n, fuel, memo, i, left, now, spent, replays)
    ensures var link := links(i, left, now);
      if link.answer.LinkPasses?
        then RunReached(links, n, fuel, memo, i + 1, Drop(left, link.spent), link.memo,
        spent + link.spent, replays + link.replays)
      else RunStep(links, 0, n, fuel, memo) == Step(link.answer, spent + link.spent, replays + link.replays, link.memo)
  {}

  class Operation {
    const trustView: TrustView
    const context: Context?
    const local: Budget?
    const outer: Budget?
    const memo: SignerMemo

    constructor (trustView: TrustView, context: Context?, local: Budget?, outer: Budget?, memo: SignerMemo)
      ensures this.trustView == trustView && this.context == context
      ensures this.local == local && this.outer == outer && this.memo == memo
    {
      this.trustView := trustView;
      this.context := context;
      this.local := local;
      this.outer := outer;
      this.memo := memo;
    }

    /** The distinct meters an operation charges. */
    function Meters(): set<Budget> {
      Present(local) + Present(outer)
    }

    ghost predicate Valid()
      reads local, outer
    {
      (local != null ==> local.Safe()) && (outer != null ==> outer.Safe())
    }

    /** What the tightest meter still allows. */
    ghost function FuelLeft(): Fuel
      requires Valid()
      reads local, outer
    {
      TightestOf(local, outer)
    }

    /** The step's charge left every distinct meter lower by exactly that much, and its memo is the memo. */
    twostate predicate Took(spent: nat, after: Memo)
      reads local, outer, memo
    {
      && old(Valid()) && Valid() && memo.states == after
      && (local != null ==> local.remaining == old(local.remaining) - spent)
      && (outer != null ==> outer.remaining == old(outer.remaining) - spent)
      && WithinFuel(old(FuelLeft()), spent)
      && FuelLeft() == Drop(old(FuelLeft()), spent)
    }

    /** The meters one crypto call outside a lookup charges, and the ceiling it runs under. */
    method StartWork() returns (meters: seq<Budget>, limit: Fuel)
      requires Valid()
      modifies local, outer
      ensures forall i, j :: 0 <= i < j < |meters| ==> meters[i] != meters[j]
      ensures forall b :: b in meters <==> b in Meters()
      ensures limit == old(FuelLeft()) && Took(0, memo.states)
    {
      meters, limit := WorkOptions(local, outer, null);
      assert (local != null ==> local in meters) && (outer != null ==> outer in meters);
      assert meters != [] ==> meters[0] in meters;
    }

    /** The call reports what it spent. */
    method FinishWork(meters: seq<Budget>, spent: nat)
      requires Valid() && WithinFuel(FuelLeft(), spent)
      requires forall i, j :: 0 <= i < j < |meters| ==> meters[i] != meters[j]
      requires forall b :: b in meters <==> b in Meters()
      modifies local, outer
      ensures Took(spent, memo.states)
    {
      forall i | 0 <= i < |meters| ensures meters[i] == local || meters[i] == outer {
        assert meters[i] in meters && meters[i] in Meters();
      }
      assert (local != null ==> local in Meters()) && (outer != null ==> outer in Meters());
      ChargeAll(meters, spent);
    }

    /** A replay of what the view returned, charged whether or not it succeeds. */
    method ReplayFor(env: Env, id: Text) returns (replayed: Metered<Replayed>)
      requires Valid() && StartsReplay(env, id)
      modifies local, outer
      ensures var w := Judge(env.c, env.view.keyLog(id).events, 0);
        var limit := Limit(old(FuelLeft()), DEFAULT_MAX_KEY_LOG_SIGNATURE_VERIFICATIONS);
        replayed == Meter(w, limit) && Took(Charge(w, limit), memo.states)
    {
      SignerCostBound(env, id);
      var meters, limit := StartWork();
      var spent;
      replayed, spent := Replay(env.c, env.view.keyLog(id).events, 0,
        Limit(limit, DEFAULT_MAX_KEY_LOG_SIGNATURE_VERIFICATIONS));
      FinishWork(meters, spent);
    }

    /** `signerStates`. */
    method SignerStates(env: Env, id: Text) returns (answer: SignerAnswer)
      requires Valid()
      modifies local, outer, memo
      ensures var s := SignerStep(env, id, old(FuelLeft()), old(memo.states));
        answer == s.answer && Took(s.spent, s.memo)
    {
      if id in memo.states {
        return Signer(memo.states[id]);
      }
      match env.view.keyLog(id)
      case LogUnreachable => return SignerThrew;
      case NoLog => return Unresolved;
      case Log(events) =>
        if events == [] {
          return Unresolved;
        }
        var replayed := ReplayFor(env, id);
        match replayed
        case BudgetExceeded => return TooExpensive;
        case Finished(Rejected(_)) => return Unresolved;
        case Finished(States(states)) =>
          if events[0].id != id {
            return Mismatched;
          }
          memo.states := memo.states[id := states];
          return Signer(states);
    }

    /** `signedAtAnchor` for a record outside any lookup, its cost refusal caught as the loop catches it. */
    method SignedAtAnchor(env: Env, link: Grant, states: seq<AnchoredKeyState>) returns (outcome: LinkOutcome)
      requires Valid() && link.anchor.Some?
      modifies local, outer
      ensures var w := JudgeLinkSet(env, link, states);
        var s := ChargeStep(Work(LinkSetOutcome(w.verdict), w.cost), old(FuelLeft()), memo.states);
        outcome == s.answer && Took(s.spent, s.memo)
    {
      match FindAnchored(states, link.anchor.value)
      case None => return LinkFails(IssuerAnchorUnknown);
      case Some(state) =>
        var meters, limit := StartWork();
        var checked, spent :=
          CheckSignatureSet(env.c, GrantRecord(link), state.keys, state.threshold,
          Limit(limit, DEFAULT_MAX_SIGNATURE_VERIFICATIONS));
        FinishWork(meters, spent);
        match checked
        case BudgetExceeded => return LinkFails(SignatureCheckTooExpensive);
        case Finished(verdict) => return LinkSetOutcome(Decided(verdict));
    }

    /** `signedByKeyIssuer`. */
    method SignedByKeyIssuer(env: Env, link: Grant) returns (outcome: LinkOutcome)
      requires Valid()
      modifies local, outer
      ensures var w := JudgeKeyIssuer(env, link);
        var s := ChargeStep(Work(KeyIssuerOutcome(w.verdict), w.cost), old(FuelLeft()), memo.states);
        outcome == s.answer && Took(s.spent, s.memo)
    {
      if |link.signature| != 1 {
        return KeyIssuerOutcome(false);
      }
      var meters, limit := StartWork();
      var checked, spent :=
        CheckSignatureSet(env.c, GrantRecord(link), [link.issuerId], Decimal(1),
        Limit(limit, DEFAULT_MAX_SIGNATURE_VERIFICATIONS));
      FinishWork(meters, spent);
      match checked
      case BudgetExceeded => return LinkFails(SignatureCheckTooExpensive);
      case Finished(verdict) => return KeyIssuerOutcome(verdict == Accepted);
    }

    /** The meters a candidate check charges: the lookup's own allowance is a further one. */
    method StartCandidate(allowance: Budget) returns (meters: seq<Budget>, limit: nat)
      requires Valid() && allowance.Safe() && allowance != local && allowance != outer
      modifies local, outer, allowance
      ensures forall i, j :: 0 <= i < j < |meters| ==> meters[i] != meters[j]
      ensures forall b :: b in meters <==> b in Meters() + {allowance}
      ensures limit == Tighter(old(FuelLeft()), old(allowance.remaining))
      ensures Valid() && FuelLeft() == old(FuelLeft()) && allowance.remaining == old(allowance.remaining)
      ensures (local != null ==> local.remaining == old(local.remaining))
        && (outer != null ==> outer.remaining == old(outer.remaining))
    {
      var tightest;
      meters, tightest := WorkOptions(local, outer, allowance);
      assert allowance in meters && (local != null ==> local in meters) && (outer != null ==> outer in meters);
      limit := tightest.value;
    }

    method FinishCandidate(meters: seq<Budget>, spent: nat, allowance: Budget)
      requires Valid() && allowance.Safe() && allowance != local && allowance != outer
        && spent <= Tighter(FuelLeft(), allowance.remaining)
      requires forall i, j :: 0 <= i < j < |meters| ==> meters[i] != meters[j]
      requires forall b :: b in meters <==> b in Meters() + {allowance}
      modifies local, outer, allowance
      ensures Took(spent, memo.states) && allowance.Safe() && allowance.remaining == old(allowance.remaining) - spent
    {
      forall i | 0 <= i < |meters| ensures meters[i] == local || meters[i] == outer || meters[i] == allowance {
        assert meters[i] in meters && meters[i] in Meters() + {allowance};
      }
      assert (local != null ==> local in Meters()) && (outer != null ==> outer in Meters());
      ChargeAll(meters, spent);
    }

    method CheckUnder(c: Primitives, record: SetRecord, keys: seq<Text>, threshold: Text, limit: nat,
        meters: seq<Budget>, allowance: Budget)
      returns (judged: Metered<SetVerdict>)
      requires Valid() && allowance.Safe() && allowance != local && allowance != outer
        && limit == Tighter(FuelLeft(), allowance.remaining)
      requires forall i, j :: 0 <= i < j < |meters| ==> meters[i] != meters[j]
      requires forall b :: b in meters <==> b in Meters() + {allowance}
      modifies local, outer, allowance
      ensures var w := JudgeSet(c, record, keys, threshold);
        && judged == Meter(w, limit) && Took(Charge(w, limit), memo.states)
        && allowance.remaining == old(allowance.remaining) - Charge(w, limit) && allowance.Safe()
    {
      var spent;
      judged, spent := CheckSignatureSet(c, record, keys, threshold, limit);
      FinishCandidate(meters, spent, allowance);
    }

    /** One set check charged to the operation's meters and the lookup's allowance alike. */
    method CheckCandidate(c: Primitives, record: SetRecord, keys: seq<Text>, threshold: Text, allowance: Budget)
        returns (judged: Metered<SetVerdict>)
      requires Valid() && allowance.Safe() && allowance != local && allowance != outer
      modifies local, outer, allowance
      ensures var w := JudgeSet(c, record, keys, threshold);
        var limit := Tighter(old(FuelLeft()), old(allowance.remaining));
        && judged == Meter(w, limit) && Took(Charge(w, limit), memo.states)
        && allowance.remaining == old(allowance.remaining) - Charge(w, limit) && allowance.Safe()
    {
      var meters, limit := StartCandidate(allowance);
      judged := CheckUnder(c, record, keys, threshold, limit, meters, allowance);
    }

    /** `signedAtAnchor` inside a lookup. */
    method SignedCandidate(env: Env, r: Revocation, states: seq<AnchoredKeyState>, allowance: Budget)
        returns (found: Option<Lookup>)
      requires Valid() && allowance.Safe() && allowance != local && allowance != outer
      modifies local, outer, allowance
      ensures var w := JudgeCandidate(env, r, states);
        var limit := Tighter(old(FuelLeft()), old(allowance.remaining));
        && found == CandidateFound(Meter(w, limit)) && Took(Charge(w, limit), memo.states)
        && allowance.remaining == old(allowance.remaining) - Charge(w, limit) && allowance.Safe()
    {
      match FindAnchored(states, r.anchor)
      case None => return None;
      case Some(state) =>
        var judged := CheckCandidate(env.c, RevocationRecord(r), state.keys, state.threshold, allowance);
        match judged
        case BudgetExceeded => return Some(LookupTooExpensive);
        case Finished(verdict) => return if verdict == Accepted then Some(RevocationFound) else None;
    }

    /** A turn of the candidate loop, its issuer `s` already asked about. */
    method TryResolved(env: Env, r: Revocation, signer: SignerAnswer, allowance: Budget, ghost s: Step<SignerAnswer>,
        ghost fuel: Fuel) returns (found: Option<Lookup>)
      requires Valid() && allowance.Safe() && allowance != local && allowance != outer
      requires signer == s.answer && WithinFuel(fuel, s.spent) && FuelLeft() == Drop(fuel, s.spent)
        && memo.states == s.memo
      modifies local, outer, allowance
      ensures var t := ResolvedTurn(env, r, s, old(allowance.remaining), fuel);
        && found == t.found && s.spent <= t.spent && Took(t.spent - s.spent, t.memo)
          && allowance.remaining == t.allowance && allowance.Safe()
        && WithinFuel(fuel, t.spent) && FuelLeft() == Drop(fuel, t.spent)
    {
      match signer
      case TooExpensive => return Some(LookupTooExpensive);
      case SignerThrew => return Some(LookupThrew);
      case Unresolved => return None;
      case Mismatched => return None;
      case Signer(states) => found := SignedCandidate(env, r, states, allowance);
    }

    /** One turn of the candidate loop: a verdict for the whole lookup, or on to the next candidate. */
    method TryCandidate(env: Env, digest: Text, requested: set<Text>, candidate: Candidate, allowance: Budget)
        returns (found: Option<Lookup>)
      requires Valid() && allowance.Safe() && allowance != local && allowance != outer
      modifies local, outer, memo, allowance
      ensures var t := TurnStep(env, digest, requested, candidate, old(allowance.remaining),
        old(FuelLeft()), old(memo.states));
        && found == t.found && Took(t.spent, t.memo) && allowance.remaining == t.allowance && allowance.Safe()
    {
      if !Relevant(candidate, digest, requested) {
        return None;
      }
      var r := candidate.revocation;
      ghost var s := SignerStep(env, r.issuerId, FuelLeft(), memo.states);
      ghost var fuel := FuelLeft();
      var signer := SignerStates(env, r.issuerId);
      found := TryResolved(env, r, signer, allowance, s, fuel);
    }

    method RunTurn(env: Env, digest: Text, requested: set<Text>, candidate: Candidate, allowance: Budget,
        ghost turns: TurnRunner)
      returns (found: Option<Lookup>)
      requires Valid() && allowance.Safe() && allowance != local && allowance != outer
        && RunsTurns(turns, env, digest, requested)
      modifies local, outer, memo, allowance
      ensures var t := turns(candidate, old(allowance.remaining), old(FuelLeft()), old(memo.states));
        && found == t.found && Took(t.spent, t.memo) && allowance.remaining == t.allowance && allowance.Safe()
    {
      found := TryCandidate(env, digest, requested, candidate, allowance);
    }

    /** The loop body: candidate `i`, after `spent` was charged for those before it. */
    method TakeTurn(env: Env, digest: Text, requested: set<Text>, candidates: seq<Candidate>, i: nat, allowance: Budget,
      ghost turns: TurnRunner, ghost fuel: Fuel, ghost states: Memo, ghost spent: nat, ghost replays: nat)
      returns (decided: Option<Lookup>, ghost spentNow: nat, ghost replaysNow: nat)
      requires Valid() && allowance.Safe() && allowance != local && allowance != outer && i < |candidates|
      requires RunsTurns(turns, env, digest, requested)
      requires WithinFuel(fuel, spent) && FuelLeft() == Drop(fuel, spent)
      requires Reached(env, digest, requested, candidates, fuel, states, i, allowance.remaining, FuelLeft(),
        memo.states, spent, replays)
      modifies local, outer, memo, allowance
      ensures spent <= spentNow && Took(spentNow - spent, memo.states) && allowance.Safe()
      ensures WithinFuel(fuel, spentNow) && FuelLeft() == Drop(fuel, spentNow)
      ensures match decided
        case Some(lookup) =>
          ScanStep(env, digest, requested, candidates, CANDIDATE_ALLOWANCE, fuel, states) ==
          Step(lookup, spentNow, replaysNow, memo.states)
        case None => Reached(env, digest, requested, candidates, fuel, states, i + 1, allowance.remaining, FuelLeft(),
          memo.states, spentNow, replaysNow)
    {
      ghost var turn := turns(candidates[i], allowance.remaining, FuelLeft(), memo.states);
      TurnReaches(env, digest, requested, candidates, turns, fuel, states, i, allowance.remaining, FuelLeft(),
        memo.states, spent, replays);
      decided := RunTurn(env, digest, requested, candidates[i], allowance, turns);
      DropTwice(fuel, spent, turn.spent);
      spentNow, replaysNow := spent + turn.spent, replays + turn.replays;
    }

    /** The candidate loop of `findRevocation`, under one allowance for all of them. */
    method ScanCandidates(env: Env, digest: Text, requested: set<Text>,
        candidates: seq<Candidate>) returns (found: Lookup)
      requires Valid()
      modifies local, outer, memo
      ensures var s := ScanStep(env, digest, requested, candidates, CANDIDATE_ALLOWANCE,
        old(FuelLeft()), old(memo.states));
        found == s.answer && Took(s.spent, s.memo)
    {
      var allowance := new Budget(CANDIDATE_ALLOWANCE);
      ghost var spent: nat, replays: nat := 0, 0;
      ghost var fuel, states := FuelLeft(), memo.states;
      ghost var turns: TurnRunner := (c: Candidate, n: nat, f: Fuel, m: Memo) =>
        TurnStep(env, digest, requested, c, n, f, m);
      assert candidates[0..] == candidates;
      for i := 0 to |candidates|
        invariant allowance != local && allowance != outer && fresh(allowance) && allowance.Safe()
          && Took(spent, memo.states)
        invariant Reached(env, digest, requested, candidates, fuel, states, i, allowance.remaining, FuelLeft(),
          memo.states, spent, replays)
      {
        var decided;
        decided, spent, replays :=
          TakeTurn(env, digest, requested, candidates, i, allowance, turns, fuel, states, spent, replays);
        if decided.Some? {
          return decided.value;
        }
      }
      return NoRevocation;
    }

    /** `findRevocation`: more candidates than issuers asked for is a malformed answer on its face. */
    method FindRevocation(env: Env, digest: Text, revokers: seq<Text>) returns (found: Lookup)
      requires Valid()
      modifies local, outer, memo
      ensures var s := LookupStep(env, digest, revokers, old(FuelLeft()), old(memo.states));
        found == s.answer && Took(s.spent, s.memo)
    {
      match env.view.revocations(digest, revokers)
      case RevocationsUnreachable => return LookupThrew;
      case Candidates(candidates) =>
        if |candidates| > |IdSet(revokers)| {
          return LookupThrew;
        }
        found := ScanCandidates(env, digest, IdSet(revokers), candidates);
    }

    /** A participant's link once its issuer has been asked about. */
    method FinishSignature(env: Env, link: Grant, signer: SignerAnswer, ghost s: Step<SignerAnswer>, ghost fuel: Fuel)
        returns (outcome: LinkOutcome)
      requires Valid()
      requires signer == s.answer && WithinFuel(fuel, s.spent) && FuelLeft() == Drop(fuel, s.spent)
        && memo.states == s.memo
      modifies local, outer
      ensures var t := ResolvedSignature(env, link, s, fuel);
        && outcome == t.answer && s.spent <= t.spent && Took(t.spent - s.spent, t.memo)
        && WithinFuel(fuel, t.spent) && FuelLeft() == Drop(fuel, t.spent)
    {
      match signer
      case TooExpensive => return LinkFails(IssuerKeyLogTooExpensive);
      case SignerThrew => return LinkThrew;
      case Mismatched => return LinkFails(IssuerKeyLogParticipantMismatch);
      case Unresolved => return LinkFails(IssuerKeyLogUnresolved);
      case Signer(states) =>
        if link.anchor.None? {
          return LinkFails(Malformed);
        }
        outcome := SignedAtAnchor(env, link, states);
    }

    /** The signatures of one link, under its issuer's anchored state or the issuing key itself. */
    method VerifySignature(env: Env, link: Grant) returns (outcome: LinkOutcome)
      requires Valid()
      modifies local, outer, memo
      ensures var s := SignatureStep(env, link, old(FuelLeft()), old(memo.states));
        outcome == s.answer && Took(s.spent, s.memo)
    {
      if !IsParticipant(link.issuerId) {
        outcome := SignedByKeyIssuer(env, link);
        return;
      }
      ghost var s := SignerStep(env, link.issuerId, FuelLeft(), memo.states);
      ghost var fuel := FuelLeft();
      var signer := SignerStates(env, link.issuerId);
      outcome := FinishSignature(env, link, signer, s, fuel);
    }

    method CheckRevocation(env: Env, o: Options, chain: seq<Grant>, i: nat) returns (outcome: LinkOutcome)
      requires Valid() && i < |chain|
      modifies local, outer, memo
      ensures var s := RevocationStep(env, o, chain, i, old(FuelLeft()), old(memo.states));
        outcome == s.answer && Took(s.spent, s.memo)
    {
      if !ChecksRevocation(o) {
        return LinkPasses;
      }
      var found := FindRevocation(env, GrantDigest(env.c, chain[i]), Revokers(chain, i));
      match found
      case RevocationFound => return LinkFails(Revoked);
      case NoRevocation => return LinkPasses;
      case LookupTooExpensive => return LinkFails(SignatureCheckTooExpensive);
      case LookupThrew => return LinkThrew;
    }

    /** What is left of a link once its signatures have been judged as `signed` says. */
    method FinishLink(env: Env, o: Options, chain: seq<Grant>, i: nat, signature: LinkOutcome,
        ghost signed: Step<LinkOutcome>, ghost fuel: Fuel)
      returns (outcome: LinkOutcome)
      requires Valid() && i < |chain|
      requires signature == signed.answer && WithinFuel(fuel, signed.spent) && FuelLeft() == Drop(fuel, signed.spent)
        && memo.states == signed.memo
      modifies local, outer, memo
      ensures var s := SignedLink(env, o, chain, i, signed, fuel);
        && outcome == s.answer && signed.spent <= s.spent && Took(s.spent - signed.spent, s.memo)
        && WithinFuel(fuel, s.spent) && FuelLeft() == Drop(fuel, s.spent)
    {
      if !signature.LinkPasses? {
        return signature;
      }
      if !ProofMatches(env, chain, i) {
        return LinkFails(ProofMismatch);
      }
      ghost var revoked := RevocationStep(env, o, chain, i, FuelLeft(), memo.states);
      outcome := CheckRevocation(env, o, chain, i);
      DropTwice(fuel, signed.spent, revoked.spent);
    }

    /** One turn of the link loop. */
    method VerifyLink(env: Env, o: Options, chain: seq<Grant>, i: nat) returns (outcome: LinkOutcome)
      requires Valid() && i < |chain|
      modifies local, outer, memo
      ensures var s := LinkStep(env, o, chain, i, old(FuelLeft()), old(memo.states));
        outcome == s.answer && Took(s.spent, s.memo)
    {
      var early := PreludeReason(env, o, chain[i]);
      if early.Some? {
        return LinkFails(early.value);
      }
      ghost var signed := SignatureStep(env, chain[i], FuelLeft(), memo.states);
      ghost var fuel := FuelLeft();
      var signature := VerifySignature(env, chain[i]);
      outcome := FinishLink(env, o, chain, i, signature, signed, fuel);
    }

    method RunLink(env: Env, o: Options, chain: seq<Grant>, i: nat, ghost links: LinkRunner)
        returns (outcome: LinkOutcome)
      requires Valid() && i < |chain| && RunsLinks(links, env, o, chain)
      modifies local, outer, memo
      ensures var s := links(i, old(FuelLeft()), old(memo.states)); outcome == s.answer && Took(s.spent, s.memo)
    {
      outcome := VerifyLink(env, o, chain, i);
    }

    /** The loop body: link `i`, after `spent` was charged for those below it. */
    method TakeLink(env: Env, o: Options, chain: seq<Grant>, i: nat, ghost links: LinkRunner,
      ghost fuel: Fuel, ghost states: Memo, ghost spent: nat, ghost replays: nat)
      returns (outcome: LinkOutcome, ghost spentNow: nat, ghost replaysNow: nat)
      requires Valid() && i < |chain| && RunsLinks(links, env, o, chain)
      requires WithinFuel(fuel, spent) && FuelLeft() == Drop(fuel, spent)
      requires RunReached(links, |chain|, fuel, states, i, FuelLeft(), memo.states, spent, replays)
      modifies local, outer, memo
      ensures spent <= spentNow && Took(spentNow - spent, memo.states)
      ensures WithinFuel(fuel, spentNow) && FuelLeft() == Drop(fuel, spentNow)
      ensures if outcome.LinkPasses?
        then RunReached(links, |chain|, fuel, states, i + 1, FuelLeft(), memo.states, spentNow, replaysNow)
        else RunStep(links, 0, |chain|, fuel, states) == Step(outcome, spentNow, replaysNow, memo.states)
    {
      ghost var link := links(i, FuelLeft(), memo.states);
      RunAdvances(links, |chain|, fuel, states, i, FuelLeft(), memo.states, spent, replays);
      outcome := RunLink(env, o, chain, i, links);
      DropTwice(fuel, spent, link.spent);
      spentNow, replaysNow := spent + link.spent, replays + link.replays;
    }

    /** The link loop, leaf first. */
    method VerifyLinks(env: Env, o: Options, chain: seq<Grant>, ghost links: LinkRunner) returns (outcome: LinkOutcome)
      requires Valid() && RunsLinks(links, env, o, chain)
      modifies local, outer, memo
      ensures var s := RunStep(links, 0, |chain|, old(FuelLeft()), old(memo.states));
        outcome == s.answer && Took(s.spent, s.memo)
    {
      ghost var spent: nat, replays: nat := 0, 0;
      ghost var fuel, states := FuelLeft(), memo.states;
      for i := 0 to |chain|
        invariant Took(spent, memo.states)
        invariant RunReached(links, |chain|, fuel, states, i, FuelLeft(), memo.states, spent, replays)
      {
        outcome, spent, replays := TakeLink(env, o, chain, i, links, fuel, states, spent, replays);
        if !outcome.LinkPasses? {
          return;
        }
      }
      return LinkPasses;
    }

    /** `verifyGrantChain` on this operation's meters and memo. */
    method VerifyChain(env: Env, o: Options, chain: seq<Grant>) returns (verdict: Verdict)
      requires Valid()
      modifies local, outer, memo
      ensures var s := VerifyStep(env, o, chain, old(FuelLeft()), old(memo.states));
        verdict == s.answer && Took(s.spent, s.memo)
    {
      var structure := StructureReason(o, chain);
      if structure.Some? {
        return Invalid(structure.value);
      }
      var outcome := VerifyLinks(env, o, chain, LinkSteps(env, o, chain));
      verdict := Resolver.Conclude(chain, outcome);
    }

    /** Whatever the meters and a sound memo: the ideal verdict or a cost refusal, exactly paid for. */
    method VerifySoundly(env: Env, o: Options, chain: seq<Grant>) returns (verdict: Verdict, ghost spent: nat)
      requires Valid() && MemoSound(env, memo.states)
      modifies local, outer, memo
      ensures verdict == IdealVerdict(env, o, chain) || (verdict.Invalid? && IsCost(verdict.reason))
      ensures MemoSound(env, memo.states) && Took(spent, memo.states)
      ensures spent == VerifyStep(env, o, chain, old(FuelLeft()), old(memo.states)).spent
    {
      MeteredRunRefinesIdeal(env, o, chain, FuelLeft(), memo.states);
      spent := VerifyStep(env, o, chain, FuelLeft(), memo.states).spent;
      verdict := VerifyChain(env, o, chain);
    }

    /** The same against a verdict already known to be the ideal one. */
    method VerifyPaid(env: Env, o: Options, chain: seq<Grant>, ghost ideal: Verdict)
        returns (verdict: Verdict, ghost spent: nat)
      requires Valid() && MemoSound(env, memo.states) && ideal == IdealVerdict(env, o, chain)
      modifies local, outer, memo
      ensures verdict == ideal || (verdict.Invalid? && IsCost(verdict.reason))
      ensures MemoSound(env, memo.states) && Took(spent, memo.states)
    {
      verdict, spent := VerifySoundly(env, o, chain);
    }
  }

  // -------- Starting an operation --------

  /** `normalizedBudget`: the caller's own object, made safe, or a fresh one at the view's ceiling. */
  method NormalizedBudget(view: TrustView, supplied: Budget?) returns (b: Budget?)
    modifies supplied
    ensures b != null ==> b.Safe()
    ensures supplied != null ==> b == supplied && b.remaining == if old(supplied.Safe())
      then old(supplied.remaining) else 0
    ensures supplied == null ==> (b == null <==> view.maxSignatureVerifications.None?)
    ensures supplied == null && b != null ==>
      fresh(b) && b.remaining == SafeVerificationCount(view.maxSignatureVerifications, 0)
  {
    if supplied != null {
      supplied.Normalize();
      return supplied;
    }
    if view.maxSignatureVerifications.None? {
      return null;
    }
    b := new Budget(SafeVerificationCount(view.maxSignatureVerifications, 0));
  }

  /** The memo of the context for exactly this view, made on first use. */
  method MemoFor(context: Context, view: TrustView) returns (memo: SignerMemo)
    modifies context
    ensures view in context.memos && context.memos[view] == memo
    ensures if old(view in context.memos) then context.memos == old(context.memos)
      else fresh(memo) && memo.states == map[] && context.memos == old(context.memos)[view := memo]
  {
    if view in context.memos {
      return context.memos[view];
    }
    memo := new SignerMemo();
    context.memos := context.memos[view := memo];
  }

  /** An operation threaded in is reused only for its own view and context; otherwise a new one starts. */
  method BeginOperation(view: TrustView, budget: Budget?, context: Context?, operation: Operation?)
      returns (begun: Option<Operation>)
    modifies budget, context, if context == null then null else context.budget
    ensures operation != null ==>
      begun == if operation.trustView != view || (context != null && operation.context != context)
        then None else Some(operation)
    ensures operation != null && context != null ==>
      context.memos == old(context.memos) && context.budget.remaining == old(context.budget.remaining)
    ensures operation == null ==>
      begun.Some? && fresh(begun.value) && begun.value.Valid() && begun.value.trustView == view
      && begun.value.context == context
    ensures operation == null && context == null ==>
      var op := begun.value;
      && op.outer == null && fresh(op.memo) && op.memo.states == map[]
      && (budget != null ==> op.local == budget && budget.remaining == if old(budget.Safe())
        then old(budget.remaining) else 0)
      && (budget == null ==> op.local == null || fresh(op.local))
    ensures operation == null && context != null ==>
      var op := begun.value;
      && op.outer == context.budget
        && context.budget.remaining == (if old(context.budget.Safe()) then old(context.budget.remaining) else 0)
      && (op.local == null || fresh(op.local))
      && view in context.memos && op.memo == context.memos[view]
      && (if old(view in context.memos) then context.memos == old(context.memos)
          else fresh(op.memo) && op.memo.states == map[] && context.memos == old(context.memos)[view := op.memo])
  {
    if operation != null {
      return if operation.trustView != view || (context != null && operation.context != context)
        then None else Some(operation);
    }
    if context != null {
      context.budget.Normalize();
      var memo := MemoFor(context, view);
      var local := NormalizedBudget(view, null);
      var op := new Operation(view, context, local, context.budget, memo);
      return Some(op);
    }
    var local := NormalizedBudget(view, budget);
    var memo := new SignerMemo();
    var op := new Operation(view, null, local, null, memo);
    return Some(op);
  }

  /** A chain that is empty, too long or not well formed is refused before the operation starts. */
  predicate RefusedAtSight(chain: seq<Grant>) {
    chain == [] || |chain| > 4 || exists i :: 0 <= i < |chain| && !GrantSchema(chain[i])
  }

  /**
   * A whole call in a shared request context: for any earlier calls against any views, the verdict
   * is the ideal one or a cost refusal; the request's meter falls by exactly what was spent and
   * never below zero, a meter that something made malformed counting as empty; and every view's
   * memo stays sound for the calls to come.
   */
  method VerifyInContext(c: Primitives, instant: Text -> int, view: TrustView, context: Context,
      o: Options, chain: seq<Grant>)
    returns (verdict: Verdict, ghost spent: nat)
    requires context.Sound(c, instant)
    modifies context, context.budget, context.memos.Values
    ensures var ideal := IdealVerdict(Env(c, view.view, instant), o, chain);
      verdict == ideal || (verdict.Invalid? && IsCost(verdict.reason))
    ensures if RefusedAtSight(chain) then spent == 0 && context.budget.remaining == old(context.budget.remaining)
      else spent <= old(context.budget.Usable()) && context.budget.remaining == old(context.budget.Usable()) - spent
    ensures context.Sound(c, instant)
    ensures fresh(context.memos.Values - old(context.memos.Values))
  {
    spent := 0;
    var env := Env(c, view.view, instant);
    if RefusedAtSight(chain) {
      return Invalid(StructureReason(o, chain).value), 0;
    }
    var begun := BeginOperation(view, null, context, null);
    var op := begun.value;
    assert MemoSound(env, op.memo.states);
    verdict, spent := op.VerifyPaid(env, o, chain, IdealVerdict(env, o, chain));
  }
}
