/**
 * The interleaved calls of one request context come to an end: a call that is not finished is never
 * held up for good, and each can take only so many steps (packages/trust/src/resolver.ts:585-609,
 * 1290-1377).
 */
module InterleavedProgress {
  import opened Common
  import opened Grants
  import opened Resolver
  import opened Interleavings

  // -------- Nobody is stuck --------

  lemma {:induction false} UnfinishedCallIsNotStuck(envs: nat -> Env, granted: Fuel, s: State, k: nat)
    requires Good(envs, granted, s) && k < |s.calls| && !s.calls[k].control.Done?
    ensures exists j :: CanMove(envs, s, j)
  {
    GoodIsPlaced(envs, granted, s, k);
    if NextOf(envs, s, k).Some? {
      assert CanMove(envs, s, k);
    } else {
      var ticket := s.calls[k].control.ticket;
      assert CallGood(envs, s.calls[k], s.promises);
      assert FetchedBy(s.calls, ticket);
      var j :| 0 <= j < |s.calls| && s.calls[j].control.Fetching? && s.calls[j].control.ticket == ticket;
      GoodIsPlaced(envs, granted, s, j);
      assert CanMove(envs, s, j);
    }
  }

  // -------- Every move uses up a rank --------

  function Left(width: nat, links: nat): nat {
    if links == 0 then 0 else width + Left(width, links - 1)
  }

  function After(n: nat, i: nat): nat {
    Left(3 * n + 5, if i < n then n - i else 0)
  }

  /** How many more moves a call over `n` links can take at most. */
  function Rank(n: nat, control: Control): nat {
    match control
    case Done(_) => 0
    case Ready(i) => After(n, i) + 4
    case Fetching(i, site, _) => SiteRank(n, i, site) + 1
    case Awaiting(i, site, _, _) => SiteRank(n, i, site)
    case Signed(i) => After(n, i) + 1
    case Scanning(i, candidates, _) => After(n, i + 1) + 3 * |candidates| + 5
  }

  function SiteRank(n: nat, i: nat, site: Site): nat {
    match site
    case OfLink => After(n, i) + 2
    case OfCandidate(candidates, _) => After(n, i + 1) + 3 * |candidates| + 3
  }

  lemma {:induction false} OneLinkLess(n: nat, i: nat)
    requires i < n
    ensures After(n, i) == After(n, i + 1) + 3 * n + 5
  {}

  lemma {:induction false} ReadyLowersRank(env: Env, o: Options, chain: seq<Grant>, i: nat, fuel: Fuel,
      known: Text -> Option<nat>, unused: nat)
    requires chain != [] && i <= |chain|
    ensures Rank(|chain|, FromReady(env, o, chain, i, fuel, known, unused).control) < Rank(|chain|, Ready(i))
  {}

  lemma {:induction false} SignedLowersRank(env: Env, o: Options, chain: seq<Grant>, i: nat)
    requires i < |chain|
    ensures Rank(|chain|, FromSigned(env, o, chain, i).control) < Rank(|chain|, Signed(i))
  {
    OneLinkLess(|chain|, i);
    IdSetSize(Revokers(chain, i));
  }

  lemma {:induction false} AskRank(n: nat, id: Text, i: nat, site: Site, known: Option<nat>, unused: nat)
    ensures Rank(n, Ask(id, i, site, known, unused).control) <= SiteRank(n, i, site) + 1
  {}

  lemma {:induction false} ScanRank(n: nat, i: nat, candidates: seq<Candidate>, allowance: nat)
    ensures candidates == [] ==> Rank(n, Ready(i + 1)) < Rank(n, Scanning(i, candidates, allowance))
    ensures candidates != [] ==>
      && Rank(n, Scanning(i, candidates[1..], allowance)) < Rank(n, Scanning(i, candidates, allowance))
      && SiteRank(n, i, OfCandidate(candidates, allowance)) + 1 < Rank(n, Scanning(i, candidates, allowance))
  {}

  lemma {:induction false} ScanningLowersRank(env: Env, chain: seq<Grant>, i: nat, candidates: seq<Candidate>,
      allowance: nat, known: Text -> Option<nat>, unused: nat)
    requires i < |chain|
    ensures Rank(|chain|, FromScanning(env, chain, i, candidates, allowance, known, unused).control)
      < Rank(|chain|, Scanning(i, candidates, allowance))
  {
    ScanRank(|chain|, i, candidates, allowance);
    if candidates != [] && Relevant(candidates[0], GrantDigest(env.c, chain[i]), IdSet(Revokers(chain, i))) {
      var id := candidates[0].revocation.issuerId;
      AskRank(|chain|, id, i, OfCandidate(candidates, allowance), known(id), unused);
    }
  }

  lemma {:induction false} FetchingLowersRank(env: Env, id: Text, n: nat, i: nat, site: Site, ticket: nat, fuel: Fuel)
    ensures Rank(n, Replayed(env, id, i, site, ticket, fuel).control) < Rank(n, Fetching(i, site, ticket))
  {}

  lemma {:induction false} LinkLowersRank(env: Env, chain: seq<Grant>, i: nat, own: bool,
      answer: SignerAnswer, fuel: Fuel)
    requires i < |chain|
    ensures Rank(|chain|, Resume(env, chain, i, OfLink, own, answer, fuel).control) < SiteRank(|chain|, i, OfLink)
  {}

  lemma {:induction false} CandidateMoves(env: Env, candidates: seq<Candidate>, allowance: nat, i: nat,
      answer: SignerAnswer, fuel: Fuel)
    requires candidates != [] && candidates[0].Parsed?
    ensures var control := ResumeCandidate(env, candidates, allowance, i, answer, fuel).control;
      control.Done? || (control.Scanning? && control.i == i && control.candidates == candidates[1..])
  {}

  lemma {:induction false} ScanRankDrops(n: nat, i: nat, candidates: seq<Candidate>, control: Control)
    requires candidates != []
    requires control.Done? || (control.Scanning? && control.i == i && control.candidates == candidates[1..])
    ensures Rank(n, control) < After(n, i + 1) + 3 * |candidates| + 3
  {}

  lemma {:induction false} CandidateLowersRank(env: Env, chain: seq<Grant>, i: nat, candidates: seq<Candidate>,
      allowance: nat, own: bool, answer: SignerAnswer, fuel: Fuel)
    requires i < |chain| && SiteOk(env, chain, i, OfCandidate(candidates, allowance))
    ensures Rank(|chain|, Resume(env, chain, i, OfCandidate(candidates, allowance), own, answer, fuel).control)
      < SiteRank(|chain|, i, OfCandidate(candidates, allowance))
  {
    var control := Resume(env, chain, i, OfCandidate(candidates, allowance), own, answer, fuel).control;
    ResumeMoves(env, chain, i, OfCandidate(candidates, allowance), own, answer, fuel);
    CandidateMoves(env, candidates, allowance, i, answer, fuel);
    ScanRankDrops(|chain|, i, candidates, control);
  }

  lemma {:induction false} AwaitingLowersRank(env: Env, chain: seq<Grant>, i: nat, site: Site, ticket: nat, own: bool,
      answer: SignerAnswer, fuel: Fuel)
    requires i < |chain| && SiteOk(env, chain, i, site)
    ensures Rank(|chain|, Resume(env, chain, i, site, own, answer, fuel).control)
      < Rank(|chain|, Awaiting(i, site, ticket, own))
  {
    match site
    case OfLink => LinkLowersRank(env, chain, i, own, answer, fuel);
    case OfCandidate(candidates, allowance) =>
      CandidateLowersRank(env, chain, i, candidates, allowance, own, answer, fuel);
  }

  lemma {:induction false} MoveLowersRank(env: Env, call: Call, fuel: Fuel, known: Text -> Option<nat>,
      answers: nat -> Option<SignerAnswer>, unused: nat)
    requires WellPlaced(env, call) && Next(env, call, fuel, known, answers, unused).Some?
    ensures Rank(|call.chain|, Next(env, call, fuel, known, answers, unused).value.control)
      < Rank(|call.chain|, call.control)
  {
    var chain := call.chain;
    match call.control
    case Ready(i) => ReadyLowersRank(env, call.o, chain, i, fuel, known, unused);
    case Signed(i) => SignedLowersRank(env, call.o, chain, i);
    case Scanning(i, candidates, allowance) => ScanningLowersRank(env, chain, i, candidates, allowance, known, unused);
    case Fetching(i, site, ticket) =>
      FetchingLowersRank(env, Subject(env, chain, i, site), |chain|, i, site, ticket, fuel);
    case Awaiting(i, site, ticket, own) =>
      AwaitingLowersRank(env, chain, i, site, ticket, own, answers(ticket).value, fuel);
    case Done(_) => assert false;
  }

  function RankLeft(calls: seq<Call>): nat {
    Total(calls, (call: Call) => Rank(|call.chain|, call.control))
  }

  /** The most moves one call can take: its chain has at most four links. */
  const MAX_CALL_MOVES: nat := 72

  lemma {:induction false} BegunRank(view: nat, o: Options, chain: seq<Grant>, granted: Fuel)
    ensures Rank(|chain|, Begun(view, o, chain, granted).control) <= MAX_CALL_MOVES
  {
    if StructureReason(o, chain).None? {
      var n := |chain|;
      OneLinkLess(n, 0);
      if n > 1 { OneLinkLess(n, 1); }
      if n > 2 { OneLinkLess(n, 2); }
      if n > 3 { OneLinkLess(n, 3); }
    }
  }

  /** The moves of a run that took a call further, and the calls it began. */
  function Moves(envs: nat -> Env, s: State, events: seq<Event>): nat
    decreases |events|
  {
    if events == [] then 0
    else
      (if events[0].Move? && CanMove(envs, s, events[0].k) then 1 else 0)
      + Moves(envs, Advance(envs, s, events[0]), events[1..])
  }

  function Begins(events: seq<Event>): nat {
    if events == [] then 0 else (if events[0].Begin? then 1 else 0) + Begins(events[1..])
  }

  lemma {:induction false} AdvanceUsesRank(envs: nat -> Env, s: State, event: Event)
    ensures RankLeft(Advance(envs, s, event).calls) + (if event.Move? && CanMove(envs, s, event.k) then 1 else 0)
      <= RankLeft(s.calls) + if event.Begin? then MAX_CALL_MOVES else 0
  {
    var weight := (call: Call) => Rank(|call.chain|, call.control);
    match event
    case Begin(view, o, chain, granted) =>
      BegunRank(view, o, chain, granted);
      TotalAppend(s.calls, weight, Begun(view, o, chain, granted));
    case Move(k) =>
      if CanMove(envs, s, k) {
        var call, e := s.calls[k], NextOf(envs, s, k).value;
        MoveLowersRank(envs(call.view), call, Tight(call.local, s.outer), KnownIn(s, call.view),
          AnswersIn(s), |s.promises|);
        TotalUpdate(s.calls, weight, k, Charged(call, e.spent, e.control));
      }
  }

  lemma {:induction false} MovesAreBounded(envs: nat -> Env, s: State, events: seq<Event>)
    ensures Moves(envs, s, events) + RankLeft(Run(envs, s, events).calls)
      <= RankLeft(s.calls) + MAX_CALL_MOVES * Begins(events)
    decreases |events|
  {
    if events != [] {
      AdvanceUsesRank(envs, s, events[0]);
      MovesAreBounded(envs, Advance(envs, s, events[0]), events[1..]);
    }
  }

  /** Calls of a context neither wait on each other for ever nor go on for ever, whatever the schedule. */
  lemma {:induction false} InterleavedCallsFinish(envs: nat -> Env, granted: Fuel, events: seq<Event>)
    ensures Moves(envs, Opened(granted), events) <= MAX_CALL_MOVES * Begins(events)
    ensures var s := Run(envs, Opened(granted), events);
      (exists k :: CanMove(envs, s, k)) <==> exists k :: 0 <= k < |s.calls| && !s.calls[k].control.Done?
  {
    MovesAreBounded(envs, Opened(granted), events);
    RunStaysGood(envs, granted, Opened(granted), events);
    var s := Run(envs, Opened(granted), events);
    if k :| 0 <= k < |s.calls| && !s.calls[k].control.Done? {
      UnfinishedCallIsNotStuck(envs, granted, s, k);
    }
  }
}
