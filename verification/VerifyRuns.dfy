/**
 * Replay control across interleaved requests (packages/verify/src/verifier.ts:451-669,
 * packages/crypto/src/http-signature.ts:322-331): each run first asks the guard about its nonce and
 * only after authorization commits it; other runs may ask and commit in between.
 */
module VerifyRuns {
  import opened Common
  import opened NonceGuards

  /** The surface's settings; `offset` is the wall clock, in milliseconds, when the monotonic one read zero. */
  datatype Config = Config(skew: nat, ttlSeconds: nat, maxEntries: int, offset: real)

  function Ttl(c: Config): real {
    (c.ttlSeconds * 1000) as real
  }

  /** `Math.floor(now / 1000)`, with both clocks advancing together. */
  function WallSeconds(c: Config, mono: real): int {
    ((c.offset + mono) / 1000.0).Floor
  }

  /** The freshness window, inclusive at both ends. */
  predicate FreshAt(c: Config, created: int, mono: real) {
    WallSeconds(c, mono) - c.skew <= created <= WallSeconds(c, mono) + c.skew
  }

  /** A run that has asked and not yet committed. */
  datatype Pending = Pending(created: int, nonce: Text, askedAt: real)

  datatype Acceptance = Acceptance(created: int, nonce: Text, askedAt: real, committedAt: real)

  /** Everything the surface has done: runs in flight, requests accepted, nonces recorded. */
  datatype State = State(clock: real, pending: map<nat, Pending>, accepted: seq<Acceptance>, history: seq<Recorded>)

  datatype Event =
    | Ask(id: nat, created: int, nonce: Text, mono: real)
    | Commit(id: nat, mono: real)
    | Refuse(id: nat, mono: real)

  /** Freshness and peek at one instant: does the run go on to authorization? */
  predicate Admits(c: Config, s: State, created: int, nonce: Text, mono: real) {
    FreshAt(c, created, mono) && SpecPeek(s.history, nonce, Some(WallSeconds(c, mono)), mono, Ttl(c)).Fresh?
  }

  function CommitVerdict(c: Config, s: State, p: Pending, mono: real): NonceVerdict {
    SpecCheck(s.history, p.nonce, Some(WallSeconds(c, p.askedAt)), mono, Ttl(c), c.maxEntries)
  }

  function Step(c: Config, s: State, e: Event): State {
    match e
    case Ask(id, created, nonce, mono) =>
      if id !in s.pending && Admits(c, s, created, nonce, mono)
      then s.(clock := mono, pending := s.pending[id := Pending(created, nonce, mono)])
      else s.(clock := mono)
    case Refuse(id, mono) => s.(clock := mono, pending := s.pending - {id})
    case Commit(id, mono) =>
      if id !in s.pending then s.(clock := mono)
      else
        var p := s.pending[id];
        var verdict := CommitVerdict(c, s, p, mono);
        State(mono, s.pending - {id},
          if verdict.Fresh? then s.accepted + [Acceptance(p.created, p.nonce, p.askedAt, mono)] else s.accepted,
          HistoryAfter(s.history, p.nonce, mono, verdict))
  }

  function Start(clock: real): State {
    State(clock, map[], [], [])
  }

  function Run(c: Config, s: State, events: seq<Event>): State {
    if events == [] then s
    else Step(c, Run(c, s, events[..|events| - 1]), events[|events| - 1])
  }

  /** Time does not run backwards, and a run commits less than `bound` milliseconds after it asked. */
  predicate Within(bound: real, s: State, e: Event) {
    && s.clock <= e.mono
    && (e.Commit? && e.id in s.pending ==> e.mono < s.pending[e.id].askedAt + bound)
  }

  predicate RunWithin(c: Config, bound: real, s: State, events: seq<Event>) {
    events == [] ||
    var front := events[..|events| - 1];
    RunWithin(c, bound, s, front) && Within(bound, Run(c, s, front), events[|events| - 1])
  }

  /** No run takes a TTL between asking and committing. */
  predicate Timely(c: Config, s: State, e: Event) {
    Within(Ttl(c), s, e)
  }

  predicate TimelyRun(c: Config, s: State, events: seq<Event>) {
    RunWithin(c, Ttl(c), s, events)
  }

  // -------- Safety --------

  /** The nonces recorded are those of the requests accepted, in order. */
  predicate Mirrors(s: State) {
    && |s.history| == |s.accepted|
    && forall i :: 0 <= i < |s.accepted| ==> s.history[i] == Recorded(s.accepted[i].nonce, s.accepted[i].committedAt)
  }

  /** A run asked before the nonce was recorded, or when that record was already forgotten. */
  predicate Clears(c: Config, a: Acceptance, nonce: Text, askedAt: real) {
    a.nonce == nonce ==> askedAt <= a.committedAt || a.committedAt + Ttl(c) <= askedAt
  }

  predicate Sound(c: Config, s: State) {
    && Mirrors(s)
    && (forall a :: a in s.accepted ==> a.askedAt <= a.committedAt <= s.clock && FreshAt(c, a.created, a.askedAt))
    && (forall id :: id in s.pending ==>
      s.pending[id].askedAt <= s.clock && FreshAt(c, s.pending[id].created, s.pending[id].askedAt))
    && (forall id, a :: id in s.pending && a in s.accepted ==> Clears(c, a, s.pending[id].nonce, s.pending[id].askedAt))
    && SecondAsksLate(c, s.accepted)
  }

  /** Of two acceptances of one nonce, the later run asked a TTL or more after the earlier committed. */
  predicate SecondAsksLate(c: Config, accepted: seq<Acceptance>) {
    forall i, j :: 0 <= i < j < |accepted| && accepted[i].nonce == accepted[j].nonce ==>
      accepted[i].committedAt + Ttl(c) <= accepted[j].askedAt
  }

  lemma {:induction false} AskIsSound(c: Config, s: State, e: Event)
    requires Sound(c, s) && e.Ask? && s.clock <= e.mono
    ensures Sound(c, Step(c, s, e))
  {
    if e.id !in s.pending && Admits(c, s, e.created, e.nonce, e.mono) {
      forall a | a in s.accepted ensures Clears(c, a, e.nonce, e.mono) {
        var i :| 0 <= i < |s.accepted| && s.accepted[i] == a;
        assert s.history[i] in s.history;
      }
    }
  }

  lemma {:induction false} CommitIsSound(c: Config, s: State, e: Event)
    requires Sound(c, s) && e.Commit? && Timely(c, s, e)
    ensures Sound(c, Step(c, s, e))
  {
    if e.id in s.pending && CommitVerdict(c, s, s.pending[e.id], e.mono).Fresh? {
      var p := s.pending[e.id];
      var t := Step(c, s, e);
      forall i | 0 <= i < |s.accepted| && s.accepted[i].nonce == p.nonce
        ensures s.accepted[i].committedAt + Ttl(c) <= p.askedAt {
        assert s.history[i] in s.history;
        assert s.accepted[i] in s.accepted && Clears(c, s.accepted[i], p.nonce, p.askedAt);
      }
    }
  }

  lemma {:induction false} RunIsSound(c: Config, clock: real, events: seq<Event>)
    requires TimelyRun(c, Start(clock), events)
    ensures Sound(c, Run(c, Start(clock), events))
  {
    if events != [] {
      var front, e := events[..|events| - 1], events[|events| - 1];
      RunIsSound(c, clock, front);
      var s := Run(c, Start(clock), front);
      match e
      case Ask(_, _, _, _) => AskIsSound(c, s, e);
      case Commit(_, _) => CommitIsSound(c, s, e);
      case Refuse(_, _) =>
    }
  }

  predicate AcceptsTwice(s: State) {
    exists i, j :: 0 <= i < j < |s.accepted| && s.accepted[i].created == s.accepted[j].created
      && s.accepted[i].nonce == s.accepted[j].nonce
  }

  lemma {:induction false} FloorApart(x: real, y: real, n: int)
    requires x + n as real <= y
    ensures x.Floor + n <= y.Floor
  {}

  lemma {:induction false} WallApart(c: Config, early: real, late: real, seconds: int)
    requires early + (seconds * 1000) as real <= late
    ensures WallSeconds(c, early) + seconds <= WallSeconds(c, late)
  {
    FloorApart((c.offset + early) / 1000.0, (c.offset + late) / 1000.0, seconds);
  }

  /** A TTL of at least `2 * skew + 1` seconds is wider than one freshness window, so it takes two creation times. */
  lemma {:induction false} TtlOutlastsWindow(c: Config, a: Acceptance, b: Acceptance)
    requires ReplayTtlSeconds(c.skew) <= c.ttlSeconds
    requires FreshAt(c, a.created, a.askedAt) && FreshAt(c, b.created, b.askedAt) && a.askedAt + Ttl(c) <= b.askedAt
    ensures a.created != b.created
  {
    WallApart(c, a.askedAt, b.askedAt, c.ttlSeconds);
  }

  lemma {:induction false} SoundAcceptsOnce(c: Config, s: State)
    requires ReplayTtlSeconds(c.skew) <= c.ttlSeconds && Sound(c, s)
    ensures !AcceptsTwice(s)
  {
    var accepted := s.accepted;
    forall i, j | 0 <= i < j < |accepted| && accepted[i].nonce == accepted[j].nonce
      ensures accepted[i].created != accepted[j].created {
      assert accepted[i] in accepted && accepted[j] in accepted;
      TtlOutlastsWindow(c, accepted[i], accepted[j]);
    }
  }

  /**
   * No double acceptance: under the derived TTL, or a longer one, no interleaving of runs accepts the same nonce with
   * the same creation time twice.
   */
  lemma {:induction false} NoDoubleAcceptance(c: Config, clock: real, events: seq<Event>)
    requires ReplayTtlSeconds(c.skew) <= c.ttlSeconds && TimelyRun(c, Start(clock), events)
    ensures !AcceptsTwice(Run(c, Start(clock), events))
  {
    RunIsSound(c, clock, events);
    SoundAcceptsOnce(c, Run(c, Start(clock), events));
  }

  // -------- Both hypotheses are needed --------

  lemma {:induction false} RunSnoc(c: Config, bound: real, s: State, events: seq<Event>, e: Event)
    ensures Run(c, s, events + [e]) == Step(c, Run(c, s, events), e)
    ensures RunWithin(c, bound, s, events + [e]) <==>
      RunWithin(c, bound, s, events) && Within(bound, Run(c, s, events), e)
  {
    assert (events + [e])[..|events|] == events;
  }

  /** An admitted request commits the instant it asked, and nothing stands in its way. */
  lemma {:induction false} AcceptedAtOnce(c: Config, s: State, events: seq<Event>, id: nat, created: int, nonce: Text,
      mono: real) returns (after: seq<Event>)
    requires TimelyRun(c, s, events) && Run(c, s, events).clock <= mono
      && id !in Run(c, s, events).pending && c.ttlSeconds > 0
    requires Admits(c, Run(c, s, events), created, nonce, mono)
    requires |Live(Run(c, s, events).history, mono, Ttl(c))| < c.maxEntries
    ensures TimelyRun(c, s, after) && Run(c, s, after).clock == mono
      && Run(c, s, after).pending == Run(c, s, events).pending
    ensures Run(c, s, after).accepted == Run(c, s, events).accepted + [Acceptance(created, nonce, mono, mono)]
    ensures Run(c, s, after).history == Run(c, s, events).history + [Recorded(nonce, mono)]
  {
    var asked := events + [Ask(id, created, nonce, mono)];
    RunSnoc(c, Ttl(c), s, events, Ask(id, created, nonce, mono));
    RunSnoc(c, Ttl(c), s, asked, Commit(id, mono));
    after := asked + [Commit(id, mono)];
    assert Run(c, s, asked).pending - {id} == Run(c, s, events).pending;
  }

  /** Any TTL of at most `2 * skew` is too short: the signature is replayed before its window ends. */
  lemma {:induction false} ShortTtlReplays(c: Config, nonce: Text) returns (events: seq<Event>)
    requires 0 < c.ttlSeconds <= 2 * c.skew <= MAX_SAFE_INTEGER && c.maxEntries >= 1
    ensures TimelyRun(c, Start(-c.offset), events) && AcceptsTwice(Run(c, Start(-c.offset), events))
  {
    var first := -c.offset;
    var second := first + Ttl(c);
    var s := Start(first);
    assert Live([], first, Ttl(c)) == {};
    WallApart(c, first, second, c.ttlSeconds);
    events := AcceptedAtOnce(c, s, [], 0, c.skew, nonce, first);
    assert Live([Recorded(nonce, first)], second, Ttl(c)) == {};
    assert WallSeconds(c, second) == c.ttlSeconds;
    events := AcceptedAtOnce(c, s, events, 1, c.skew, nonce, second);
    var accepted := Run(c, s, events).accepted;
    assert accepted[0].created == accepted[1].created && accepted[0].nonce == accepted[1].nonce;
  }

  /** No timely interleaving whatever accepts one request twice. */
  ghost predicate NeverAcceptsTwice(c: Config) {
    forall clock: real, events: seq<Event> :: TimelyRun(c, Start(clock), events) ==>
      !AcceptsTwice(Run(c, Start(clock), events))
  }

  /** `2 * skew + 1` is exactly the least retention that closes the replay window. */
  lemma {:induction false} DerivedTtlIsLeast(c: Config)
    requires 0 < c.ttlSeconds && 2 * c.skew <= MAX_SAFE_INTEGER && c.maxEntries >= 1
    ensures NeverAcceptsTwice(c) <==> ReplayTtlSeconds(c.skew) <= c.ttlSeconds
  {
    if ReplayTtlSeconds(c.skew) <= c.ttlSeconds {
      forall clock: real, events: seq<Event> | TimelyRun(c, Start(clock), events)
        ensures !AcceptsTwice(Run(c, Start(clock), events)) {
        NoDoubleAcceptance(c, clock, events);
      }
    } else {
      var events := ShortTtlReplays(c, []);
    }
  }

  /** Both ask at one instant; one commits at once and the other a whole TTL later. */
  function StalledRun(c: Config, nonce: Text): seq<Event> {
    var start := -c.offset;
    [Ask(0, 0, nonce, start), Ask(1, 0, nonce, start), Commit(0, start), Commit(1, start + Ttl(c))]
  }

  /**
   * The peek alone does not protect a run that stalls: if one asks before its twin commits and
   * itself commits a whole TTL later, both are accepted, however long the TTL. Up to that last
   * commit the run is as prompt as a run can be.
   */
  lemma {:induction false} StalledRunReplays(c: Config, nonce: Text, bound: real)
    requires 0 < c.ttlSeconds && c.maxEntries >= 1 && Ttl(c) < bound
    ensures RunWithin(c, bound, Start(-c.offset), StalledRun(c, nonce))
    ensures TimelyRun(c, Start(-c.offset), StalledRun(c, nonce)[..3])
    ensures AcceptsTwice(Run(c, Start(-c.offset), StalledRun(c, nonce)))
  {
    var front, last := StalledRun(c, nonce)[..3], Commit(1, -c.offset + Ttl(c));
    PromptSoFar(c, nonce, bound);
    PromptSoFar(c, nonce, Ttl(c));
    RunSnoc(c, bound, Start(-c.offset), front, last);
    assert front + [last] == StalledRun(c, nonce);
    LateCommitAccepted(c, nonce);
  }

  /** After the prompt commit, with the twin still to come. */
  function TwinPending(c: Config, nonce: Text): State {
    var start := -c.offset;
    State(start, map[1 := Pending(0, nonce, start)], [Acceptance(0, nonce, start, start)], [Recorded(nonce, start)])
  }

  lemma {:induction false} PromptSoFar(c: Config, nonce: Text, within: real)
    requires 0 < c.ttlSeconds && c.maxEntries >= 1 && 0.0 < within
    ensures RunWithin(c, within, Start(-c.offset), StalledRun(c, nonce)[..3])
    ensures Run(c, Start(-c.offset), StalledRun(c, nonce)[..3]) == TwinPending(c, nonce)
  {
    var start := -c.offset;
    var s, p := Start(start), Pending(0, nonce, start);
    var e0, e1, e2 := Ask(0, 0, nonce, start), Ask(1, 0, nonce, start), Commit(0, start);
    BothAsk(c, nonce, start);
    FirstCommits(c, nonce);
    RunSnoc(c, within, s, [], e0);
    RunSnoc(c, within, s, [e0], e1);
    RunSnoc(c, within, s, [e0, e1], e2);
    assert [] + [e0] == [e0] && [e0] + [e1] == [e0, e1] && [e0, e1] + [e2] == StalledRun(c, nonce)[..3];
  }

  lemma {:induction false} BothAsk(c: Config, nonce: Text, start: real)
    requires start == -c.offset
    ensures var p := Pending(0, nonce, start);
      && Step(c, Start(start), Ask(0, 0, nonce, start)) == State(start, map[0 := p], [], [])
      && Step(c, Step(c, Start(start), Ask(0, 0, nonce, start)), Ask(1, 0, nonce, start)) ==
        State(start, map[0 := p, 1 := p], [], [])
  {
    assert WallSeconds(c, start) == 0;
  }

  lemma {:induction false} FirstCommits(c: Config, nonce: Text)
    requires 0 < c.ttlSeconds && c.maxEntries >= 1
    ensures var start, p := -c.offset, Pending(0, nonce, -c.offset);
      Step(c, State(start, map[0 := p, 1 := p], [], []), Commit(0, start)) == TwinPending(c, nonce)
  {
    var start := -c.offset;
    assert WallSeconds(c, start) == 0 && Live([], start, Ttl(c)) == {};
  }

  lemma {:induction false} LateCommitAccepted(c: Config, nonce: Text)
    requires 0 < c.ttlSeconds && c.maxEntries >= 1
    ensures AcceptsTwice(Step(c, TwinPending(c, nonce), Commit(1, -c.offset + Ttl(c))))
  {
    var start := -c.offset;
    assert WallSeconds(c, start) == 0 && Live([Recorded(nonce, start)], start + Ttl(c), Ttl(c)) == {};
    var accepted := Step(c, TwinPending(c, nonce), Commit(1, start + Ttl(c))).accepted;
    assert accepted[0].created == accepted[1].created && accepted[0].nonce == accepted[1].nonce;
  }

  lemma {:induction false} TighterRun(c: Config, bound: real, looser: real, s: State, events: seq<Event>)
    requires bound <= looser && RunWithin(c, bound, s, events)
    ensures RunWithin(c, looser, s, events)
  {
    if events != [] { TighterRun(c, bound, looser, s, events[..|events| - 1]); }
  }

  /** No interleaving in which every run commits within the bound accepts one request twice. */
  ghost predicate NeverTwiceWithin(c: Config, bound: real) {
    forall clock: real, events: seq<Event> :: RunWithin(c, bound, Start(clock), events) ==>
      !AcceptsTwice(Run(c, Start(clock), events))
  }

  /** Under the derived TTL, or a longer one, a TTL is exactly how long a run may take to commit. */
  lemma {:induction false} StallBoundIsTtl(c: Config, bound: real)
    requires ReplayTtlSeconds(c.skew) <= c.ttlSeconds && c.maxEntries >= 1
    ensures NeverTwiceWithin(c, bound) <==> bound <= Ttl(c)
  {
    if bound <= Ttl(c) {
      forall clock: real, events: seq<Event> | RunWithin(c, bound, Start(clock), events)
        ensures !AcceptsTwice(Run(c, Start(clock), events))
      {
        TighterRun(c, bound, Ttl(c), Start(clock), events);
        NoDoubleAcceptance(c, clock, events);
      }
    } else {
      StalledRunReplays(c, [], bound);
    }
  }

  // -------- The surface --------

  /** A request surface: its nonce guard, and the history of its runs. */
  class Surface {
    const config: Config
    const guard: NonceGuard
    ghost var state: State

    constructor (config: Config, ghost start: real)
      ensures config == this.config && Valid() && state == Start(start) && fresh(guard)
    {
      this.config := config;
      guard := new NonceGuard(config.ttlSeconds, config.maxEntries, start);
      state := Start(start);
    }

    ghost predicate Valid()
      reads this, guard
    {
      && guard.Valid() && guard.ttlMs == config.ttlSeconds * 1000 && guard.maxEntries == config.maxEntries
      && guard.history == state.history && guard.clock <= state.clock
      && Sound(config, state)
    }

    /** Freshness, then the peek, at one instant; `id` names the run. */
    method AskPhase(ghost id: nat, created: int, nonce: Text, mono: real) returns (admitted: bool)
      requires Valid() && state.clock <= mono && id !in state.pending
      modifies `state
      ensures Valid() && state == Step(config, old(state), Ask(id, created, nonce, mono))
      ensures admitted <==> id in state.pending
    {
      AskIsSound(config, state, Ask(id, created, nonce, mono));
      var nowSeconds := WallSeconds(config, mono);
      ghost var before := state;
      state := Step(config, state, Ask(id, created, nonce, mono));
      if nowSeconds - created > config.skew || created - nowSeconds > config.skew {
        return false;
      }
      var peeked := guard.Peek(nonce, Some(nowSeconds), mono);
      return peeked.Fresh?;
    }

    /** The commit, with the nonce and the reading of the wall clock the run asked with. */
    method CommitPhase(ghost id: nat, nonce: Text, nowSeconds: int, mono: real) returns (verdict: NonceVerdict)
      requires Valid() && Timely(config, state, Commit(id, mono))
      requires id in state.pending && state.pending[id].nonce == nonce
        && WallSeconds(config, state.pending[id].askedAt) == nowSeconds
      modifies this, guard
      ensures Valid() && state == Step(config, old(state), Commit(id, mono))
      ensures verdict == CommitVerdict(config, old(state), old(state).pending[id], mono)
    {
      CommitIsSound(config, state, Commit(id, mono));
      verdict := guard.Check(nonce, Some(nowSeconds), mono);
      state := Step(config, state, Commit(id, mono));
    }

    /** Whatever the surface has been through, it has accepted nothing twice. */
    lemma {:induction false} AcceptsNothingTwice()
      requires Valid() && ReplayTtlSeconds(config.skew) <= config.ttlSeconds
      ensures !AcceptsTwice(state)
    {
      SoundAcceptsOnce(config, state);
    }
  }
}
