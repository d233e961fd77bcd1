/**
 * The discovery view's memo of replayed key states (packages/verify/src/discovery-view.ts:608-679,
 * 957-1034): it removes the replay of a log that has not changed, and must change no answer.
 */
module KeyStateMemos {
  import opened Common
  import opened Metering
  import opened KeyEvents
  import opened KeyLog
  import opened SoundLogs
  import opened OrderedMaps
  import opened Operations
  import Jcs
  import Resolver

  datatype KeyState = KeyState(id: Text, keys: seq<Text>, threshold: Text, seqNo: Text)

  /** `getKeyState`: a state, `null`, or the cost refusal rethrown to a caller that carries a meter. */
  datatype Answer = Found(state: KeyState) | NoState | RefusedOnCost

  // -------- The digest of a whole log --------

  function LogValue(events: seq<KeyEvent>): (v: Jcs.Value)
    ensures v.Arr? && |v.items| == |events|
  {
    Jcs.Arr(seq(|events|, i requires 0 <= i < |events| => Jcs.Obj(EventMembers(events[i]))))
  }

  /** `canonicalDigest(events)`. */
  function LogDigest(c: Primitives, events: seq<KeyEvent>): Text {
    c.hash(match Jcs.Canonicalize(LogValue(events)) case Some(text) => text case None => [])
  }

  lemma {:induction false} LogPrints(events: seq<KeyEvent>)
    ensures Jcs.WellFormed(LogValue(events)) && Jcs.Canonicalize(LogValue(events)).Some?
  {
    var v := LogValue(events);
    forall i | 0 <= i < |events| ensures Jcs.WellFormed(v.items[i]) && Jcs.Printable(v.items[i]) {
      EventMembersPlain(events[i]);
      PlainPrints(EventMembers(events[i]));
    }
    Jcs.ThrowsIffUnprintable(v);
  }

  lemma {:induction false} EventsAlike(c: Primitives, e: KeyEvent, f: KeyEvent)
    requires CollisionFree(c) && Jcs.Same(Jcs.Obj(EventMembers(e)), Jcs.Obj(EventMembers(f)))
    ensures e == f
  {
    EventMembersPlain(e);
    EventMembersPlain(f);
    PlainPrints(EventMembers(e));
    PlainPrints(EventMembers(f));
    Jcs.CanonicalTextIffSame(Jcs.Obj(EventMembers(e)), Jcs.Obj(EventMembers(f)));
    EventDigestInjective(c, e, f);
  }

  /** Equal digests mean equal logs. */
  lemma {:induction false} LogDigestInjective(c: Primitives, a: seq<KeyEvent>, b: seq<KeyEvent>)
    requires CollisionFree(c) && LogDigest(c, a) == LogDigest(c, b)
    ensures a == b
  {
    LogPrints(a);
    LogPrints(b);
    Jcs.CanonicalTextIffSame(LogValue(a), LogValue(b));
    forall i | 0 <= i < |a| ensures a[i] == b[i] {
      assert Jcs.Same(LogValue(a).items[i], LogValue(b).items[i]);
      EventsAlike(c, a[i], b[i]);
    }
  }

  // -------- What the memo must answer --------

  function Bare(s: AnchoredKeyState): KeyState {
    KeyState(s.id, s.keys, s.threshold, s.seqNo)
  }

  /** `replayKeyLogFor` without a meter: the current state, bound to the id asked about. */
  function FullReplay(c: Primitives, id: Text, events: seq<KeyEvent>): Option<KeyState> {
    match Judge(c, events, 0).verdict
    case Rejected(_) => None
    case States(states) =>
      if states != [] && states[|states| - 1].id == id then Some(Bare(states[|states| - 1])) else None
  }

  /** A state is answered exactly for a sound log that begins with the id's own inception: its last one. */
  lemma {:induction false} FullReplayIsBound(c: Primitives, id: Text, events: seq<KeyEvent>, state: KeyState)
    ensures FullReplay(c, id, events) == Some(state) <==>
      SoundLog(c, events) && events[0].id == id && state ==
        KeyState(id, events[|events| - 1].keys, events[|events| - 1].threshold, events[|events| - 1].seqNo)
  {
    ReplayAcceptsValidLogs(c, events);
    ValidLogIsSound(c, events);
  }

  datatype Remembered = Remembered(digest: Text, state: KeyState)

  /** The entry is what a full replay of some log with that digest gives, bound to its id. */
  ghost predicate Earned(c: Primitives, id: Text, memo: Remembered) {
    exists events :: LogDigest(c, events) == memo.digest && FullReplay(c, id, events) == Some(memo.state)
  }

  lemma {:induction false} EarnedAnswers(c: Primitives, id: Text, memo: Remembered, events: seq<KeyEvent>)
    requires CollisionFree(c) && Earned(c, id, memo) && LogDigest(c, events) == memo.digest
    ensures FullReplay(c, id, events) == Some(memo.state)
  {
    var earlier :| LogDigest(c, earlier) == memo.digest && FullReplay(c, id, earlier) == Some(memo.state);
    LogDigestInjective(c, earlier, events);
  }

  /** What a replay under a ceiling answers: `null` also where a caller without a meter was refused on cost. */
  function FreshAnswer(c: Primitives, id: Text, events: seq<KeyEvent>, limit: nat, metered: bool): Answer {
    if Judge(c, events, 0).cost > limit then (if metered then RefusedOnCost else NoState)
    else match FullReplay(c, id, events)
      case Some(state) => Found(state)
      case None => NoState
  }

  /**
   * Under a ceiling that covers the replay its answer is given; else a refusal, or nothing to a caller
   * without a meter.
   */
  lemma {:induction false} FreshAnswers(c: Primitives, id: Text, events: seq<KeyEvent>, limit: nat, metered: bool)
    ensures var answer, covered := FreshAnswer(c, id, events, limit, metered), Judge(c, events, 0).cost <= limit;
      && (forall state :: answer == Found(state) <==> covered && FullReplay(c, id, events) == Some(state))
      && (answer == NoState <==> if covered then FullReplay(c, id, events) == None else !metered)
      && (answer == RefusedOnCost <==> !covered && metered)
  {}

  ghost predicate AllEarned(c: Primitives, values: map<Text, Remembered>) {
    forall id :: id in values ==> Earned(c, id, values[id])
  }

  lemma {:induction false} AppendEntry(c: Primitives, values: map<Text, Remembered>, id: Text, entry: Remembered)
    requires AllEarned(c, values) && Earned(c, id, entry)
    ensures AllEarned(c, values[id := entry])
  {}

  // -------- The memo --------

  class KeyStateMemo {
    const c: Primitives
    const maxCacheEntries: int
    /** The view's own ceiling, already a usable count. */
    const maxSignatureVerifications: nat
    var keyStates: OrderedMap<Remembered>

    constructor (c: Primitives, maxCacheEntries: int, maxSignatureVerifications: nat)
      ensures Valid() && this.c == c && this.maxCacheEntries == maxCacheEntries
        && this.maxSignatureVerifications == maxSignatureVerifications
      ensures keyStates == Empty()
    {
      this.c := c;
      this.maxCacheEntries := maxCacheEntries;
      this.maxSignatureVerifications := maxSignatureVerifications;
      keyStates := Empty();
    }

    ghost predicate Valid()
      reads this
    {
      && keyStates.Valid() && keyStates.Size() <= Ceiling(maxCacheEntries)
      && AllEarned(c, keyStates.values)
    }

    ghost predicate Hits(id: Text, events: seq<KeyEvent>)
      reads this
    {
      id in keyStates.values && keyStates.values[id].digest == LogDigest(c, events)
    }

    /** A hit moves to the back, so the front is always the least recently used. */
    method Serve(id: Text) returns (state: KeyState)
      requires Valid() && id in keyStates.values
      modifies `keyStates
      ensures Valid() && state == old(keyStates.values)[id].state
      ensures keyStates == MovedToBack(old(keyStates), id) && keyStates.values == old(keyStates.values)
    {
      state := keyStates.values[id].state;
      keyStates := MoveToBack(keyStates, id);
    }

    method Forget(id: Text)
      requires Valid()
      modifies `keyStates
      ensures Valid() && keyStates == old(keyStates).Delete(id)
      ensures id in old(keyStates.values) ==> keyStates.Size() == old(keyStates.Size()) - 1
    {
      WithoutOnce(keyStates.keys, id);
      keyStates := keyStates.Delete(id);
    }

    /** The map a new entry is added to: at the ceiling the least recently used entry makes room. */
    ghost function Room(): OrderedMap<Remembered>
      reads this
    {
      if keyStates.Size() >= maxCacheEntries && keyStates.keys != []
        then keyStates.Delete(keyStates.keys[0]) else keyStates
    }

    /** `rememberKeyState`. */
    method Remember(id: Text, digest: Text, state: KeyState)
      requires Valid() && id !in keyStates.values && Earned(c, id, Remembered(digest, state))
      modifies `keyStates
      ensures Valid() && keyStates == old(Room()).Put(id, Remembered(digest, state))
    {
      if keyStates.Size() >= maxCacheEntries && keyStates.keys != [] {
        assert keyStates.keys[0] in keyStates.keys;
        Forget(keyStates.keys[0]);
      }
      Append(id, digest, state);
    }

    method Append(id: Text, digest: Text, state: KeyState)
      requires Valid() && id !in keyStates.values && Earned(c, id, Remembered(digest, state))
        && keyStates.Size() < Ceiling(maxCacheEntries)
      modifies `keyStates
      ensures Valid() && keyStates == old(keyStates).Put(id, Remembered(digest, state))
    {
      AppendEntry(c, keyStates.values, id, Remembered(digest, state));
      PutValid(keyStates, id, Remembered(digest, state));
      keyStates := keyStates.Put(id, Remembered(digest, state));
    }

    /** The ceiling the replay of a changed log runs under. */
    ghost function ReplayLimit(operation: Operation?, budget: Budget?): nat
      requires operation != null ==> operation.Valid()
      reads this, budget, if operation == null then null else operation.local, if operation == null
        then null else operation.outer
    {
      if operation != null then Resolver.Limit(operation.FuelLeft(), DEFAULT_MAX_KEY_LOG_SIGNATURE_VERIFICATIONS)
      else if budget != null then budget.Usable()
      else SafeVerificationCount(Some(maxSignatureVerifications), DEFAULT_MAX_KEY_LOG_SIGNATURE_VERIFICATIONS)
    }

    /** The operation's meters fall by exactly this much, or the budget does when there is no operation. */
    twostate predicate Spends(operation: Operation?, budget: Budget?, spent: nat)
      reads budget, if operation == null then null else operation.local, if operation == null
        then null else operation.outer,
        if operation == null then null else operation.memo
    {
      if operation != null then operation.Took(spent, old(operation.memo.states))
      else budget != null ==> 0 <= budget.remaining == old(budget.Usable()) - spent
    }

    /** No meter moved, but for a malformed budget made usable. */
    twostate predicate SpendsNothing(operation: Operation?, budget: Budget?)
      reads budget, if operation == null then null else operation.local, if operation == null
        then null else operation.outer
    {
      && (operation != null && operation.local != null ==> operation.local.remaining == old(operation.local.remaining))
      && (operation != null && operation.outer != null ==> operation.outer.remaining == old(operation.outer.remaining))
      && (budget != null ==> budget.remaining == old(budget.Usable()))
    }

    /** The replay of a miss, charged to the operation or the budget, whichever was passed. */
    method ReplayMetered(events: seq<KeyEvent>, operation: Operation?, budget: Budget?)
        returns (replayed: Metered<Replayed>)
      requires operation != null ==> operation.Valid()
      requires budget != null ==> budget.Safe()
      modifies if operation == null then budget else operation.local
      modifies if operation == null then null else operation.outer
      ensures var w := Judge(c, events, 0);
        var limit := old(ReplayLimit(operation, budget));
        replayed == Meter(w, limit) && Spends(operation, budget, Charge(w, limit))
    {
      ReplayCostBound(c, events, 0);
      var spent;
      if operation != null {
        var meters, limit := operation.StartWork();
        replayed, spent := Replay(c, events, 0, Resolver.Limit(limit, DEFAULT_MAX_KEY_LOG_SIGNATURE_VERIFICATIONS));
        operation.FinishWork(meters, spent);
      } else if budget != null {
        replayed, spent := Replay(c, events, 0, budget.remaining);
        budget.remaining := budget.remaining - spent;
      } else {
        replayed, spent := Replay(c, events, 0,
          SafeVerificationCount(Some(maxSignatureVerifications), DEFAULT_MAX_KEY_LOG_SIGNATURE_VERIFICATIONS));
      }
    }

    /** Only a clean replay of the id's own log is remembered. */
    method Settle(id: Text, events: seq<KeyEvent>, replayed: Metered<Replayed>, metered: bool, ghost limit: nat)
        returns (answer: Answer)
      requires Valid() && id !in keyStates.values && replayed == Meter(Judge(c, events, 0), limit)
      modifies `keyStates
      ensures Valid() && answer == FreshAnswer(c, id, events, limit, metered)
      ensures keyStates == if answer.Found?
        then old(Room()).Put(id, Remembered(LogDigest(c, events), answer.state)) else old(keyStates)
    {
      match replayed
      case BudgetExceeded => return if metered then RefusedOnCost else NoState;
      case Finished(Rejected(_)) => return NoState;
      case Finished(States(states)) =>
        if states == [] || states[|states| - 1].id != id {
          return NoState;
        }
        var state := Bare(states[|states| - 1]);
        assert FullReplay(c, id, events) == Some(state);
        Remember(id, LogDigest(c, events), state);
        return Found(state);
    }

    /** A changed or unknown log: the stale entry goes first, so a refusal leaves none behind. */
    method ReplayAndRemember(id: Text, events: seq<KeyEvent>, operation: Operation?, budget: Budget?)
        returns (answer: Answer, ghost limit: nat)
      requires Valid()
      requires operation != null ==> operation.Valid()
      requires budget != null ==> budget.Safe()
      modifies `keyStates
      modifies if operation == null then budget else operation.local
      modifies if operation == null then null else operation.outer
      ensures Valid() && limit == old(ReplayLimit(operation, budget))
      ensures answer == FreshAnswer(c, id, events, limit, operation != null || budget != null)
      ensures !answer.Found? ==> id !in keyStates.values
      ensures Spends(operation, budget, Charge(Judge(c, events, 0), limit))
    {
      limit := ReplayLimit(operation, budget);
      DeleteValid(keyStates, id);
      Forget(id);
      var replayed := ReplayMetered(events, operation, budget);
      answer := Settle(id, events, replayed, operation != null || budget != null, limit);
    }

    /** A hit is the state of a log that digests the same, and so is the same. */
    lemma {:induction false} HitTellsTruth(id: Text, events: seq<KeyEvent>)
      requires Valid() && Hits(id, events) && CollisionFree(c)
      ensures FullReplay(c, id, events) == Some(keyStates.values[id].state)
    {
      EarnedAnswers(c, id, keyStates.values[id], events);
    }

    method ServeHit(id: Text, operation: Operation?, budget: Budget?) returns (answer: Answer)
      requires Valid() && id in keyStates.values && (operation != null ==> operation.Valid())
        && (budget != null ==> budget.Safe())
      modifies `keyStates
      ensures Valid() && answer == Found(old(keyStates.values)[id].state)
        && keyStates == MovedToBack(old(keyStates), id)
      ensures SpendsNothing(operation, budget)
    {
      var state := Serve(id);
      return Found(state);
    }

    /** The memo's half of `getKeyState`: the events are in hand and the budget is a usable count. */
    method AnswerFrom(id: Text, events: seq<KeyEvent>, operation: Operation?, budget: Budget?)
        returns (answer: Answer, ghost limit: nat)
      requires Valid() && (operation != null ==> operation.Valid()) && (budget != null ==> budget.Safe())
      modifies `keyStates
      modifies if operation == null then budget else operation.local
      modifies if operation == null then null else operation.outer
      ensures Valid() && limit == old(ReplayLimit(operation, budget))
      ensures old(Hits(id, events)) ==>
        answer == Found(old(keyStates.values)[id].state) && keyStates == MovedToBack(old(keyStates), id)
        && SpendsNothing(operation, budget)
      ensures !old(Hits(id, events)) ==>
        && answer == FreshAnswer(c, id, events, limit, operation != null || budget != null)
        && (!answer.Found? ==> id !in keyStates.values)
        && Spends(operation, budget, Charge(Judge(c, events, 0), limit))
    {
      limit := ReplayLimit(operation, budget);
      if id in keyStates.values && keyStates.values[id].digest == LogDigest(c, events) {
        answer := ServeHit(id, operation, budget);
      } else {
        answer, limit := ReplayAndRemember(id, events, operation, budget);
      }
    }

    /**
     * `getKeyState`, given what the lookup of the id's key log just answered. A state, whether
     * remembered or replayed, is always the one a full replay of those very events gives, bound to
     * the id; a hit spends nothing from any meter, and a miss answers as if there were no memo.
     */
    method GetKeyState(id: Text, fetched: Option<seq<KeyEvent>>, operation: Operation?, budget: Budget?)
        returns (answer: Answer, ghost limit: nat)
      requires Valid() && (operation != null ==> operation.Valid())
      modifies `keyStates
      modifies budget
      modifies if operation == null then null else operation.local
      modifies if operation == null then null else operation.outer
      ensures Valid() && limit == old(ReplayLimit(operation, budget))
      ensures CollisionFree(c) && answer.Found? ==>
        fetched.Some? && FullReplay(c, id, fetched.value) == Some(answer.state)
      ensures fetched.None? ==> answer == NoState && keyStates == old(keyStates)
      ensures fetched.Some? && old(Hits(id, fetched.value)) ==>
        && answer == Found(old(keyStates.values)[id].state) && keyStates == MovedToBack(old(keyStates), id)
        && SpendsNothing(operation, budget)
      ensures fetched.Some? && !old(Hits(id, fetched.value)) ==>
        && answer == FreshAnswer(c, id, fetched.value, limit, operation != null || budget != null)
        && (!answer.Found? ==> id !in keyStates.values)
        && Spends(operation, budget, Charge(Judge(c, fetched.value, 0), limit))
    {
      limit := ReplayLimit(operation, budget);
      if budget != null {
        budget.Normalize();
      }
      if fetched.None? {
        return NoState, limit;
      }
      if CollisionFree(c) && Hits(id, fetched.value) {
        HitTellsTruth(id, fetched.value);
      }
      answer, limit := AnswerFrom(id, fetched.value, operation, budget);
    }
  }
}
