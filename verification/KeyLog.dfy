/** Replaying a key-event log (packages/crypto/src/log.ts:395-862). */
module KeyLog {
  import opened Common
  import opened SignatureSets
  import opened Metering
  import opened KeyEvents

  datatype AnchoredKeyState = AnchoredKeyState(id: Text, keys: seq<Text>, threshold: Text, seqNo: Text, anchor: Text)

  datatype ReplayError =
    | TooManyEvents
    | EmptyLog
    | NotAnInception
    | TooManyKeys
    | IdDoesNotMatchInception
    | NotARotation
    | DifferentParticipant
    | SequenceNotContiguous
    | DoesNotChain
    | InvalidKeyState(code: Rejection)
    | DoesNotRevealCommitment
    | MoreSignaturesThanKeys
    | WrongSignatureCount
    | UndecodableMember
    | SignatureNotAssignable(member: nat)

  datatype Replayed = States(states: seq<AnchoredKeyState>) | Rejected(error: ReplayError)

  // -------- One event --------

  /** Everything `verifyEventSignatures` checks before any curve work. */
  function StructureError(c: Primitives, e: KeyEvent): Option<ReplayError> {
    if |e.signature| > |e.keys| then Some(MoreSignaturesThanKeys)
    else match CheckKeyState(e.keys, e.threshold)
      case Refused(code) => Some(InvalidKeyState(code))
      case Conforming(t) =>
        if |e.signature| != t then Some(WrongSignatureCount)
        else if exists i :: 0 <= i < |e.signature| && !c.signatureDecodes(e.signature[i]) then Some(UndecodableMember)
        else if exists i :: 0 <= i < |e.keys| && !c.keyDecodes(e.keys[i]) then Some(UndecodableMember)
        else None
  }

  /** Signature `member` of the event verifies under its key `key`. */
  function EventVerifies(c: Primitives, e: KeyEvent): (nat, nat) -> bool {
    (member: nat, key: nat) =>
      member < |e.signature| && key < |e.keys| && c.verify(e.signature[member], UnsignedText(e), e.keys[key])
  }

  function EventWalk(c: Primitives, e: KeyEvent): Walked {
    Walk(|e.signature|, |e.keys|, EventVerifies(c, e), 0, 0)
  }

  /** `verifyEventSignatures` without a meter: its verdict and its curve checks. */
  function JudgeSignatures(c: Primitives, e: KeyEvent, verifySignatures: bool): Work<Option<ReplayError>> {
    match StructureError(c, e)
    case Some(error) => Work(Some(error), 0)
    case None =>
      if !verifySignatures then Work(None, 0)
      else
        var w := EventWalk(c, e);
        match w.failed
        case Some(member) => Work(Some(SignatureNotAssignable(member)), w.calls)
        case None => Work(None, w.calls)
  }

  // -------- Chaining --------

  /** The checks on the inception event before its signatures. */
  function InceptionError(c: Primitives, e: KeyEvent): Option<ReplayError> {
    if e.kind != Icp || e.seqNo != Decimal(0) || e.prior != None then Some(NotAnInception)
    else if |e.keys| > MAX_KEY_EVENT_KEYS then Some(TooManyKeys)
    else if e.id != ParticipantId(c, e) then Some(IdDoesNotMatchInception)
    else None
  }

  /** `Number(event.seq) === Number(previous.seq) + 1`. */
  predicate Follows(c: Primitives, previous: KeyEvent, e: KeyEvent) {
    match (c.number(previous.seqNo), c.number(e.seqNo))
    case (Some(a), Some(b)) => b == a + 1
    case _ => false
  }

  /** The checks on a rotation before its signatures, in the source's order. */
  function RotationError(c: Primitives, inception: KeyEvent, previous: KeyEvent, e: KeyEvent): Option<ReplayError> {
    if e.kind != Rot then Some(NotARotation)
    else if e.id != inception.id then Some(DifferentParticipant)
    else if !Follows(c, previous, e) then Some(SequenceNotContiguous)
    else if e.prior != Some(EventDigest(c, previous)) then Some(DoesNotChain)
    else if |e.keys| > MAX_KEY_EVENT_KEYS then Some(TooManyKeys)
    else match ParseThreshold(e.threshold)
      case None => Some(InvalidKeyState(ThresholdMalformed))
      case Some(t) =>
        if t > |e.keys| then Some(InvalidKeyState(ThresholdExceedsKeyCount))
        else match CheckKeyState(e.keys, e.threshold)
          case Refused(code) => Some(InvalidKeyState(code))
          case Conforming(_) =>
            if StateCommitment(c, e.keys, e.threshold) != previous.next then Some(DoesNotRevealCommitment)
            else None
  }

  /** What a rotation must be to pass its chain checks. */
  lemma {:induction false} RotationAccepted(c: Primitives, inception: KeyEvent, previous: KeyEvent, e: KeyEvent)
    ensures RotationError(c, inception, previous, e) == None <==>
      && e.kind == Rot && e.id == inception.id && Follows(c, previous, e)
      && e.prior == Some(EventDigest(c, previous)) && |e.keys| <= MAX_KEY_EVENT_KEYS
      && CheckKeyState(e.keys, e.threshold).Conforming?
      && StateCommitment(c, e.keys, e.threshold) == previous.next
  {}

  function ChainError(c: Primitives, events: seq<KeyEvent>, i: nat): Option<ReplayError>
    requires i < |events|
  {
    if i == 0 then InceptionError(c, events[0]) else RotationError(c, events[0], events[i - 1], events[i])
  }

  /** One event of a log, given that the events before it passed. */
  function JudgeEvent(c: Primitives, events: seq<KeyEvent>, i: nat, proven: nat): Work<Option<ReplayError>>
    requires i < |events|
  {
    match ChainError(c, events, i)
    case Some(error) => Work(Some(error), 0)
    case None => JudgeSignatures(c, events[i], i >= proven)
  }

  // -------- A whole log --------

  function StateOf(c: Primitives, inception: KeyEvent, e: KeyEvent): AnchoredKeyState {
    AnchoredKeyState(inception.id, e.keys, e.threshold, e.seqNo, EventDigest(c, e))
  }

  /** One state per event, each under the digest of the event that established it. */
  function StatesOf(c: Primitives, events: seq<KeyEvent>): (states: seq<AnchoredKeyState>)
    ensures |states| == |events|
  {
    seq(|events|, i requires 0 <= i < |events| => StateOf(c, events[0], events[i]))
  }

  function Stages(c: Primitives, events: seq<KeyEvent>, proven: nat): (stages: seq<Work<Option<ReplayError>>>)
    ensures |stages| == |events|
  {
    seq(|events|, i requires 0 <= i < |events| => JudgeEvent(c, events, i, proven))
  }

  function Conclude(c: Primitives, events: seq<KeyEvent>, run: Work<Option<ReplayError>>): Work<Replayed> {
    Work(match run.verdict case Some(error) => Rejected(error) case None => States(StatesOf(c, events)), run.cost)
  }

  /** The unmetered replay: its verdict and the curve checks it takes. */
  function Judge(c: Primitives, events: seq<KeyEvent>, proven: nat): Work<Replayed> {
    if |events| > MAX_KEY_LOG_EVENTS then Work(Rejected(TooManyEvents), 0)
    else if events == [] then Work(Rejected(EmptyLog), 0)
    else Conclude(c, events, RunStages(Stages(c, events, proven), 0))
  }

  /** The log replays clean with every signature checked. */
  ghost predicate ValidLog(c: Primitives, events: seq<KeyEvent>) {
    && 0 < |events| <= MAX_KEY_LOG_EVENTS
    && forall i :: 0 <= i < |events| ==> ValidAt(c, events, i)
  }

  ghost predicate ValidAt(c: Primitives, events: seq<KeyEvent>, i: nat)
    requires i < |events|
  {
    && ChainError(c, events, i) == None
    && StructureError(c, events[i]) == None
    && EventWalk(c, events[i]).failed == None
  }

  lemma {:induction false} EventPassesIffValid(c: Primitives, events: seq<KeyEvent>, i: nat)
    requires i < |events|
    ensures JudgeEvent(c, events, i, 0).verdict.None? <==> ValidAt(c, events, i)
  {}

  /** A full replay accepts exactly the valid logs, and hands back one anchored state per event. */
  lemma {:induction false} ReplayAcceptsValidLogs(c: Primitives, events: seq<KeyEvent>)
    ensures Judge(c, events, 0).verdict.States? <==> ValidLog(c, events)
    ensures ValidLog(c, events) ==> Judge(c, events, 0).verdict == States(StatesOf(c, events))
  {
    if 0 < |events| <= MAX_KEY_LOG_EVENTS {
      var stages := Stages(c, events, 0);
      RunPassesIffAllPass(stages, 0);
      forall i | 0 <= i < |events| ensures stages[i].verdict.None? <==> ValidAt(c, events, i) {
        EventPassesIffValid(c, events, i);
      }
      assert ValidLog(c, events) <==> forall i :: 0 <= i < |stages| ==> stages[i].verdict.None?;
    }
  }

  // -------- The imperative replay --------

  method VerifyEventSignatures(c: Primitives, e: KeyEvent, limit: nat, verifySignatures: bool)
    returns (outcome: Metered<Option<ReplayError>>, spent: nat)
    ensures var w := JudgeSignatures(c, e, verifySignatures);
      outcome == Meter(w, limit) && spent == Charge(w, limit)
  {
    var structure := StructureError(c, e);
    if structure.Some? {
      return Finished(structure), 0;
    }
    if !verifySignatures {
      return Finished(None), 0;
    }
    var walked;
    walked, spent := MeteredWalk(|e.signature|, |e.keys|, EventVerifies(c, e), limit);
    match walked
    case BudgetExceeded => outcome := BudgetExceeded;
    case Finished(None) => outcome := Finished(None);
    case Finished(Some(member)) => outcome := Finished(Some(SignatureNotAssignable(member)));
  }

  lemma {:induction false} StatesStep(c: Primitives, events: seq<KeyEvent>, i: nat)
    requires i < |events|
    ensures StatesOf(c, events)[..i] + [StateOf(c, events[0], events[i])] == StatesOf(c, events)[..i + 1]
  {}

  /** One event of the replay: its chain checks, then its structure and signatures. */
  method VerifyEvent(c: Primitives, events: seq<KeyEvent>, index: nat, proven: nat, limit: nat)
    returns (outcome: Metered<Option<ReplayError>>, spent: nat)
    requires index < |events|
    ensures outcome == Meter(Stages(c, events, proven)[index], limit)
    ensures spent == Charge(Stages(c, events, proven)[index], limit)
  {
    var error := ChainError(c, events, index);
    if error.Some? {
      return Finished(error), 0;
    }
    outcome, spent := VerifyEventSignatures(c, events[index], limit, index >= proven);
  }

  /**
   * `runReplay`: the unmetered verdict if its whole cost fits the limit, otherwise the cost
   * refusal; what it reports as spent is the cost, or exactly the limit when it refuses.
   */
  method Replay(c: Primitives, events: seq<KeyEvent>, proven: nat, limit: nat)
    returns (outcome: Metered<Replayed>, spent: nat)
    ensures outcome == Meter(Judge(c, events, proven), limit)
    ensures spent == Charge(Judge(c, events, proven), limit)
  {
    spent := 0;
    if |events| > MAX_KEY_LOG_EVENTS {
      return Finished(Rejected(TooManyEvents)), 0;
    }
    if events == [] {
      return Finished(Rejected(EmptyLog)), 0;
    }
    ghost var stages := Stages(c, events, proven);
    ghost var run := RunStages(stages, 0);
    var states: seq<AnchoredKeyState> := [];
    var index := 0;
    while index < |events|
      invariant index <= |events| && states == StatesOf(c, events)[..index] && spent <= limit
      invariant var rest := RunStages(stages, index); run == Work(rest.verdict, spent + rest.cost)
    {
      var checked, work := VerifyEvent(c, events, index, proven, limit - spent);
      spent := spent + work;
      if checked.BudgetExceeded? {
        return BudgetExceeded, spent;
      }
      if checked.verdict.Some? {
        return Finished(Rejected(checked.verdict.value)), spent;
      }
      StatesStep(c, events, index);
      states := states + [StateOf(c, events[0], events[index])];
      index := index + 1;
    }
    assert states == StatesOf(c, events);
    outcome := Finished(States(states));
  }

  // -------- Budgets --------

  lemma {:induction false} SignatureCostBound(c: Primitives, events: seq<KeyEvent>, i: nat, proven: nat)
    requires i < |events|
    ensures JudgeEvent(c, events, i, proven).cost <= (if i < proven then 0 else MAX_KEY_EVENT_KEYS)
  {}

  /**
   * Nothing that reaches the curve is wider than a key event may be: a log the length bound admits
   * costs at most eight checks per unproven event, so the default budget never refuses one.
   */
  lemma {:induction false} ReplayCostBound(c: Primitives, events: seq<KeyEvent>, proven: nat)
    ensures Judge(c, events, proven).cost <= (if proven < |events| then (|events| - proven) * MAX_KEY_EVENT_KEYS else 0)
    ensures Judge(c, events, proven).cost <= DEFAULT_MAX_KEY_LOG_SIGNATURE_VERIFICATIONS
    ensures Meter(Judge(c, events, proven), DEFAULT_MAX_KEY_LOG_SIGNATURE_VERIFICATIONS) ==
      Finished(Judge(c, events, proven).verdict)
  {
    if 0 < |events| <= MAX_KEY_LOG_EVENTS {
      var stages := Stages(c, events, proven);
      forall j | 0 <= j < |stages| ensures stages[j].cost <= (if j < proven then 0 else MAX_KEY_EVENT_KEYS) {
        SignatureCostBound(c, events, j, proven);
      }
      RunCost(stages, 0, proven, MAX_KEY_EVENT_KEYS);
    }
  }

  /**
   * A proven prefix changes no verdict: when the first `proven` events are those of a log that
   * already replayed clean, skipping their signatures gives exactly the full replay's verdict.
   */
  lemma {:induction false} ProvenPrefixIsSound(c: Primitives, events: seq<KeyEvent>, proven: nat)
    requires proven <= |events| && (proven > 0 ==> ValidLog(c, events[..proven]))
    ensures Judge(c, events, proven).verdict == Judge(c, events, 0).verdict
  {
    var full, skipped := Stages(c, events, 0), Stages(c, events, proven);
    forall j | 0 <= j < |events| ensures full[j].verdict == skipped[j].verdict {
      if j < proven {
        var prefix := events[..proven];
        assert ValidAt(c, prefix, j);
        assert ChainError(c, events, j) == ChainError(c, prefix, j);
      }
    }
    SameVerdicts(full, skipped, 0);
  }

  lemma {:induction false} SameVerdicts<E>(a: seq<Work<Option<E>>>, b: seq<Work<Option<E>>>, i: nat)
    requires |a| == |b| && i <= |a| && forall j :: 0 <= j < |a| ==> a[j].verdict == b[j].verdict
    ensures RunStages(a, i).verdict == RunStages(b, i).verdict
    decreases |a| - i
  {
    if i < |a| { SameVerdicts(a, b, i + 1); }
  }

  // -------- Anchors --------

  /** `findAnchoredKeyState`: the first state under the anchor. */
  function FindAnchored(states: seq<AnchoredKeyState>, anchor: Text): Option<AnchoredKeyState> {
    if states == [] then None
    else if states[0].anchor == anchor then Some(states[0])
    else FindAnchored(states[1..], anchor)
  }

  lemma {:induction false} FindAnchoredInPrefix(states: seq<AnchoredKeyState>, n: nat, anchor: Text)
    requires n <= |states|
    ensures FindAnchored(states[..n], anchor).Some? ==>
      FindAnchored(states, anchor) == FindAnchored(states[..n], anchor)
  {
    if n > 0 && states[0].anchor != anchor {
      assert states[..n][1..] == states[1..][..n - 1];
      FindAnchoredInPrefix(states[1..], n - 1, anchor);
    }
  }

  /** An anchor lookup answers with a state of the log under exactly that anchor, or there is none. */
  lemma {:induction false} FindAnchoredFinds(states: seq<AnchoredKeyState>, anchor: Text)
    ensures match FindAnchored(states, anchor)
      case Some(s) => s in states && s.anchor == anchor
      case None => forall s :: s in states ==> s.anchor != anchor
  {
    if states != [] {
      FindAnchoredFinds(states[1..], anchor);
      assert states == [states[0]] + states[1..];
    }
  }

  /** Replaying a prefix of a log yields the prefix of its states. */
  lemma {:induction false} PrefixReplaysToPrefix(c: Primitives, events: seq<KeyEvent>, n: nat)
    requires 0 < n <= |events| && ValidLog(c, events)
    ensures Judge(c, events[..n], 0).verdict == States(StatesOf(c, events)[..n])
  {
    var prefix := events[..n];
    forall i | 0 <= i < n ensures ValidAt(c, prefix, i) {
      assert ValidAt(c, events, i);
      assert ChainError(c, prefix, i) == ChainError(c, events, i);
    }
    ReplayAcceptsValidLogs(c, prefix);
    assert StatesOf(c, prefix) == StatesOf(c, events)[..n];
  }

  ghost function Tip(c: Primitives, events: seq<KeyEvent>): Text
    requires events != []
  {
    EventDigest(c, events[|events| - 1])
  }

  /** The last event is an inception when alone, and otherwise names the tip before it. */
  lemma {:induction false} TipChains(c: Primitives, events: seq<KeyEvent>)
    requires ValidLog(c, events)
    ensures events[|events| - 1].prior == if |events| == 1 then None else Some(Tip(c, events[..|events| - 1]))
  {
    var n := |events| - 1;
    assert ValidAt(c, events, n);
    if n > 0 { RotationAccepted(c, events[0], events[n - 1], events[n]); }
  }

  /** The tip anchor pins the whole history: equal tips mean event-for-event equal logs. */
  lemma {:induction false} EqualTipsMeanEqualLogs(c: Primitives, a: seq<KeyEvent>, b: seq<KeyEvent>)
    requires CollisionFree(c) && ValidLog(c, a) && ValidLog(c, b) && Tip(c, a) == Tip(c, b)
    ensures a == b
    decreases |a|
  {
    var m, n := |a| - 1, |b| - 1;
    EventDigestInjective(c, a[m], b[n]);
    TipChains(c, a);
    TipChains(c, b);
    if m > 0 {
      PrefixValid(c, a, m);
      PrefixValid(c, b, n);
      EqualTipsMeanEqualLogs(c, a[..m], b[..n]);
    }
    SplitAt(a, m);
    SplitAt(b, n);
    assert a[m..] == [a[m]] && b[n..] == [b[n]];
  }

  lemma {:induction false} PrefixValid(c: Primitives, events: seq<KeyEvent>, n: nat)
    requires 0 < n <= |events| && ValidLog(c, events)
    ensures ValidLog(c, events[..n])
  {
    PrefixReplaysToPrefix(c, events, n);
    ReplayAcceptsValidLogs(c, events[..n]);
  }

  /** A valid log with room grows by any event that passes against its tip. */
  lemma {:induction false} ExtendValidLog(c: Primitives, log: seq<KeyEvent>, e: KeyEvent)
    requires ValidLog(c, log) && |log| < MAX_KEY_LOG_EVENTS
    requires RotationError(c, log[0], log[|log| - 1], e) == None
    requires StructureError(c, e) == None && EventWalk(c, e).failed == None
    ensures ValidLog(c, log + [e])
  {
    var longer := log + [e];
    forall i | 0 <= i < |longer| ensures ValidAt(c, longer, i) {
      if i < |log| {
        assert ValidAt(c, log, i);
        assert ChainError(c, longer, i) == ChainError(c, log, i);
      }
    }
  }
}
