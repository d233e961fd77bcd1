/**
 * Concrete key logs, for the inputs at which a documented claim fails: every event repeats one key
 * state, all of whose keys sign.
 */
module SampleLogs {
  import opened Common
  import opened SignatureSets
  import opened Metering
  import opened KeyEvents
  import opened KeyLog

  const BAD: Text := Ascii("bad")
  const GOOD: Text := Ascii("good")

  function ReadNumber(t: Text): Option<int> {
    if t != [] && AllDigits(t) then Some(DigitsValue(t)) else None
  }

  /** Digests are the texts themselves, and every signature but one verifies. */
  function SamplePrimitives(): Primitives {
    Primitives(t => t, (signature, message, key) => signature != BAD, t => true, t => true, ReadNumber)
  }

  lemma {:induction false} SampleIsCollisionFree()
    ensures CollisionFree(SamplePrimitives())
  {}

  lemma {:induction false} SampleReadsDecimals(n: nat)
    ensures SamplePrimitives().number(Decimal(n)) == Some(n)
  {
    DecimalRoundTrip(n);
  }

  /** The keys of one participant, numbered after its name. */
  function SampleKeys(name: Text, width: nat): (keys: seq<Text>)
    ensures |keys| == width
  {
    seq(width, i requires 0 <= i < width => name + Decimal(i))
  }

  lemma {:induction false} SampleStateConforms(name: Text, width: nat)
    requires 1 <= width <= MAX_KEY_EVENT_KEYS
    ensures CheckKeyState(SampleKeys(name, width), Decimal(width)) == Conforming(width)
  {
    var keys := SampleKeys(name, width);
    forall i, j | 0 <= i < j < |keys| ensures keys[i] != keys[j] {
      if keys[i] == keys[j] {
        assert Decimal(i) == keys[i][|name|..] && Decimal(j) == keys[j][|name|..];
        DecimalInjective(i, j);
      }
    }
    KeyStateAcceptance(keys, Decimal(width), width);
  }

  function GoodSignatures(width: nat): (signature: seq<Text>)
    ensures |signature| == width
  {
    seq(width, i => GOOD)
  }

  /** An event of the sample state, committing to the same state again. */
  function SampleEvent(name: Text, width: nat, id: Text, seqNo: Text, prior: Option<Text>, kind: Kind): KeyEvent {
    var keys := SampleKeys(name, width);
    KeyEvent(id, seqNo, prior, kind, keys, Decimal(width),
      StateCommitment(SamplePrimitives(), keys, Decimal(width)), GoodSignatures(width))
  }

  function SampleId(name: Text, width: nat): Text {
    ParticipantId(SamplePrimitives(), SampleEvent(name, width, [], Decimal(0), None, Icp))
  }

  /** The first `n` events of the participant's log. */
  function SampleLog(name: Text, width: nat, n: nat): (log: seq<KeyEvent>)
    requires n >= 1
    ensures |log| == n
  {
    var id := SampleId(name, width);
    if n == 1 then [SampleEvent(name, width, id, Decimal(0), None, Icp)]
    else
      var front := SampleLog(name, width, n - 1);
      front + [SampleEvent(name, width, id, Decimal(n - 1), Some(EventDigest(SamplePrimitives(), front[n - 2])), Rot)]
  }

  /** All its keys sign, so an event of the sample state is accepted. */
  lemma {:induction false} SampleEventAccepted(e: KeyEvent, name: Text, width: nat)
    requires 1 <= width <= MAX_KEY_EVENT_KEYS
    requires e.keys == SampleKeys(name, width) && e.threshold == Decimal(width) && e.signature == GoodSignatures(width)
    ensures StructureError(SamplePrimitives(), e) == None && EventWalk(SamplePrimitives(), e) == Walked(None, width)
  {
    SampleStateConforms(name, width);
    assert GOOD[0] != BAD[0];
    WalkInStep(width, width, EventVerifies(SamplePrimitives(), e), 0);
  }

  /** When each member verifies under the key at its own place, the walk goes in step. */
  lemma {:induction false} WalkInStep(n: nat, good: nat, verifyAt: (nat, nat) -> bool, i: nat)
    requires i <= good <= n && (good < n ==> good + 1 == n && !verifyAt(good, good))
    requires forall j: nat :: j < good ==> verifyAt(j, j)
    ensures Walk(n, n, verifyAt, i, i) == Walked(if good == n then None else Some(good), n - i)
    decreases n - i
  {
    if i < good {
      WalkInStep(n, good, verifyAt, i + 1);
    } else if good < n {
      assert Walk(n, n, verifyAt, good, n) == Walked(Some(good), 0);
    }
  }

  lemma {:induction false} SampleLogIsValid(name: Text, width: nat, n: nat)
    requires 1 <= width <= MAX_KEY_EVENT_KEYS && 1 <= n <= MAX_KEY_LOG_EVENTS
    ensures var log := SampleLog(name, width, n);
      && ValidLog(SamplePrimitives(), log) && log[0].id == SampleId(name, width) && log[n - 1].seqNo == Decimal(n - 1)
      && log[n - 1].next == StateCommitment(SamplePrimitives(), SampleKeys(name, width), Decimal(width))
    decreases n
  {
    var c, log := SamplePrimitives(), SampleLog(name, width, n);
    SampleEventAccepted(log[n - 1], name, width);
    if n > 1 {
      var front := SampleLog(name, width, n - 1);
      SampleLogIsValid(name, width, n - 1);
      SampleReadsDecimals(n - 2);
      SampleReadsDecimals(n - 1);
      SampleStateConforms(name, width);
      RotationAccepted(c, front[0], front[n - 2], log[n - 1]);
      ExtendValidLog(c, front, log[n - 1]);
    } else {
      assert ValidAt(c, log, 0);
    }
  }

  /** One event costs its keys. */
  lemma {:induction false} SampleLogCost(name: Text, width: nat)
    requires 1 <= width <= MAX_KEY_EVENT_KEYS
    ensures Judge(SamplePrimitives(), SampleLog(name, width, 1), 0) ==
      Work(States(StatesOf(SamplePrimitives(), SampleLog(name, width, 1))), width)
  {
    var c, log := SamplePrimitives(), SampleLog(name, width, 1);
    SampleLogIsValid(name, width, 1);
    SampleEventAccepted(log[0], name, width);
    assert ValidAt(c, log, 0);
    var stages := Stages(c, log, 0);
    assert stages[0] == Work(None, width) && RunStages(stages, 1) == Work(None, 0);
  }

  lemma {:induction false} SampleLogFront(name: Text, width: nat, n: nat)
    requires n > 1
    ensures SampleLog(name, width, n)[..n - 1] == SampleLog(name, width, n - 1)
  {}

  /** An earlier copy of a sample log is a prefix of a later one. */
  lemma {:induction false} SampleLogGrows(name: Text, width: nat, m: nat, n: nat)
    requires 1 <= m <= n
    ensures SampleLog(name, width, n)[..m] == SampleLog(name, width, m)
    decreases n
  {
    var log := SampleLog(name, width, n);
    if m < n {
      SampleLogFront(name, width, n);
      SampleLogGrows(name, width, m, n - 1);
      assert log[..m] == log[..n - 1][..m];
    } else {
      assert log[..n] == log;
    }
  }

  /** The id tells the name. */
  lemma {:induction false} SampleIdNames(a: Text, b: Text, width: nat)
    requires width >= 1 && |a| == |b| && SampleId(a, width) == SampleId(b, width)
    ensures a == b
  {
    SampleIsCollisionFree();
    ParticipantIdInjective(SamplePrimitives(), SampleEvent(a, width, [], Decimal(0), None, Icp),
      SampleEvent(b, width, [], Decimal(0), None, Icp));
    assert a + Decimal(0) == SampleKeys(a, width)[0] == SampleKeys(b, width)[0] == b + Decimal(0);
    assert a == (a + Decimal(0))[..|a|] && b == (b + Decimal(0))[..|b|];
  }

  // -------- A log whose last event is badly signed --------

  lemma {:induction false} SampleEventShape(name: Text, width: nat, n: nat, i: nat)
    requires i < n
    ensures var e := SampleLog(name, width, n)[i];
      e.keys == SampleKeys(name, width) && e.threshold == Decimal(width) && e.signature == GoodSignatures(width)
    decreases n
  {
    if i < n - 1 {
      SampleEventShape(name, width, n - 1, i);
    }
  }

  function Spoil(e: KeyEvent): KeyEvent
    requires e.signature != []
  {
    e.(signature := e.signature[..|e.signature| - 1] + [BAD])
  }

  /** The first `n` events, the last of them with a last signature that does not verify. */
  function SpoiledLog(name: Text, width: nat, n: nat): (log: seq<KeyEvent>)
    requires n >= 1 && width >= 1
    ensures |log| == n
  {
    var log := SampleLog(name, width, n);
    SampleEventShape(name, width, n, n - 1);
    log[..n - 1] + [Spoil(log[n - 1])]
  }

  lemma {:induction false} SpoiledEventFails(e: KeyEvent, name: Text, width: nat)
    requires 1 <= width <= MAX_KEY_EVENT_KEYS
    requires e.keys == SampleKeys(name, width) && e.threshold == Decimal(width) && e.signature == GoodSignatures(width)
    ensures JudgeSignatures(SamplePrimitives(), Spoil(e), true) == Work(Some(SignatureNotAssignable(width - 1)), width)
  {
    SampleStateConforms(name, width);
    assert GOOD[0] != BAD[0];
    WalkInStep(width, width - 1, EventVerifies(SamplePrimitives(), Spoil(e)), 0);
  }

  /** Every stage costs the same and only the last fails. */
  lemma {:induction false} LastStageFails<E>(stages: seq<Work<Option<E>>>, i: nat, each: nat, error: E)
    requires i < |stages| && stages[|stages| - 1] == Work(Some(error), each)
    requires forall j :: 0 <= j < |stages| - 1 ==> stages[j] == Work(None, each)
    ensures RunStages(stages, i) == Work(Some(error), (|stages| - i) * each)
    decreases |stages| - i
  {
    if i < |stages| - 1 {
      LastStageFails(stages, i + 1, each, error);
      OneMore(|stages| - i - 1, each);
    }
  }

  lemma {:induction false} OneMore(n: nat, each: nat)
    ensures (n + 1) * each == each + n * each
  {}

  /** A valid log whose last event's signatures fail, all events costing the same, fails at its end. */
  lemma {:induction false} FailsAtItsEnd(c: Primitives, good: seq<KeyEvent>, log: seq<KeyEvent>, each: nat,
      error: ReplayError)
    requires ValidLog(c, good) && |log| == |good| && log[..|log| - 1] == good[..|log| - 1]
    requires forall j :: 0 <= j < |log| - 1 ==> JudgeSignatures(c, good[j], true) == Work(None, each)
    requires ChainError(c, log, |log| - 1) == None
    requires JudgeSignatures(c, log[|log| - 1], true) == Work(Some(error), each)
    ensures Judge(c, log, 0) == Work(Rejected(error), |log| * each)
  {
    var stages := Stages(c, log, 0);
    forall j | 0 <= j < |log| - 1 ensures stages[j] == Work(None, each) {
      assert log[..|log| - 1][j] == good[..|log| - 1][j];
      assert j > 0 ==> log[..|log| - 1][j - 1] == good[..|log| - 1][j - 1];
      assert log[..|log| - 1][0] == good[..|log| - 1][0];
      assert ValidAt(c, good, j);
    }
    LastStageFails(stages, 0, each, error);
  }

  lemma {:induction false} SampleEventCost(name: Text, width: nat, n: nat, j: nat)
    requires 1 <= width <= MAX_KEY_EVENT_KEYS && j < n
    ensures JudgeSignatures(SamplePrimitives(), SampleLog(name, width, n)[j], true) == Work(None, width)
  {
    SampleEventShape(name, width, n, j);
    SampleEventAccepted(SampleLog(name, width, n)[j], name, width);
  }

  lemma {:induction false} SpoiledLogShape(name: Text, width: nat, n: nat)
    requires n >= 1 && width >= 1
    ensures var good, log := SampleLog(name, width, n), SpoiledLog(name, width, n);
      log[..n - 1] == good[..n - 1] && good[n - 1].signature != [] && log[n - 1] == Spoil(good[n - 1])
  {
    SampleEventShape(name, width, n, n - 1);
  }

  /** Spoiling an event's signatures leaves its place in the log as it was. */
  lemma {:induction false} SpoiledEventChains(c: Primitives, good: seq<KeyEvent>, log: seq<KeyEvent>)
    requires ValidLog(c, good) && |log| == |good| && log[..|log| - 1] == good[..|log| - 1]
    requires good[|log| - 1].signature != [] && log[|log| - 1] == Spoil(good[|log| - 1])
    ensures ChainError(c, log, |log| - 1) == None
  {
    var n := |log| - 1;
    assert ValidAt(c, good, n);
    if n == 0 {
      SameInceptionText(c, good[0], log[0]);
    } else {
      assert log[..n][0] == good[..n][0] && log[..n][n - 1] == good[..n][n - 1];
    }
  }

  /** The replay walks the whole log, every key of every event, before it rejects it. */
  lemma {:induction false} SpoiledLogFails(name: Text, width: nat, n: nat, log: seq<KeyEvent>)
    requires 1 <= width <= MAX_KEY_EVENT_KEYS && 1 <= n <= MAX_KEY_LOG_EVENTS && log == SpoiledLog(name, width, n)
    ensures Judge(SamplePrimitives(), log, 0) == Work(Rejected(SignatureNotAssignable(width - 1)), n * width)
  {
    var c, good := SamplePrimitives(), SampleLog(name, width, n);
    SampleLogIsValid(name, width, n);
    SpoiledLogShape(name, width, n);
    SpoiledEventChains(c, good, log);
    forall j | 0 <= j < n - 1 ensures JudgeSignatures(c, good[j], true) == Work(None, width) {
      SampleEventCost(name, width, n, j);
    }
    SampleEventShape(name, width, n, n - 1);
    SpoiledEventFails(good[n - 1], name, width);
    FailsAtItsEnd(c, good, log, width, SignatureNotAssignable(width - 1));
  }

  lemma {:induction false} SameInceptionText(c: Primitives, e: KeyEvent, f: KeyEvent)
    requires f == e.(signature := f.signature)
    ensures ParticipantId(c, e) == ParticipantId(c, f)
  {}
}
