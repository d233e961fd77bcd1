/**
 * What a key-event log must be to replay clean, and what is wrong with one that does not
 * (packages/crypto/src/log.ts:395-862), in terms of the primitives alone.
 */
module SoundLogs {
  import opened Common
  import opened SignatureSets
  import opened Metering
  import opened KeyEvents
  import opened KeyLog

  // -------- Quorums --------

  /** Signature `i` verifies over the text under key `a[i]`, and the keys come in their own order. */
  ghost predicate InKeyOrder(c: Primitives, a: seq<nat>, signature: seq<Text>, text: Text, keys: seq<Text>) {
    && |a| == |signature|
    && (forall i :: 0 <= i < |a| ==> a[i] < |keys| && c.verify(signature[i], text, keys[a[i]]))
    && (forall i, j :: 0 <= i < j < |a| ==> a[i] < a[j])
  }

  /** Every signature verifies, under keys in their own order. */
  ghost predicate InSomeOrder(c: Primitives, signature: seq<Text>, text: Text, keys: seq<Text>) {
    exists a :: InKeyOrder(c, a, signature, text, keys)
  }

  /** The text is signed by exactly the threshold of distinct keys, in key order. */
  ghost predicate QuorumSigns(c: Primitives, signature: seq<Text>, text: Text, keys: seq<Text>, threshold: Text) {
    && Distinct(keys) && 1 <= |signature| <= |keys| && threshold == Decimal(|signature|)
    && InSomeOrder(c, signature, text, keys)
  }

  ghost predicate VerifiesText(c: Primitives, signature: seq<Text>, text: Text, keys: seq<Text>,
      verifyAt: (nat, nat) -> bool) {
    forall m, k :: 0 <= m < |signature| && 0 <= k < |keys| ==>
      (verifyAt(m, k) <==> c.verify(signature[m], text, keys[k]))
  }

  lemma {:induction false} ConformableInKeyOrder(c: Primitives, signature: seq<Text>, text: Text, keys: seq<Text>,
      verifyAt: (nat, nat) -> bool)
    requires VerifiesText(c, signature, text, keys, verifyAt)
    ensures Conformable(|signature|, |keys|, verifyAt) <==> InSomeOrder(c, signature, text, keys)
  {
    if Conformable(|signature|, |keys|, verifyAt) {
      var a :| Assigns(a, |signature|, |keys|, verifyAt, 0, 0);
      forall i | 0 <= i < |a| ensures a[i] < |keys| && c.verify(signature[i], text, keys[a[i]]) {
        assert verifyAt(0 + i, a[i]);
      }
      assert InKeyOrder(c, a, signature, text, keys);
    }
    if a :| InKeyOrder(c, a, signature, text, keys) {
      assert Assigns(a, |signature|, |keys|, verifyAt, 0, 0);
    }
  }

  // -------- Sound events and logs --------

  ghost predicate SoundEvent(c: Primitives, e: KeyEvent) {
    && |e.keys| <= MAX_KEY_EVENT_KEYS
    && (forall i :: 0 <= i < |e.signature| ==> c.signatureDecodes(e.signature[i]))
    && (forall i :: 0 <= i < |e.keys| ==> c.keyDecodes(e.keys[i]))
    && QuorumSigns(c, e.signature, UnsignedText(e), e.keys, e.threshold)
  }

  /** The event that founds an identity: numbered zero, after nothing, under the id of its own data. */
  ghost predicate Founds(c: Primitives, e: KeyEvent) {
    e.kind == Icp && e.seqNo == Decimal(0) && e.prior == None && e.id == ParticipantId(c, e)
  }

  ghost predicate Numbered(c: Primitives, previous: KeyEvent, e: KeyEvent) {
    exists n :: c.number(previous.seqNo) == Some(n) && c.number(e.seqNo) == Some(n + 1)
  }

  /** A rotation of the identity that follows, names and reveals what `previous` committed to. */
  ghost predicate Reveals(c: Primitives, id: Text, previous: KeyEvent, e: KeyEvent) {
    && e.kind == Rot && e.id == id && Numbered(c, previous, e)
    && e.prior == Some(EventDigest(c, previous))
    && previous.next == StateCommitment(c, e.keys, e.threshold)
  }

  ghost predicate SoundAt(c: Primitives, events: seq<KeyEvent>, i: nat)
    requires i < |events|
  {
    && SoundEvent(c, events[i])
    && if i == 0 then Founds(c, events[0]) else Reveals(c, events[0].id, events[i - 1], events[i])
  }

  ghost predicate SoundLog(c: Primitives, events: seq<KeyEvent>) {
    && 0 < |events| <= MAX_KEY_LOG_EVENTS
    && forall i :: 0 <= i < |events| ==> SoundAt(c, events, i)
  }

  /** The states a log establishes: one per event, with that event's keys, under that event's digest. */
  ghost predicate Establishes(c: Primitives, events: seq<KeyEvent>, states: seq<AnchoredKeyState>) {
    && |states| == |events|
    && forall i :: 0 <= i < |events| ==>
      states[i] == AnchoredKeyState(events[0].id, events[i].keys, events[i].threshold, events[i].seqNo,
        EventDigest(c, events[i]))
  }

  // -------- Replay accepts the sound logs --------

  /** The structure and the signatures of an event pass exactly when a quorum of its own keys signs it. */
  lemma {:induction false} EventAcceptance(c: Primitives, e: KeyEvent)
    requires |e.keys| <= MAX_KEY_EVENT_KEYS
    ensures JudgeSignatures(c, e, true).verdict.None? <==> SoundEvent(c, e)
  {
    var m, verifyAt := |e.signature|, EventVerifies(c, e);
    KeyStateAcceptance(e.keys, e.threshold, m);
    WalkDecides(m, |e.keys|, verifyAt, 0, 0);
    ConformableInKeyOrder(c, e.signature, UnsignedText(e), e.keys, verifyAt);
  }

  lemma {:induction false} InceptionAcceptance(c: Primitives, e: KeyEvent)
    ensures InceptionError(c, e).None? <==> Founds(c, e) && |e.keys| <= MAX_KEY_EVENT_KEYS
  {}

  /** The chain checks of a rotation: what it reveals, and that its own state is one it could satisfy. */
  lemma {:induction false} RotationAcceptance(c: Primitives, inception: KeyEvent, previous: KeyEvent, e: KeyEvent)
    ensures RotationError(c, inception, previous, e).None? <==>
      && Reveals(c, inception.id, previous, e) && |e.keys| <= MAX_KEY_EVENT_KEYS && Distinct(e.keys)
      && exists t :: 1 <= t <= |e.keys| && e.threshold == Decimal(t)
  {
    RotationAccepted(c, inception, previous, e);
    if |e.keys| <= MAX_KEY_EVENT_KEYS {
      ConformsToSome(e.keys, e.threshold);
    }
  }

  lemma {:induction false} ConformsToSome(keys: seq<Text>, threshold: Text)
    requires |keys| <= MAX_SAFE_INTEGER
    ensures CheckKeyState(keys, threshold).Conforming? <==>
      Distinct(keys) && exists t :: 1 <= t <= |keys| && threshold == Decimal(t)
  {
    if CheckKeyState(keys, threshold).Conforming? {
      KeyStateAcceptance(keys, threshold, CheckKeyState(keys, threshold).threshold);
    }
    if Distinct(keys) {
      forall t | 1 <= t <= |keys| && threshold == Decimal(t) ensures CheckKeyState(keys, threshold) == Conforming(t) {
        KeyStateAcceptance(keys, threshold, t);
      }
    }
  }

  lemma {:induction false} ValidAtIsSound(c: Primitives, events: seq<KeyEvent>, i: nat)
    requires i < |events|
    ensures ValidAt(c, events, i) <==> SoundAt(c, events, i)
  {
    var e := events[i];
    if i == 0 { InceptionAcceptance(c, e); } else { RotationAcceptance(c, events[0], events[i - 1], e); }
    if |e.keys| <= MAX_KEY_EVENT_KEYS {
      EventAcceptance(c, e);
    }
  }

  lemma {:induction false} ValidLogIsSound(c: Primitives, events: seq<KeyEvent>)
    ensures ValidLog(c, events) <==> SoundLog(c, events)
  {
    forall i | 0 <= i < |events| ensures ValidAt(c, events, i) <==> SoundAt(c, events, i) {
      ValidAtIsSound(c, events, i);
    }
  }

  lemma {:induction false} StatesAreEstablished(c: Primitives, events: seq<KeyEvent>, states: seq<AnchoredKeyState>)
    ensures Establishes(c, events, states) <==> states == StatesOf(c, events)
  {}

  /** A full replay accepts exactly the sound logs, and answers with the states they establish. */
  lemma {:induction false} ReplayAcceptsSoundLogs(c: Primitives, events: seq<KeyEvent>, states: seq<AnchoredKeyState>)
    ensures Judge(c, events, 0).verdict == States(states) <==> SoundLog(c, events) && Establishes(c, events, states)
  {
    ReplayAcceptsValidLogs(c, events);
    ValidLogIsSound(c, events);
    StatesAreEstablished(c, events, states);
  }

  // -------- What is wrong with a log that is rejected --------

  ghost predicate StateFault(code: Rejection, keys: seq<Text>, threshold: Text) {
    match code
    case StateRepeatsKey => !Distinct(keys)
    case ThresholdMalformed => forall t :: 1 <= t <= MAX_SAFE_INTEGER ==> threshold != Decimal(t)
    case ThresholdExceedsKeyCount => exists t :: |keys| < t <= MAX_SAFE_INTEGER && threshold == Decimal(t)
    case _ => false
  }

  /** Members before `member` have keys in order to verify under; up to `member` itself they have none. */
  ghost predicate FirstUnassignable(c: Primitives, signature: seq<Text>, text: Text, keys: seq<Text>, member: nat) {
    && member < |signature|
    && InSomeOrder(c, signature[..member], text, keys)
    && !InSomeOrder(c, signature[..member + 1], text, keys)
  }

  /** The fault an error names is one the event has. */
  ghost predicate FaultAt(c: Primitives, events: seq<KeyEvent>, i: nat, error: ReplayError)
    requires i < |events|
  {
    var e := events[i];
    match error
    case NotAnInception => i == 0 && !(e.kind == Icp && e.seqNo == Decimal(0) && e.prior == None)
    case IdDoesNotMatchInception => i == 0 && e.id != ParticipantId(c, e)
    case TooManyKeys => |e.keys| > MAX_KEY_EVENT_KEYS
    case NotARotation => i > 0 && e.kind != Rot
    case DifferentParticipant => i > 0 && e.id != events[0].id
    case SequenceNotContiguous => i > 0 && !Numbered(c, events[i - 1], e)
    case DoesNotChain => i > 0 && e.prior != Some(EventDigest(c, events[i - 1]))
    case DoesNotRevealCommitment => i > 0 && events[i - 1].next != StateCommitment(c, e.keys, e.threshold)
    case InvalidKeyState(code) => StateFault(code, e.keys, e.threshold)
    case MoreSignaturesThanKeys => |e.signature| > |e.keys|
    case WrongSignatureCount => e.threshold != Decimal(|e.signature|)
    case UndecodableMember =>
      || (exists j :: 0 <= j < |e.signature| && !c.signatureDecodes(e.signature[j]))
      || (exists j :: 0 <= j < |e.keys| && !c.keyDecodes(e.keys[j]))
    case SignatureNotAssignable(member) => FirstUnassignable(c, e.signature, UnsignedText(e), e.keys, member)
    case _ => false
  }

  lemma {:induction false} RefusedStateIsFaulty(keys: seq<Text>, threshold: Text)
    ensures CheckKeyState(keys, threshold).Refused? ==> StateFault(CheckKeyState(keys, threshold).code, keys, threshold)
  {
    DistinctIffSetSize(keys);
    forall t | 1 <= t <= MAX_SAFE_INTEGER && threshold == Decimal(t) ensures ParseThreshold(threshold) == Some(t) {
      ThresholdTextUnique(threshold, t);
    }
    if ParseThreshold(threshold).Some? {
      ThresholdTextUnique(threshold, ParseThreshold(threshold).value);
    }
  }

  /** The member the walk names is the first that cannot be assigned. */
  lemma {:induction false} WalkNamesFault(c: Primitives, signature: seq<Text>, text: Text, keys: seq<Text>,
      verifyAt: (nat, nat) -> bool, member: nat)
    requires VerifiesText(c, signature, text, keys, verifyAt)
    requires Walk(|signature|, |keys|, verifyAt, 0, 0).failed == Some(member)
    ensures FirstUnassignable(c, signature, text, keys, member)
  {
    WalkNamesFirstUnassignable(|signature|, |keys|, verifyAt, 0, 0, member);
    ConformableInKeyOrder(c, signature[..member], text, keys, verifyAt);
    ConformableInKeyOrder(c, signature[..member + 1], text, keys, verifyAt);
  }

  lemma {:induction false} StructureFault(c: Primitives, events: seq<KeyEvent>, i: nat)
    requires i < |events|
    ensures StructureError(c, events[i]).Some? ==> FaultAt(c, events, i, StructureError(c, events[i]).value)
  {
    var e := events[i];
    RefusedStateIsFaulty(e.keys, e.threshold);
    if CheckKeyState(e.keys, e.threshold).Conforming? && e.threshold == Decimal(|e.signature|) {
      ThresholdTextUnique(e.threshold, CheckKeyState(e.keys, e.threshold).threshold);
      DecimalInjective(|e.signature|, CheckKeyState(e.keys, e.threshold).threshold);
    }
  }

  lemma {:induction false} ChainFault(c: Primitives, events: seq<KeyEvent>, i: nat)
    requires i < |events|
    ensures ChainError(c, events, i).Some? ==> FaultAt(c, events, i, ChainError(c, events, i).value)
  {
    var e := events[i];
    RefusedStateIsFaulty(e.keys, e.threshold);
    forall t | 1 <= t <= MAX_SAFE_INTEGER && e.threshold == Decimal(t) ensures ParseThreshold(e.threshold) == Some(t) {
      ThresholdTextUnique(e.threshold, t);
    }
    if ParseThreshold(e.threshold).Some? {
      ThresholdTextUnique(e.threshold, ParseThreshold(e.threshold).value);
    }
  }

  lemma {:induction false} EventFault(c: Primitives, events: seq<KeyEvent>, i: nat)
    requires i < |events|
    ensures var error := JudgeEvent(c, events, i, 0).verdict; error.Some? ==> FaultAt(c, events, i, error.value)
  {
    var e := events[i];
    ChainFault(c, events, i);
    StructureFault(c, events, i);
    if EventWalk(c, e).failed.Some? {
      WalkNamesFault(c, e.signature, UnsignedText(e), e.keys, EventVerifies(c, e), EventWalk(c, e).failed.value);
    }
  }

  lemma {:induction false} RunNamesFirst<E>(stages: seq<Work<Option<E>>>, i: nat) returns (j: nat)
    requires i <= |stages| && RunStages(stages, i).verdict.Some?
    ensures i <= j < |stages| && stages[j].verdict == RunStages(stages, i).verdict
    ensures forall k :: i <= k < j ==> stages[k].verdict.None?
    decreases |stages| - i
  {
    if stages[i].verdict.Some? {
      j := i;
    } else {
      j := RunNamesFirst(stages, i + 1);
    }
  }

  /** What a rejection says of the log: its length, or a fault of event `i`, the events before it being sound. */
  ghost predicate TrueOf(c: Primitives, events: seq<KeyEvent>, i: nat, error: ReplayError) {
    if error.TooManyEvents? then |events| > MAX_KEY_LOG_EVENTS
    else if error.EmptyLog? then events == []
    else i < |events| && (forall j :: 0 <= j < i ==> SoundAt(c, events, j)) && FaultAt(c, events, i, error)
  }

  lemma {:induction false} StagePasses(c: Primitives, events: seq<KeyEvent>, j: nat)
    requires j < |events| && Stages(c, events, 0)[j].verdict.None?
    ensures SoundAt(c, events, j)
  {
    EventPassesIffValid(c, events, j);
    ValidAtIsSound(c, events, j);
  }

  lemma {:induction false} FaultIsTrue(c: Primitives, events: seq<KeyEvent>, i: nat)
    requires i < |events| && Stages(c, events, 0)[i].verdict.Some?
    requires forall k :: 0 <= k < i ==> Stages(c, events, 0)[k].verdict.None?
    ensures TrueOf(c, events, i, Stages(c, events, 0)[i].verdict.value)
  {
    EventFault(c, events, i);
    forall j | 0 <= j < i ensures SoundAt(c, events, j) {
      StagePasses(c, events, j);
    }
  }

  /** A rejection names a fault of the first event that is not sound, or the length of the log. */
  lemma {:induction false} RejectionIsTrue(c: Primitives, events: seq<KeyEvent>) returns (i: nat)
    requires Judge(c, events, 0).verdict.Rejected?
    ensures TrueOf(c, events, i, Judge(c, events, 0).verdict.error)
  {
    i := 0;
    if 0 < |events| <= MAX_KEY_LOG_EVENTS {
      i := RunNamesFirst(Stages(c, events, 0), 0);
      FaultIsTrue(c, events, i);
    }
  }

  // -------- Anchors --------

  /** The events of a sound log have different digests, so an anchor names at most one of them. */
  lemma {:induction false} AnchorNamesOneEvent(c: Primitives, events: seq<KeyEvent>, i: nat, j: nat)
    requires CollisionFree(c) && SoundLog(c, events) && i < |events| && j < |events|
    requires EventDigest(c, events[i]) == EventDigest(c, events[j])
    ensures i == j
  {
    ValidLogIsSound(c, events);
    PrefixValid(c, events, i + 1);
    PrefixValid(c, events, j + 1);
    EqualTipsMeanEqualLogs(c, events[..i + 1], events[..j + 1]);
  }
}
