/** Producing a key log (packages/crypto/src/log.ts:29-341) and the round trip through replay. */
module Identity {
  import opened Common
  import opened SignatureSets
  import opened Metering
  import opened KeyEvents
  import opened KeyLog

  /** Ed25519 on the producer's side: the key ref of a secret key, and signing. */
  datatype Signer = Signer(publicKey: Text -> Text, sign: (Text, Text) -> Text)

  /** What the producer signs, the verifier decodes and verifies. */
  ghost predicate Sound(c: Primitives, s: Signer) {
    && (forall secret :: c.keyDecodes(s.publicKey(secret)))
    && (forall secret, message ::
          c.signatureDecodes(s.sign(secret, message))
            && c.verify(s.sign(secret, message), message, s.publicKey(secret)))
  }

  /** Key pairs are their secret keys; `nextThreshold` is None once the next keys are another's. */
  datatype Identity = Identity(id: Text, log: seq<KeyEvent>, currentKeys: seq<Text>, nextKeys: seq<Text>,
      nextThreshold: Option<Text>)

  datatype CommitError = TooManyCommittedKeys | CommitsRepeatedKey | CommitsMalformedThreshold
    | CommitsUnsatisfiableThreshold

  datatype Committed = Commitment(text: Text) | Unrevealable(error: CommitError)

  datatype RotateOptions = RotateOptions(
    nextSeeds: Option<seq<Text>>,
    nextKeyCount: Option<int>,
    nextThreshold: Option<Text>,
    nextCommitment: Option<Text>)

  datatype RotateError =
    | EmptyKeyLog
    | HoldsNoNextKeys
    | ConflictingOptions
    | CommittedThresholdMalformed
    | CommittedThresholdUnsatisfiable
    | NextKeyCountOutOfRange
    | NextThresholdMalformed
    | NextThresholdUnsatisfiable
    | SeedCountMismatch
    | CannotCommit(error: CommitError)

  datatype Rotation = Rotated(identity: Identity) | CannotRotate(error: RotateError)

  /** `commitToKeyState`: only a state some conforming event could reveal is committed to. */
  function CommitToKeyState(c: Primitives, keys: seq<Text>, threshold: Text): Committed {
    if |keys| > MAX_KEY_EVENT_KEYS then Unrevealable(TooManyCommittedKeys)
    else if |set k | k in keys| != |keys| then Unrevealable(CommitsRepeatedKey)
    else match ParseThreshold(threshold)
      case None => Unrevealable(CommitsMalformedThreshold)
      case Some(t) => if t > |keys| then Unrevealable(CommitsUnsatisfiableThreshold)
        else Commitment(StateCommitment(c, keys, threshold))
  }

  function PublicKeys(s: Signer, secrets: seq<Text>): (keys: seq<Text>)
    ensures |keys| == |secrets|
  {
    seq(|secrets|, i requires 0 <= i < |secrets| => s.publicKey(secrets[i]))
  }

  function SignEvent(s: Signer, unsigned: KeyEvent, signers: seq<Text>): KeyEvent {
    unsigned.(signature := seq(|signers|, i requires 0 <= i < |signers| => s.sign(signers[i], UnsignedText(unsigned))))
  }

  function CreateIdentity(c: Primitives, s: Signer, current: Text, next: Text): Identity {
    var unsigned := KeyEvent([], Decimal(0), None, Icp, PublicKeys(s, [current]), Decimal(1),
                             StateCommitment(c, PublicKeys(s, [next]), Decimal(1)), []);
    var id := ParticipantId(c, unsigned);
    Identity(id, [SignEvent(s, unsigned.(id := id), [current])], [current], [next], Some(Decimal(1)))
  }

  /** `String(Number(previous.seq) + 1)`. */
  function NextSequence(c: Primitives, previous: KeyEvent): Text {
    match c.number(previous.seqNo)
    case Some(n) => if n + 1 < 0 then [MINUS] + Decimal(-(n + 1)) else Decimal(n + 1)
    case None => Ascii("NaN")
  }

  /** The next keys and threshold to commit to: chosen here, or nobody's after a handover. */
  datatype NextState =
    | NextState(keys: seq<Text>, threshold: Option<Text>, commitment: Text)
    | BadNext(error: RotateError)

  /** The options' checks and the commitment they lead to, in the source's order. */
  function ChooseNext(c: Primitives, s: Signer, revealed: seq<Text>, threshold: Text, options: RotateOptions,
      random: nat -> Text): NextState {
    match options.nextCommitment
    case Some(commitment) => NextState([], None, commitment)
    case None =>
      var count := match options.nextKeyCount case Some(n) => n case None => |revealed|;
      var chosen := match options.nextThreshold case Some(t) => t case None => threshold;
      if count < 1 || count > MAX_KEY_EVENT_KEYS then BadNext(NextKeyCountOutOfRange)
      else match ParseThreshold(chosen)
        case None => BadNext(NextThresholdMalformed)
        case Some(t) =>
          if t > count then BadNext(NextThresholdUnsatisfiable)
          else if options.nextSeeds.Some? && |options.nextSeeds.value| != count then BadNext(SeedCountMismatch)
          else
            var secrets := match options.nextSeeds
              case Some(seeds) => seeds
              case None => seq(count, i requires 0 <= i => random(i));
            match CommitToKeyState(c, PublicKeys(s, secrets), chosen)
            case Unrevealable(error) => BadNext(CannotCommit(error))
            case Commitment(commitment) => NextState(secrets, Some(chosen), commitment)
  }

  /** The event that reveals the committed state and commits to the next one. */
  function RotationEvent(c: Primitives, s: Signer, identity: Identity, commitment: Text): (e: KeyEvent)
    requires identity.log != [] && identity.nextThreshold.Some? && ParseThreshold(identity.nextThreshold.value).Some?
    requires ParseThreshold(identity.nextThreshold.value).value <= |identity.nextKeys|
  {
    var previous := identity.log[|identity.log| - 1];
    var unsigned := KeyEvent(identity.id, NextSequence(c, previous), Some(EventDigest(c, previous)), Rot,
                             PublicKeys(s, identity.nextKeys), identity.nextThreshold.value, commitment, []);
    SignEvent(s, unsigned, identity.nextKeys[..ParseThreshold(identity.nextThreshold.value).value])
  }

  /** `rotateIdentity`; `random` stands for the secret keys generated when no seeds are given. */
  function RotateIdentity(c: Primitives, s: Signer, identity: Identity, options: RotateOptions,
      random: nat -> Text): Rotation {
    if identity.log == [] then CannotRotate(EmptyKeyLog)
    else if identity.nextKeys == [] || identity.nextThreshold == None then CannotRotate(HoldsNoNextKeys)
    else if options.nextCommitment.Some?
      && (options.nextSeeds.Some? || options.nextThreshold.Some? || options.nextKeyCount.Some?) then
      CannotRotate(ConflictingOptions)
    else
      var revealed, threshold := identity.nextKeys, identity.nextThreshold.value;
      match ParseThreshold(threshold)
      case None => CannotRotate(CommittedThresholdMalformed)
      case Some(signerCount) =>
        if signerCount > |revealed| then CannotRotate(CommittedThresholdUnsatisfiable)
        else match ChooseNext(c, s, revealed, threshold, options, random)
          case BadNext(error) => CannotRotate(error)
          case NextState(keys, nextThreshold, commitment) =>
            Rotated(Identity(identity.id, identity.log + [RotationEvent(c, s, identity, commitment)],
              revealed, keys, nextThreshold))
  }

  // -------- Runs of the producer --------

  datatype RotateCall = RotateCall(options: RotateOptions, random: nat -> Text)

  /** `createIdentity` followed by the calls; a run that throws anywhere is refused. */
  function Build(c: Primitives, s: Signer, current: Text, next: Text, calls: seq<RotateCall>): (built: Rotation)
    ensures built.Rotated? ==> |built.identity.log| == |calls| + 1
  {
    if calls == [] then Rotated(CreateIdentity(c, s, current, next))
    else match Build(c, s, current, next, calls[..|calls| - 1])
      case CannotRotate(error) => CannotRotate(error)
      case Rotated(identity) =>
        var call := calls[|calls| - 1];
        RotateIdentity(c, s, identity, call.options, call.random)
  }

  // -------- One event --------

  lemma {:induction false} CommittedStateConforms(c: Primitives, keys: seq<Text>, threshold: Text)
    ensures CommitToKeyState(c, keys, threshold).Commitment? <==>
      |keys| <= MAX_KEY_EVENT_KEYS && CheckKeyState(keys, threshold).Conforming?
    ensures CommitToKeyState(c, keys, threshold).Commitment? ==>
      CommitToKeyState(c, keys, threshold).text == StateCommitment(c, keys, threshold)
  {}

  lemma {:induction false} SignedTextUnchanged(s: Signer, unsigned: KeyEvent, signers: seq<Text>)
    requires unsigned.signature == []
    ensures UnsignedText(SignEvent(s, unsigned, signers)) == UnsignedText(unsigned)
  {}

  /** An event signed by the first `t` of its own keys satisfies its own key state. */
  lemma {:induction false} SignedEventAccepted(c: Primitives, s: Signer, unsigned: KeyEvent, secrets: seq<Text>, t: nat)
    requires Sound(c, s) && unsigned.signature == [] && unsigned.keys == PublicKeys(s, secrets) && t <= |secrets|
    requires CheckKeyState(unsigned.keys, unsigned.threshold) == Conforming(t)
    ensures var e := SignEvent(s, unsigned, secrets[..t]);
      StructureError(c, e) == None && EventWalk(c, e).failed == None
  {
    var e := SignEvent(s, unsigned, secrets[..t]);
    SignedTextUnchanged(s, unsigned, secrets[..t]);
    var verifyAt := EventVerifies(c, e);
    var a := seq(t, i requires 0 <= i => i);
    assert Assigns(a, |e.signature|, |e.keys|, verifyAt, 0, 0);
    WalkDecides(|e.signature|, |e.keys|, verifyAt, 0, 0);
  }

  // -------- What every run keeps --------

  /** The identity can rotate, and what it holds is what its log's tip commits to. */
  ghost predicate HoldsCommittedState(c: Primitives, s: Signer, identity: Identity) {
    identity.log != [] && match identity.nextThreshold
      case None => identity.nextKeys == []
      case Some(threshold) =>
        CommitToKeyState(c, PublicKeys(s, identity.nextKeys), threshold) ==
          Commitment(identity.log[|identity.log| - 1].next)
  }

  ghost predicate Kept(c: Primitives, s: Signer, identity: Identity) {
    && HoldsCommittedState(c, s, identity)
    && identity.log[0].id == identity.id
    && identity.log[|identity.log| - 1].keys == PublicKeys(s, identity.currentKeys)
    && (|identity.log| <= MAX_KEY_LOG_EVENTS ==>
          ValidLog(c, identity.log) && identity.log[|identity.log| - 1].seqNo == Decimal(|identity.log| - 1))
  }

  lemma {:induction false} SingleKeyConforms(key: Text)
    ensures CheckKeyState([key], Decimal(1)) == Conforming(1)
  {
    ThresholdTextUnique(Decimal(1), 1);
    assert (set k | k in [key]) == {key};
  }

  lemma {:induction false} CreatedIdentityKept(c: Primitives, s: Signer, current: Text, next: Text)
    requires Sound(c, s)
    ensures Kept(c, s, CreateIdentity(c, s, current, next))
  {
    var identity := CreateIdentity(c, s, current, next);
    var keys := PublicKeys(s, [current]);
    SingleKeyConforms(s.publicKey(current));
    SingleKeyConforms(s.publicKey(next));
    assert keys == [s.publicKey(current)] && PublicKeys(s, [next]) == [s.publicKey(next)];
    CommittedStateConforms(c, PublicKeys(s, [next]), Decimal(1));
    var unsigned := KeyEvent(identity.id, Decimal(0), None, Icp, keys, Decimal(1),
                             StateCommitment(c, PublicKeys(s, [next]), Decimal(1)), []);
    SignedEventAccepted(c, s, unsigned, [current], 1);
    assert [current][..1] == [current];
    assert identity.log[0] == SignEvent(s, unsigned, [current]);
    EstablishmentIgnoresId(c, unsigned, identity.log[0]);
    assert ValidAt(c, identity.log, 0);
  }

  /** The participant id covers establishment data only, not the id or the signatures. */
  lemma {:induction false} EstablishmentIgnoresId(c: Primitives, e: KeyEvent, f: KeyEvent)
    requires e.seqNo == f.seqNo && e.kind == f.kind && e.keys == f.keys
      && e.threshold == f.threshold && e.next == f.next
    ensures ParticipantId(c, e) == ParticipantId(c, f)
  {}

  /** A rotation reveals exactly the committed state: neither keys nor threshold are its to choose. */
  lemma {:induction false} RotationRevealsCommittedState(c: Primitives, s: Signer, identity: Identity,
      options: RotateOptions, random: nat -> Text)
    requires RotateIdentity(c, s, identity, options, random).Rotated?
    ensures var r := RotateIdentity(c, s, identity, options, random).identity;
      && r.id == identity.id && r.currentKeys == identity.nextKeys && |r.log| == |identity.log| + 1
      && r.log[..|identity.log|] == identity.log
      && r.log[|identity.log|].keys == PublicKeys(s, identity.nextKeys)
      && identity.nextThreshold == Some(r.log[|identity.log|].threshold)
  {}

  lemma {:induction false} ChosenNextIsHeld(c: Primitives, s: Signer, revealed: seq<Text>, threshold: Text,
      options: RotateOptions, random: nat -> Text)
    requires ChooseNext(c, s, revealed, threshold, options, random).NextState?
    ensures var n := ChooseNext(c, s, revealed, threshold, options, random);
      match n.threshold
      case None => n.keys == [] && options.nextCommitment == Some(n.commitment)
      case Some(t) => CommitToKeyState(c, PublicKeys(s, n.keys), t) == Commitment(n.commitment)
  {}

  /** The revealed event passes every check against the tip that committed to it. */
  lemma {:induction false} RotationEventAccepted(c: Primitives, s: Signer, identity: Identity, commitment: Text)
    requires Sound(c, s) && HoldsCommittedState(c, s, identity) && identity.nextThreshold.Some?
    requires CheckKeyState(PublicKeys(s, identity.nextKeys), identity.nextThreshold.value).Conforming?
    ensures var e := RotationEvent(c, s, identity, commitment);
      StructureError(c, e) == None && EventWalk(c, e).failed == None
  {
    var previous := identity.log[|identity.log| - 1];
    var unsigned := KeyEvent(identity.id, NextSequence(c, previous), Some(EventDigest(c, previous)), Rot,
                             PublicKeys(s, identity.nextKeys), identity.nextThreshold.value, commitment, []);
    SignedEventAccepted(c, s, unsigned, identity.nextKeys, ParseThreshold(identity.nextThreshold.value).value);
  }

  lemma {:induction false} RotationEventChains(c: Primitives, s: Signer, identity: Identity, commitment: Text)
    requires HoldsCommittedState(c, s, identity) && identity.nextThreshold.Some?
    requires CommitToKeyState(c, PublicKeys(s, identity.nextKeys), identity.nextThreshold.value).Commitment?
    requires identity.log[0].id == identity.id
    requires var n := |identity.log|;
      c.number(identity.log[n - 1].seqNo) == Some(n - 1) && c.number(Decimal(n)) == Some(n)
    ensures RotationError(c, identity.log[0], identity.log[|identity.log| - 1],
      RotationEvent(c, s, identity, commitment)) == None
    ensures RotationEvent(c, s, identity, commitment).seqNo == Decimal(|identity.log|)
  {
    CommittedStateConforms(c, PublicKeys(s, identity.nextKeys), identity.nextThreshold.value);
    RotationAccepted(c, identity.log[0], identity.log[|identity.log| - 1], RotationEvent(c, s, identity, commitment));
  }

  lemma {:induction false} RotatedLogValid(c: Primitives, s: Signer, identity: Identity, commitment: Text)
    requires ReadsDecimals(c) && Sound(c, s) && Kept(c, s, identity) && |identity.log| < MAX_KEY_LOG_EVENTS
    requires identity.nextThreshold.Some?
    ensures ParseThreshold(identity.nextThreshold.value).Some?
      && ParseThreshold(identity.nextThreshold.value).value <= |identity.nextKeys|
    ensures var e := RotationEvent(c, s, identity, commitment);
      ValidLog(c, identity.log + [e]) && e.seqNo == Decimal(|identity.log|)
  {
    var n := |identity.log|;
    CommittedStateConforms(c, PublicKeys(s, identity.nextKeys), identity.nextThreshold.value);
    assert c.number(identity.log[n - 1].seqNo) == Some(n - 1) && c.number(Decimal(n)) == Some(n);
    RotationEventChains(c, s, identity, commitment);
    RotationEventAccepted(c, s, identity, commitment);
    ExtendValidLog(c, identity.log, RotationEvent(c, s, identity, commitment));
  }

  lemma {:induction false} RotatedIdentityKept(c: Primitives, s: Signer, identity: Identity,
      options: RotateOptions, random: nat -> Text)
    requires ReadsDecimals(c) && Sound(c, s) && Kept(c, s, identity)
    requires RotateIdentity(c, s, identity, options, random).Rotated?
    ensures Kept(c, s, RotateIdentity(c, s, identity, options, random).identity)
  {
    var r := RotateIdentity(c, s, identity, options, random).identity;
    var n := |identity.log|;
    ChosenNextIsHeld(c, s, identity.nextKeys, identity.nextThreshold.value, options, random);
    CommittedStateConforms(c, PublicKeys(s, identity.nextKeys), identity.nextThreshold.value);
    var commitment := r.log[n].next;
    RotationEventAccepted(c, s, identity, commitment);
    assert r.log == identity.log + [RotationEvent(c, s, identity, commitment)];
    if n < MAX_KEY_LOG_EVENTS {
      RotatedLogValid(c, s, identity, commitment);
    }
  }

  lemma {:induction false} BuiltIdentityKept(c: Primitives, s: Signer, current: Text,
      next: Text, calls: seq<RotateCall>)
    requires ReadsDecimals(c) && Sound(c, s) && Build(c, s, current, next, calls).Rotated?
    ensures Kept(c, s, Build(c, s, current, next, calls).identity)
  {
    if calls == [] {
      CreatedIdentityKept(c, s, current, next);
    } else {
      var before := calls[..|calls| - 1];
      BuiltIdentityKept(c, s, current, next, before);
      var identity := Build(c, s, current, next, before).identity;
      var call := calls[|calls| - 1];
      RotatedIdentityKept(c, s, identity, call.options, call.random);
      RotationRevealsCommittedState(c, s, identity, call.options, call.random);
    }
  }

  /**
   * Producer/verifier round trip: whatever calls built the identity, its log replays clean, within
   * the default budget, to its current keys, the threshold its last event declares and the number
   * of rotations; and it does so exactly as long as the log is within the length replay admits,
   * a bound `rotateIdentity` does not itself enforce.
   */
  lemma {:induction false} BuiltLogsReplayClean(c: Primitives, s: Signer, current: Text,
      next: Text, calls: seq<RotateCall>)
    requires ReadsDecimals(c) && Sound(c, s) && Build(c, s, current, next, calls).Rotated?
    ensures var identity := Build(c, s, current, next, calls).identity;
      var run := Meter(Judge(c, identity.log, 0), DEFAULT_MAX_KEY_LOG_SIGNATURE_VERIFICATIONS);
      if |calls| < MAX_KEY_LOG_EVENTS then
        && run == Finished(States(StatesOf(c, identity.log)))
        && StatesOf(c, identity.log)[|calls|] == AnchoredKeyState(identity.id, PublicKeys(s, identity.currentKeys),
             identity.log[|calls|].threshold, Decimal(|calls|), EventDigest(c, identity.log[|calls|]))
      else run == Finished(Rejected(TooManyEvents))
  {
    BuiltIdentityKept(c, s, current, next, calls);
    var identity := Build(c, s, current, next, calls).identity;
    ReplayAcceptsValidLogs(c, identity.log);
    ReplayCostBound(c, identity.log, 0);
  }

  /** A custody handover ends the holder's line: every later rotation is refused. */
  lemma {:induction false} HandoverIsFinal(c: Primitives, s: Signer, identity: Identity, handover: RotateOptions,
      later: RotateOptions, random: nat -> Text)
    requires handover.nextCommitment.Some? && RotateIdentity(c, s, identity, handover, random).Rotated?
    ensures var r := RotateIdentity(c, s, identity, handover, random).identity;
      r.log[|r.log| - 1].next == handover.nextCommitment.value
        && RotateIdentity(c, s, r, later, random) == CannotRotate(HoldsNoNextKeys)
  {}

  // -------- Exactly what a rotation does --------

  /** The secret keys a call asks to hold next: those given, or as many new ones as it counts. */
  ghost predicate Requested(identity: Identity, options: RotateOptions, random: nat -> Text, secrets: seq<Text>) {
    && |secrets| == RequestedCount(identity, options)
    && if options.nextSeeds.Some? then secrets == options.nextSeeds.value
       else forall i :: 0 <= i < |secrets| ==> secrets[i] == random(i)
  }

  /** As many as the call says, or as the keys it reveals. */
  ghost function RequestedCount(identity: Identity, options: RotateOptions): int {
    if options.nextKeyCount.Some? then options.nextKeyCount.value else |identity.nextKeys|
  }

  /** The threshold the call says, or the one it reveals. */
  ghost function RequestedThreshold(identity: Identity, options: RotateOptions): Text
    requires identity.nextThreshold.Some?
  {
    if options.nextThreshold.Some? then options.nextThreshold.value else identity.nextThreshold.value
  }

  /** The threshold is the decimal of a number of these keys. */
  ghost predicate Satisfiable(threshold: Text, count: int) {
    exists t :: 1 <= t <= count && t <= MAX_SAFE_INTEGER && threshold == Decimal(t)
  }

  lemma {:induction false} SatisfiableIffParses(threshold: Text, count: int)
    ensures Satisfiable(threshold, count) <==>
      ParseThreshold(threshold).Some? && ParseThreshold(threshold).value <= count
  {
    if ParseThreshold(threshold).Some? {
      ThresholdTextUnique(threshold, ParseThreshold(threshold).value);
    }
    forall t: int | 1 <= t <= count && t <= MAX_SAFE_INTEGER && threshold == Decimal(t)
      ensures ParseThreshold(threshold) == Some(t) {
      ThresholdTextUnique(threshold, t);
    }
  }

  /** The identity holds a state it can reveal. */
  ghost predicate CanReveal(identity: Identity) {
    identity.log != [] && identity.nextKeys != [] && identity.nextThreshold.Some?
      && Satisfiable(identity.nextThreshold.value, |identity.nextKeys|)
  }

  /** What the call asks to commit to is a state of one to eight different keys that can meet its threshold. */
  ghost predicate CanCommitTo(s: Signer, identity: Identity, options: RotateOptions, random: nat -> Text)
    requires identity.nextThreshold.Some?
  {
    && 1 <= RequestedCount(identity, options) <= 8
    && Satisfiable(RequestedThreshold(identity, options), RequestedCount(identity, options))
    && exists secrets :: Requested(identity, options, random, secrets) && Distinct(PublicKeys(s, secrets))
  }

  /** The call hands the identity over, and asks for nothing else. */
  ghost predicate HandsOver(options: RotateOptions) {
    options.nextCommitment.Some? && options.nextSeeds.None? && options.nextThreshold.None? && options.nextKeyCount.None?
  }

  lemma {:induction false} ChoosesIff(c: Primitives, s: Signer, identity: Identity, options: RotateOptions,
      random: nat -> Text)
    requires identity.nextThreshold.Some? && options.nextCommitment.None?
    ensures ChooseNext(c, s, identity.nextKeys, identity.nextThreshold.value, options, random).NextState? <==>
      CanCommitTo(s, identity, options, random)
  {
    var count, chosen := RequestedCount(identity, options), RequestedThreshold(identity, options);
    SatisfiableIffParses(chosen, count);
    forall secrets, others
      | Requested(identity, options, random, secrets) && Requested(identity, options, random, others)
      ensures secrets == others {
    }
    if 1 <= count <= MAX_KEY_EVENT_KEYS && !(options.nextSeeds.Some? && |options.nextSeeds.value| != count) {
      var secrets := match options.nextSeeds
        case Some(seeds) => seeds
        case None => seq(count, i requires 0 <= i => random(i));
      assert Requested(identity, options, random, secrets);
      DistinctIffSetSize(PublicKeys(s, secrets));
    }
  }

  /** A rotation succeeds exactly when there is a state to reveal and a handover or a state to commit to. */
  lemma {:induction false} RotationSucceedsIff(c: Primitives, s: Signer, identity: Identity, options: RotateOptions,
      random: nat -> Text)
    ensures RotateIdentity(c, s, identity, options, random).Rotated? <==>
      CanReveal(identity) && if options.nextCommitment.Some? then HandsOver(options)
        else CanCommitTo(s, identity, options, random)
  {
    if identity.nextThreshold.Some? {
      SatisfiableIffParses(identity.nextThreshold.value, |identity.nextKeys|);
      if options.nextCommitment.None? {
        ChoosesIff(c, s, identity, options, random);
      }
    }
  }

  /** The identity holds exactly the keys and the threshold asked for, and its tip commits to exactly these. */
  lemma {:induction false} RotationHoldsRequested(c: Primitives, s: Signer, identity: Identity, options: RotateOptions,
      random: nat -> Text)
    requires RotateIdentity(c, s, identity, options, random).Rotated?
    ensures var r := RotateIdentity(c, s, identity, options, random).identity;
      && identity.nextThreshold.Some? && r.log != []
      && var tip := r.log[|r.log| - 1];
      if options.nextCommitment.Some? then
        tip.next == options.nextCommitment.value && r.nextKeys == [] && r.nextThreshold == None
      else
        && Requested(identity, options, random, r.nextKeys)
        && r.nextThreshold == Some(RequestedThreshold(identity, options))
        && tip.next == StateCommitment(c, PublicKeys(s, r.nextKeys), RequestedThreshold(identity, options))
  {
    if options.nextCommitment.None? {
      ChosenNextIsHeld(c, s, identity.nextKeys, identity.nextThreshold.value, options, random);
    }
  }

  /** The text is the integer's, with a minus sign if it is negative. */
  ghost predicate Spells(text: Text, n: int) {
    text == if n < 0 then [MINUS] + Decimal(-n) else Decimal(n)
  }

  /** Whatever the last event's number reads as, the new event's is one more. */
  lemma {:induction false} RotationCountsOn(c: Primitives, s: Signer, identity: Identity, options: RotateOptions,
      random: nat -> Text, n: int)
    requires RotateIdentity(c, s, identity, options, random).Rotated?
    requires identity.log != [] && c.number(identity.log[|identity.log| - 1].seqNo) == Some(n)
    ensures var r := RotateIdentity(c, s, identity, options, random).identity;
      r.log != [] && Spells(r.log[|r.log| - 1].seqNo, n + 1)
  {}

  /** The next rotation's event lists the keys this one was asked for, and declares the threshold. */
  lemma {:induction false} NextRotationDeclaresRequested(c: Primitives, s: Signer, identity: Identity,
      options: RotateOptions, random: nat -> Text, later: RotateOptions, laterRandom: nat -> Text)
    requires options.nextCommitment.None? && RotateIdentity(c, s, identity, options, random).Rotated?
    requires var r := RotateIdentity(c, s, identity, options, random).identity;
      RotateIdentity(c, s, r, later, laterRandom).Rotated?
    ensures var r := RotateIdentity(c, s, identity, options, random).identity;
      && identity.nextThreshold.Some?
      && var log := RotateIdentity(c, s, r, later, laterRandom).identity.log;
      && |log| == |identity.log| + 2 && log[|log| - 1].threshold == RequestedThreshold(identity, options)
      && exists secrets :: Requested(identity, options, random, secrets)
           && log[|log| - 1].keys == PublicKeys(s, secrets)
  {
    var r := RotateIdentity(c, s, identity, options, random).identity;
    RotationHoldsRequested(c, s, identity, options, random);
    RotationRevealsCommittedState(c, s, identity, options, random);
    RotationRevealsCommittedState(c, s, r, later, laterRandom);
  }

  /** A new identity holds one key and commits to the other, each on its own. */
  lemma {:induction false} CreatedIdentityHolds(c: Primitives, s: Signer, current: Text, next: Text)
    ensures var identity := CreateIdentity(c, s, current, next);
      && identity.currentKeys == [current] && identity.nextKeys == [next] && identity.nextThreshold == Some(Decimal(1))
      && |identity.log| == 1 && identity.log[0].id == identity.id == ParticipantId(c, identity.log[0])
      && identity.log[0].keys == [s.publicKey(current)] && identity.log[0].threshold == Decimal(1)
      && identity.log[0].next == StateCommitment(c, [s.publicKey(next)], Decimal(1))
  {
    var identity := CreateIdentity(c, s, current, next);
    assert PublicKeys(s, [current]) == [s.publicKey(current)] && PublicKeys(s, [next]) == [s.publicKey(next)];
    EstablishmentIgnoresId(c, identity.log[0].(id := []), identity.log[0]);
  }

  // -------- What is wrong with a rotation that is refused --------

  ghost predicate CommitFault(s: Signer, identity: Identity, options: RotateOptions, random: nat -> Text,
      error: CommitError)
  {
    error == CommitsRepeatedKey
      && exists secrets :: Requested(identity, options, random, secrets) && !Distinct(PublicKeys(s, secrets))
  }

  ghost predicate RotateFault(s: Signer, identity: Identity, options: RotateOptions, random: nat -> Text,
      error: RotateError) {
    match error
    case EmptyKeyLog => identity.log == []
    case HoldsNoNextKeys => identity.nextKeys == [] || identity.nextThreshold == None
    case ConflictingOptions => options.nextCommitment.Some? && !HandsOver(options)
    case CommittedThresholdMalformed =>
      identity.nextThreshold.Some? && !Satisfiable(identity.nextThreshold.value, MAX_SAFE_INTEGER)
    case CommittedThresholdUnsatisfiable =>
      identity.nextThreshold.Some? && !Satisfiable(identity.nextThreshold.value, |identity.nextKeys|)
        && Satisfiable(identity.nextThreshold.value, MAX_SAFE_INTEGER)
    case NextKeyCountOutOfRange =>
      options.nextCommitment.None? && !(1 <= RequestedCount(identity, options) <= 8)
    case NextThresholdMalformed =>
      options.nextCommitment.None? && identity.nextThreshold.Some?
        && !Satisfiable(RequestedThreshold(identity, options), MAX_SAFE_INTEGER)
    case NextThresholdUnsatisfiable =>
      options.nextCommitment.None? && identity.nextThreshold.Some?
        && Satisfiable(RequestedThreshold(identity, options), MAX_SAFE_INTEGER)
        && !Satisfiable(RequestedThreshold(identity, options), RequestedCount(identity, options))
    case SeedCountMismatch =>
      options.nextSeeds.Some? && |options.nextSeeds.value| != RequestedCount(identity, options)
    case CannotCommit(error) => options.nextCommitment.None? && CommitFault(s, identity, options, random, error)
  }

  lemma {:induction false} ChoiceErrorIsTrue(c: Primitives, s: Signer, identity: Identity, options: RotateOptions,
      random: nat -> Text)
    requires identity.nextThreshold.Some? && options.nextCommitment.None?
    ensures var next := ChooseNext(c, s, identity.nextKeys, identity.nextThreshold.value, options, random);
      next.BadNext? ==> RotateFault(s, identity, options, random, next.error)
  {
    var count, chosen := RequestedCount(identity, options), RequestedThreshold(identity, options);
    SatisfiableIffParses(chosen, count);
    SatisfiableIffParses(chosen, MAX_SAFE_INTEGER);
    if 1 <= count <= MAX_KEY_EVENT_KEYS && !(options.nextSeeds.Some? && |options.nextSeeds.value| != count) {
      var secrets := match options.nextSeeds
        case Some(seeds) => seeds
        case None => seq(count, i requires 0 <= i => random(i));
      assert Requested(identity, options, random, secrets);
      DistinctIffSetSize(PublicKeys(s, secrets));
    }
  }

  /** A refused rotation names a fault the identity or the call has. */
  lemma {:induction false} RotateErrorIsTrue(c: Primitives, s: Signer, identity: Identity, options: RotateOptions,
      random: nat -> Text)
    ensures var r := RotateIdentity(c, s, identity, options, random);
      r.CannotRotate? ==> RotateFault(s, identity, options, random, r.error)
  {
    if identity.nextThreshold.Some? {
      SatisfiableIffParses(identity.nextThreshold.value, |identity.nextKeys|);
      SatisfiableIffParses(identity.nextThreshold.value, MAX_SAFE_INTEGER);
      if options.nextCommitment.None? {
        ChoiceErrorIsTrue(c, s, identity, options, random);
      }
    }
  }
}
