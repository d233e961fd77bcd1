/**
 * What pre-rotation protects (packages/crypto/src/log.ts:434-493, 705-862). An adversary holds the
 * secret keys in `stolen`; every other key signs only the events of the honest log.
 */
module PreRotation {
  import opened Common
  import opened SignatureSets
  import opened Metering
  import opened KeyEvents
  import opened KeyLog

  /** Keys that are not stolen have signed no event but the honest log's own. */
  ghost predicate HonestKeysSignOnly(c: Primitives, honest: seq<KeyEvent>, stolen: set<Text>) {
    forall e, signature, key :: key !in stolen && c.verify(signature, UnsignedText(e), key) ==>
      exists j :: 0 <= j < |honest| && Unsigned(honest[j]) == Unsigned(e)
  }

  function KeySet(keys: seq<Text>): set<Text> {
    set k | k in keys
  }

  /** A state some rotation could reveal, which the event's `next` commits to. */
  ghost predicate Commits(c: Primitives, e: KeyEvent, keys: seq<Text>, threshold: Text, t: nat) {
    && |keys| <= MAX_KEY_EVENT_KEYS
    && CheckKeyState(keys, threshold) == Conforming(t)
    && (forall i :: 0 <= i < |keys| ==> c.keyDecodes(keys[i]))
    && StateCommitment(c, keys, threshold) == e.next
  }

  /** The adversary holds a quorum of the key state the event commits to. */
  ghost predicate Exposed(c: Primitives, e: KeyEvent, stolen: set<Text>) {
    exists keys, threshold, t :: Commits(c, e, keys, threshold, t) && |KeySet(keys) * stolen| >= t
  }

  /** `log` is a prefix of `honest`, except perhaps in its last event's signature array. */
  ghost predicate PrefixUpToLastSignatures(log: seq<KeyEvent>, honest: seq<KeyEvent>) {
    && 0 < |log| <= |honest|
    && (forall i :: 0 <= i < |log| - 1 ==> log[i] == honest[i])
    && Unsigned(log[|log| - 1]) == Unsigned(honest[|log| - 1])
  }

  // -------- A quorum signs --------

  /** The distinct keys an assignment uses are as many as the members. */
  lemma {:induction false} AssignedKeys(keys: seq<Text>, a: seq<nat>) returns (used: set<Text>)
    requires Distinct(keys)
    requires (forall i :: 0 <= i < |a| ==> a[i] < |keys|) && (forall i, j :: 0 <= i < j < |a| ==> a[i] < a[j])
    ensures |used| == |a| && forall k :: k in used <==> exists i :: 0 <= i < |a| && keys[a[i]] == k
  {
    if a == [] {
      used := {};
    } else {
      var n := |a| - 1;
      var rest := AssignedKeys(keys, a[..n]);
      assert keys[a[n]] !in rest;
      used := rest + {keys[a[n]]};
      forall k ensures k in used <==> exists i :: 0 <= i < |a| && keys[a[i]] == k {
        if k in rest {
          var i :| 0 <= i < n && keys[a[..n][i]] == k;
          assert keys[a[i]] == k;
        }
        if i :| 0 <= i < |a| && keys[a[i]] == k {
          if i < n { assert keys[a[..n][i]] == k; }
        }
      }
    }
  }

  /** An accepted event whose state the adversary has no quorum of carries an honest signature. */
  lemma {:induction false} HonestSigner(c: Primitives, e: KeyEvent, t: nat, stolen: set<Text>)
      returns (signature: Text, key: Text)
    requires StructureError(c, e) == None && CheckKeyState(e.keys, e.threshold) == Conforming(t)
    requires EventWalk(c, e).failed == None && |KeySet(e.keys) * stolen| < t
    ensures key !in stolen && c.verify(signature, UnsignedText(e), key)
  {
    var verifyAt := EventVerifies(c, e);
    WalkDecides(|e.signature|, |e.keys|, verifyAt, 0, 0);
    var a :| Assigns(a, |e.signature|, |e.keys|, verifyAt, 0, 0);
    DistinctIffSetSize(e.keys);
    var used := AssignedKeys(e.keys, a);
    if used <= stolen {
      assert used <= KeySet(e.keys) * stolen;
      SubsetIsSmaller(used, KeySet(e.keys) * stolen);
    }
    var k :| k in used && k !in stolen;
    var i :| 0 <= i < |a| && e.keys[a[i]] == k;
    assert verifyAt(0 + i, a[i]);
    signature, key := e.signature[i], k;
  }

  // -------- Sequence numbers are positions --------

  lemma {:induction false} SequenceNumbersCount(c: Primitives, log: seq<KeyEvent>, i: nat)
    requires ValidLog(c, log) && i < |log| && c.number(Decimal(0)).Some?
    ensures c.number(log[i].seqNo) == Some(c.number(Decimal(0)).value + i)
  {
    assert ValidAt(c, log, i);
    if i > 0 {
      SequenceNumbersCount(c, log, i - 1);
    }
  }

  lemma {:induction false} RotatedLogReadsZero(c: Primitives, log: seq<KeyEvent>)
    requires ValidLog(c, log) && |log| > 1
    ensures c.number(Decimal(0)).Some?
  {
    assert ValidAt(c, log, 0) && ValidAt(c, log, 1);
  }

  // -------- Safety --------

  /** Two valid logs of one participant start with the same inception, up to its signatures. */
  lemma {:induction false} SameInception(c: Primitives, honest: seq<KeyEvent>, log: seq<KeyEvent>)
    requires CollisionFree(c) && ValidLog(c, honest) && ValidLog(c, log) && log[0].id == honest[0].id
    ensures Unsigned(log[0]) == Unsigned(honest[0])
  {
    assert ValidAt(c, honest, 0) && ValidAt(c, log, 0);
    ParticipantIdInjective(c, log[0], honest[0]);
  }

  /** One more event: where the committed state is not exposed, it can only be the honest next event. */
  lemma {:induction false} NextEventIsHonest(c: Primitives, honest: seq<KeyEvent>, log: seq<KeyEvent>,
      stolen: set<Text>, n: nat)
    requires CollisionFree(c) && ValidLog(c, honest) && ValidLog(c, log)
    requires HonestKeysSignOnly(c, honest, stolen)
    requires 0 < n < |log| && n <= |honest|
    requires Unsigned(log[n - 1]) == Unsigned(honest[n - 1])
    requires !Exposed(c, honest[n - 1], stolen)
    ensures n < |honest| && Unsigned(log[n]) == Unsigned(honest[n]) && log[n - 1] == honest[n - 1]
  {
    var e := log[n];
    assert ValidAt(c, log, n);
    var t := CheckKeyState(e.keys, e.threshold).threshold;
    assert Commits(c, honest[n - 1], e.keys, e.threshold, t);
    var signature, key := HonestSigner(c, e, t, stolen);
    var j :| 0 <= j < |honest| && Unsigned(honest[j]) == Unsigned(e);
    RotatedLogReadsZero(c, log);
    SequenceNumbersCount(c, log, n);
    SequenceNumbersCount(c, honest, j);
    assert j == n;
    assert ValidAt(c, honest, n);
    EventDigestInjective(c, log[n - 1], honest[n - 1]);
  }

  /**
   * Pre-rotation safety over whole runs: if the adversary has no quorum of any key state the honest
   * log commits, every replay-valid log of that participant is a prefix of the honest log, up to
   * its last event's signature array. The inception's own keys may all be stolen.
   */
  lemma {:induction false} UnexposedLogsCannotFork(c: Primitives, honest: seq<KeyEvent>, log: seq<KeyEvent>,
      stolen: set<Text>, n: nat)
    requires CollisionFree(c) && ValidLog(c, honest) && ValidLog(c, log) && log[0].id == honest[0].id
    requires HonestKeysSignOnly(c, honest, stolen)
    requires 0 < n <= |log|
    requires forall i :: 0 <= i < n - 1 && i < |honest| ==> !Exposed(c, honest[i], stolen)
    ensures PrefixUpToLastSignatures(log[..n], honest)
    decreases n
  {
    if n == 1 {
      SameInception(c, honest, log);
    } else {
      UnexposedLogsCannotFork(c, honest, log, stolen, n - 1);
      assert log[..n - 1][n - 2] == log[n - 2];
      NextEventIsHonest(c, honest, log, stolen, n - 1);
      forall i | 0 <= i < n - 1 ensures log[..n][i] == honest[i] {
        if i < n - 2 { assert log[..n - 1][i] == log[i]; }
      }
    }
  }

  /**
   * Even with every current key stolen, a log that already contains the whole honest history
   * cannot be extended: only a quorum of the state its tip commits could rotate it.
   */
  lemma {:induction false} UnexposedTipCannotBeExtended(c: Primitives, honest: seq<KeyEvent>,
      log: seq<KeyEvent>, stolen: set<Text>)
    requires CollisionFree(c) && ValidLog(c, honest) && ValidLog(c, log) && honest <= log
    requires HonestKeysSignOnly(c, honest, stolen) && !Exposed(c, honest[|honest| - 1], stolen)
    ensures log == honest
  {
    if |log| > |honest| {
      assert log[|honest| - 1] == honest[|honest| - 1];
      NextEventIsHonest(c, honest, log, stolen, |honest|);
    }
  }

  // -------- The exact boundary: an exposed commitment can be forked --------

  /** With a stolen key the adversary can sign any message. */
  ghost predicate CanSign(c: Primitives, stolen: set<Text>, sign: (Text, Text) -> Text) {
    forall key, message :: key in stolen ==>
      c.verify(sign(key, message), message, key) && c.signatureDecodes(sign(key, message))
  }

  /** The first `t` stolen keys of the list, by index. */
  lemma {:induction false} StolenIndices(keys: seq<Text>, stolen: set<Text>, from: nat, t: nat) returns (a: seq<nat>)
    requires from <= |keys| && t <= |KeySet(keys[from..]) * stolen|
    ensures |a| == t && forall i :: 0 <= i < t ==> from <= a[i] < |keys| && keys[a[i]] in stolen
    ensures forall i, j :: 0 <= i < j < t ==> a[i] < a[j]
    decreases |keys| - from
  {
    if t == 0 {
      a := [];
    } else {
      assert from < |keys|;
      var here, later := KeySet(keys[from..]) * stolen, KeySet(keys[from + 1..]) * stolen;
      assert keys[from..] == [keys[from]] + keys[from + 1..];
      assert here <= later + {keys[from]};
      if keys[from] in stolen {
        SubsetIsSmaller(here, later + {keys[from]});
        var rest := StolenIndices(keys, stolen, from + 1, t - 1);
        a := [from] + rest;
      } else {
        assert here == later;
        a := StolenIndices(keys, stolen, from + 1, t);
      }
    }
  }

  /** A rotation onto the exposed state, committing to whatever the adversary likes. */
  function ForgedEvent(c: Primitives, sign: (Text, Text) -> Text, previous: KeyEvent, seqNo: Text, keys: seq<Text>,
      threshold: Text, next: Text, a: seq<nat>): (e: KeyEvent)
    requires forall i :: 0 <= i < |a| ==> a[i] < |keys|
    ensures |e.signature| == |a|
  {
    var unsigned := KeyEvent(previous.id, seqNo, Some(EventDigest(c, previous)), Rot, keys, threshold, next, []);
    unsigned.(signature := seq(|a|, i requires 0 <= i < |a| => sign(keys[a[i]], UnsignedText(unsigned))))
  }

  lemma {:induction false} UnsignedTextIgnoresSignature(e: KeyEvent, signature: seq<Text>)
    ensures UnsignedText(e.(signature := signature)) == UnsignedText(e)
  {}

  lemma {:induction false} ForgedEventAccepted(c: Primitives, sign: (Text, Text) -> Text, stolen: set<Text>,
      previous: KeyEvent, seqNo: Text, keys: seq<Text>, threshold: Text, next: Text, a: seq<nat>, t: nat)
    requires CanSign(c, stolen, sign) && Commits(c, previous, keys, threshold, t) && |a| == t
    requires (forall i :: 0 <= i < |a| ==> a[i] < |keys| && keys[a[i]] in stolen)
      && (forall i, j :: 0 <= i < j < |a| ==> a[i] < a[j])
    ensures var e := ForgedEvent(c, sign, previous, seqNo, keys, threshold, next, a);
      StructureError(c, e) == None && EventWalk(c, e).failed == None
  {
    var e := ForgedEvent(c, sign, previous, seqNo, keys, threshold, next, a);
    UnsignedTextIgnoresSignature(e, []);
    assert UnsignedText(e) == UnsignedText(Unsigned(e));
    var verifyAt := EventVerifies(c, e);
    assert Assigns(a, |e.signature|, |e.keys|, verifyAt, 0, 0);
    WalkDecides(|e.signature|, |e.keys|, verifyAt, 0, 0);
  }

  lemma {:induction false} IdConstant(c: Primitives, log: seq<KeyEvent>, i: nat)
    requires ValidLog(c, log) && i < |log|
    ensures log[i].id == log[0].id
  {
    assert ValidAt(c, log, i);
  }

  lemma {:induction false} ForgedEventChains(c: Primitives, sign: (Text, Text) -> Text, inception: KeyEvent,
      previous: KeyEvent, n: nat, keys: seq<Text>, threshold: Text, next: Text, a: seq<nat>, t: nat)
    requires previous.id == inception.id && c.number(previous.seqNo) == Some(n - 1) && c.number(Decimal(n)) == Some(n)
    requires Commits(c, previous, keys, threshold, t) && forall i :: 0 <= i < |a| ==> a[i] < |keys|
    ensures RotationError(c, inception, previous,
      ForgedEvent(c, sign, previous, Decimal(n), keys, threshold, next, a)) == None
  {
    RotationAccepted(c, inception, previous, ForgedEvent(c, sign, previous, Decimal(n), keys, threshold, next, a));
  }

  /** The adversary reveals an exposed state itself, committing to `next`. */
  lemma {:induction false} ForgeRotation(c: Primitives, sign: (Text, Text) -> Text, inception: KeyEvent,
      previous: KeyEvent, stolen: set<Text>, n: nat, next: Text)
    returns (e: KeyEvent)
    requires CanSign(c, stolen, sign) && Exposed(c, previous, stolen)
    requires previous.id == inception.id && c.number(previous.seqNo) == Some(n - 1) && c.number(Decimal(n)) == Some(n)
    ensures RotationError(c, inception, previous, e) == None && e.next == next
    ensures StructureError(c, e) == None && EventWalk(c, e).failed == None
  {
    var keys, threshold, t :| Commits(c, previous, keys, threshold, t) && |KeySet(keys) * stolen| >= t;
    assert keys[0..] == keys;
    var a := StolenIndices(keys, stolen, 0, t);
    ForgedEventChains(c, sign, inception, previous, n, keys, threshold, next, a, t);
    ForgedEventAccepted(c, sign, stolen, previous, Decimal(n), keys, threshold, next, a, t);
    e := ForgedEvent(c, sign, previous, Decimal(n), keys, threshold, next, a);
  }

  /** The honest history up to an exposed commitment, extended by a forged event that commits to `next`. */
  lemma {:induction false} ForkAt(c: Primitives, sign: (Text, Text) -> Text, honest: seq<KeyEvent>,
      stolen: set<Text>, n: nat, next: Text)
    returns (log: seq<KeyEvent>)
    requires ReadsDecimals(c) && ValidLog(c, honest) && CanSign(c, stolen, sign)
    requires 0 < n <= |honest| && n < MAX_KEY_LOG_EVENTS && Exposed(c, honest[n - 1], stolen)
    ensures ValidLog(c, log) && log[0].id == honest[0].id && |log| == n + 1 && log[n].next == next
  {
    assert c.number(Decimal(0)) == Some(0);
    SequenceNumbersCount(c, honest, n - 1);
    IdConstant(c, honest, n - 1);
    var e := ForgeRotation(c, sign, honest[0], honest[n - 1], stolen, n, next);
    PrefixValid(c, honest, n);
    ExtendValidLog(c, honest[..n], e);
    log := honest[..n] + [e];
    assert log[n] == e;
  }

  /** An exposed commitment lets the adversary publish a valid log the honest one never was. */
  lemma {:induction false} ExposedCommitmentForks(c: Primitives, sign: (Text, Text) -> Text, honest: seq<KeyEvent>,
      stolen: set<Text>, n: nat)
    returns (log: seq<KeyEvent>)
    requires ReadsDecimals(c) && ValidLog(c, honest) && CanSign(c, stolen, sign)
    requires 0 < n <= |honest| && n < MAX_KEY_LOG_EVENTS && Exposed(c, honest[n - 1], stolen)
    ensures ValidLog(c, log) && log[0].id == honest[0].id && |log| == n + 1
    ensures !PrefixUpToLastSignatures(log, honest)
  {
    var next := if n < |honest| && honest[n].next == [] then [ZERO] else [];
    log := ForkAt(c, sign, honest, stolen, n, next);
    assert n < |honest| ==> log[n].next != honest[n].next;
  }

  /**
   * Exactly when pre-rotation holds: every replay-valid log of the participant is a prefix of the
   * honest one (up to last signatures) if and only if no committed state that a further event could
   * still reveal is exposed. Stealing a quorum of the CURRENT keys of a rotated log is an exposure
   * of the event before it, so it does admit a fork at the tip.
   */
  lemma {:induction false} PreRotationIsExactlyUnexposed(c: Primitives, sign: (Text, Text) -> Text,
      honest: seq<KeyEvent>, stolen: set<Text>)
    requires CollisionFree(c) && ReadsDecimals(c) && ValidLog(c, honest)
    requires HonestKeysSignOnly(c, honest, stolen) && CanSign(c, stolen, sign)
    ensures (forall log: seq<KeyEvent> :: ValidLog(c, log) && log[0].id == honest[0].id ==>
      PrefixUpToLastSignatures(log, honest))
       <==> (forall i :: 0 <= i < |honest| && i + 1 < MAX_KEY_LOG_EVENTS ==> !Exposed(c, honest[i], stolen))
  {
    if i :| 0 <= i < |honest| && i + 1 < MAX_KEY_LOG_EVENTS && Exposed(c, honest[i], stolen) {
      var log := ExposedCommitmentForks(c, sign, honest, stolen, i + 1);
    } else {
      forall log: seq<KeyEvent> | ValidLog(c, log) && log[0].id == honest[0].id
        ensures PrefixUpToLastSignatures(log, honest) {
        UnexposedLogsCannotFork(c, honest, log, stolen, |log|);
        assert log[..|log|] == log;
      }
    }
  }
}
