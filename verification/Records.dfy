/**
 * Signature-set records judged against one key state (packages/crypto/src/records.ts), and why a
 * record's set has exactly one accepted form.
 */
module Records {
  import opened Common
  import opened Jcs
  import opened SignatureSets
  import opened Diagnosis
  import opened Metering
  import opened KeyEvents
  import opened KeyLog
  import opened SoundLogs

  /** A record: its fields without `signature`, and its signature set (base58btc text, which decodes). */
  datatype SetRecord = SetRecord(fields: seq<Member>, signature: seq<Text>)

  datatype SetVerdict = Accepted | NotAccepted(code: Rejection)

  datatype AnchoredVerdict = AnchorUnknown | Decided(verdict: SetVerdict)

  const ANCHOR: Text := Ascii("anchor")

  /** The record is an object with distinct names, prints, and names the key event `anchor`. */
  ghost predicate AnchoredAt(record: SetRecord, anchor: Text) {
    && Recordable(record.fields)
    && (forall i :: 0 <= i < |record.fields| ==> record.fields[i].name != SIGNATURE)
    && exists i :: 0 <= i < |record.fields| && record.fields[i] == Member(ANCHOR, Str(anchor))
  }

  /** What the members sign. */
  function SigningText(record: SetRecord): Text {
    RecordText(record.fields)
  }

  /** The digest that names the complete signed record. */
  function RecordDigest(c: Primitives, record: SetRecord): Text {
    c.hash(RecordText(record.fields + [Member(SIGNATURE, Texts(record.signature))]))
  }

  function MemberVerifies(c: Primitives, record: SetRecord, keys: seq<Text>): (nat, nat) -> bool {
    (member: nat, key: nat) =>
      member < |record.signature| && key < |keys| && c.verify(record.signature[member], SigningText(record), keys[key])
  }

  /** `checkSignatureSet` without a meter: S0 and S1 first, then the walk. */
  function JudgeSet(c: Primitives, record: SetRecord, keys: seq<Text>, threshold: Text): Work<SetVerdict> {
    match CheckKeyState(keys, threshold)
    case Refused(code) => Work(NotAccepted(code), 0)
    case Conforming(t) =>
      if |record.signature| != t then Work(NotAccepted(SignatureCountNotThreshold), 0)
      else
        var w := Walk(|record.signature|, |keys|, MemberVerifies(c, record, keys), 0, 0);
        match w.failed
        case None => Work(Accepted, w.calls)
        case Some(member) => Work(NotAccepted(NoConformingAssignment(member)), w.calls)
  }

  /** `checkAnchoredSignatureSet`: the anchored state and no other; an unknown anchor costs nothing. */
  function JudgeAnchored(c: Primitives, record: SetRecord, anchor: Text,
      states: seq<AnchoredKeyState>): Work<AnchoredVerdict> {
    match FindAnchored(states, anchor)
    case None => Work(AnchorUnknown, 0)
    case Some(state) =>
      var w := JudgeSet(c, record, state.keys, state.threshold);
      Work(Decided(w.verdict), w.cost)
  }

  /** `checkSignatureSet` under a meter. */
  method CheckSignatureSet(c: Primitives, record: SetRecord, keys: seq<Text>, threshold: Text, limit: nat)
    returns (outcome: Metered<SetVerdict>, spent: nat)
    ensures outcome == Meter(JudgeSet(c, record, keys, threshold), limit)
    ensures spent == Charge(JudgeSet(c, record, keys, threshold), limit)
  {
    match CheckKeyState(keys, threshold)
    case Refused(code) => return Finished(NotAccepted(code)), 0;
    case Conforming(t) =>
      if |record.signature| != t {
        return Finished(NotAccepted(SignatureCountNotThreshold)), 0;
      }
      var walked;
      walked, spent := MeteredWalk(|record.signature|, |keys|, MemberVerifies(c, record, keys), limit);
      match walked
      case BudgetExceeded => outcome := BudgetExceeded;
      case Finished(None) => outcome := Finished(Accepted);
      case Finished(Some(member)) => outcome := Finished(NotAccepted(NoConformingAssignment(member)));
  }

  /** One anchored check costs at most one verification per key of one state. */
  lemma {:induction false} AnchoredCostBound(c: Primitives, record: SetRecord, anchor: Text,
      states: seq<AnchoredKeyState>)
    requires forall s :: s in states ==> |s.keys| <= MAX_KEY_EVENT_KEYS
    ensures JudgeAnchored(c, record, anchor, states).cost <= MAX_KEY_EVENT_KEYS
  {
    FindAnchoredFinds(states, anchor);
  }

  /**
   * Spec 015 in one sentence: a set is accepted exactly when the state's keys differ, it holds
   * exactly the threshold of members, and they verify under distinct keys in key order.
   */
  lemma {:induction false} SetAcceptance(c: Primitives, record: SetRecord, keys: seq<Text>, threshold: Text)
    requires |keys| <= MAX_SAFE_INTEGER
    ensures JudgeSet(c, record, keys, threshold).verdict == Accepted <==>
      QuorumSigns(c, record.signature, SigningText(record), keys, threshold)
  {
    var m, verifyAt := |record.signature|, MemberVerifies(c, record, keys);
    KeyStateAcceptance(keys, threshold, m);
    WalkDecides(m, |keys|, verifyAt, 0, 0);
    ConformableInKeyOrder(c, record.signature, SigningText(record), keys, verifyAt);
  }

  /** What a rejection says of the state, of the number of signatures, or of the first one at fault. */
  ghost predicate TrueOfSet(c: Primitives, record: SetRecord, keys: seq<Text>, threshold: Text, code: Rejection) {
    match code
    case SignatureCountNotThreshold => threshold != Decimal(|record.signature|)
    case NoConformingAssignment(member) =>
      FirstUnassignable(c, record.signature, SigningText(record), keys, member)
    case _ => StateFault(code, keys, threshold)
  }

  lemma {:induction false} SetRejectionIsTrue(c: Primitives, record: SetRecord, keys: seq<Text>, threshold: Text)
    ensures var verdict := JudgeSet(c, record, keys, threshold).verdict;
      verdict.NotAccepted? ==> TrueOfSet(c, record, keys, threshold, verdict.code)
  {
    RefusedStateIsFaulty(keys, threshold);
    var m, verifyAt := |record.signature|, MemberVerifies(c, record, keys);
    if CheckKeyState(keys, threshold).Conforming? {
      ThresholdTextUnique(threshold, CheckKeyState(keys, threshold).threshold);
      if threshold == Decimal(m) { DecimalInjective(m, CheckKeyState(keys, threshold).threshold); }
      var w := Walk(m, |keys|, verifyAt, 0, 0);
      if w.failed.Some? { WalkNamesFault(c, record.signature, SigningText(record), keys, verifyAt, w.failed.value); }
    }
  }

  // -------- One state, and never any other --------

  ghost predicate FirstUnder(states: seq<AnchoredKeyState>, anchor: Text, i: nat) {
    && i < |states| && states[i].anchor == anchor
    && forall j :: 0 <= j < i ==> states[j].anchor != anchor
  }

  lemma {:induction false} FindAnchoredIsFirst(states: seq<AnchoredKeyState>, anchor: Text, i: nat)
    requires FirstUnder(states, anchor, i)
    ensures FindAnchored(states, anchor) == Some(states[i])
  {
    if i > 0 { FindAnchoredIsFirst(states[1..], anchor, i - 1); }
  }

  lemma {:induction false} FirstUnderExists(states: seq<AnchoredKeyState>, anchor: Text)
    ensures (exists i: nat :: FirstUnder(states, anchor, i)) <==>
      exists j :: 0 <= j < |states| && states[j].anchor == anchor
  {
    if states != [] && states[0].anchor == anchor {
      assert FirstUnder(states, anchor, 0);
    } else if states != [] {
      FirstUnderExists(states[1..], anchor);
      if i: nat :| FirstUnder(states[1..], anchor, i) {
        assert FirstUnder(states, anchor, i + 1);
      }
      forall j | 0 <= j < |states| && states[j].anchor == anchor ensures states[1..][j - 1].anchor == anchor {
      }
    }
  }

  /** A quorum of the first state under the anchor signs the record. */
  ghost predicate SignedUnder(c: Primitives, record: SetRecord, anchor: Text, states: seq<AnchoredKeyState>, i: nat) {
    FirstUnder(states, anchor, i)
      && QuorumSigns(c, record.signature, SigningText(record), states[i].keys, states[i].threshold)
  }

  /** Exactly one state is tried, the one the anchor names, and never any other. */
  lemma {:induction false} AnchoredAcceptance(c: Primitives, record: SetRecord, anchor: Text,
      states: seq<AnchoredKeyState>)
    requires forall s :: s in states ==> |s.keys| <= MAX_SAFE_INTEGER
    ensures JudgeAnchored(c, record, anchor, states).verdict == Decided(Accepted) <==>
      exists i: nat :: SignedUnder(c, record, anchor, states, i)
    ensures JudgeAnchored(c, record, anchor, states).verdict == AnchorUnknown <==>
      forall s :: s in states ==> s.anchor != anchor
  {
    FirstUnderExists(states, anchor);
    FindAnchoredFinds(states, anchor);
    forall i: nat | FirstUnder(states, anchor, i)
      ensures JudgeAnchored(c, record, anchor, states).verdict == Decided(Accepted) <==>
        SignedUnder(c, record, anchor, states, i) {
      FindAnchoredIsFirst(states, anchor, i);
      assert states[i] in states;
      SetAcceptance(c, record, states[i].keys, states[i].threshold);
    }
  }

  /** A quorum of the keys of the event the anchor names signs the record; the first, if digests collide. */
  ghost predicate SignedAtEvent(c: Primitives, record: SetRecord, anchor: Text, events: seq<KeyEvent>, i: nat) {
    && i < |events| && EventDigest(c, events[i]) == anchor
    && (forall j :: 0 <= j < i ==> EventDigest(c, events[j]) != anchor)
    && QuorumSigns(c, record.signature, SigningText(record), events[i].keys, events[i].threshold)
  }

  lemma {:induction false} StatesAreNarrow(c: Primitives, events: seq<KeyEvent>, states: seq<AnchoredKeyState>)
    requires SoundLog(c, events) && Establishes(c, events, states)
    ensures forall s :: s in states ==> |s.keys| <= MAX_KEY_EVENT_KEYS
  {
    forall s | s in states ensures |s.keys| <= MAX_KEY_EVENT_KEYS {
      var i :| 0 <= i < |states| && states[i] == s;
      assert SoundAt(c, events, i);
    }
  }

  /** Against a sound log a record is accepted exactly under the keys of the event whose digest it names. */
  lemma {:induction false} AcceptedAtItsEvent(c: Primitives, record: SetRecord, anchor: Text, events: seq<KeyEvent>,
      states: seq<AnchoredKeyState>)
    requires SoundLog(c, events) && Establishes(c, events, states)
    ensures JudgeAnchored(c, record, anchor, states).verdict == Decided(Accepted) <==>
      exists i: nat :: SignedAtEvent(c, record, anchor, events, i)
    ensures JudgeAnchored(c, record, anchor, states).verdict == AnchorUnknown <==>
      forall i :: 0 <= i < |events| ==> EventDigest(c, events[i]) != anchor
  {
    StatesAreNarrow(c, events, states);
    AnchoredAcceptance(c, record, anchor, states);
    forall i: nat ensures SignedUnder(c, record, anchor, states, i) <==> SignedAtEvent(c, record, anchor, events, i) {
    }
    if forall i :: 0 <= i < |events| ==> EventDigest(c, events[i]) != anchor {
      forall s | s in states ensures s.anchor != anchor {
        var i :| 0 <= i < |states| && states[i] == s;
      }
    } else {
      var i :| 0 <= i < |events| && EventDigest(c, events[i]) == anchor;
      assert states[i] in states;
    }
  }

  /** Whatever key signed an accepted record is one the named event lists: no retired key, and none to come. */
  lemma {:induction false} SignersAreListed(c: Primitives, record: SetRecord, anchor: Text, events: seq<KeyEvent>,
      states: seq<AnchoredKeyState>, i: nat, m: nat, key: Text)
    requires CollisionFree(c) && SignatureBinds(c) && SoundLog(c, events) && Establishes(c, events, states)
    requires JudgeAnchored(c, record, anchor, states).verdict == Decided(Accepted)
    requires i < |events| && EventDigest(c, events[i]) == anchor
    requires m < |record.signature| && c.verify(record.signature[m], SigningText(record), key)
    ensures key in events[i].keys
  {
    AcceptedAtItsEvent(c, record, anchor, events, states);
    var j: nat :| SignedAtEvent(c, record, anchor, events, j);
    AnchorNamesOneEvent(c, events, i, j);
    var a :| InKeyOrder(c, a, record.signature, SigningText(record), events[j].keys);
    assert c.verify(record.signature[m], SigningText(record), events[j].keys[a[m]]);
  }

  // -------- Explaining a rejection --------

  function MatrixOf(c: Primitives, record: SetRecord, keys: seq<Text>): (matrix: Matrix)
    ensures |matrix| == |record.signature| && forall m :: 0 <= m < |matrix| ==> |matrix[m]| == |keys|
  {
    seq(|record.signature|, m requires 0 <= m < |record.signature| =>
      seq(|keys|, k requires 0 <= k < |keys| => c.verify(record.signature[m], SigningText(record), keys[k])))
  }

  ghost predicate Verifies(c: Primitives, record: SetRecord, keys: seq<Text>, m: nat, k: nat) {
    m < |record.signature| && k < |keys| && c.verify(record.signature[m], SigningText(record), keys[k])
  }

  ghost predicate VerifiesSomewhere(c: Primitives, record: SetRecord, keys: seq<Text>, m: nat) {
    exists k :: Verifies(c, record, keys, m, k)
  }

  /** Each member verifies under some listed key. */
  ghost predicate EachVerifies(c: Primitives, record: SetRecord, keys: seq<Text>) {
    forall m :: 0 <= m < |record.signature| ==> VerifiesSomewhere(c, record, keys, m)
  }

  /** Member `m` verifies under key `f[m]`, and no key serves two members. */
  ghost predicate ServedApart(c: Primitives, record: SetRecord, keys: seq<Text>, f: seq<nat>) {
    && |f| == |record.signature|
    && (forall m :: 0 <= m < |f| ==> Verifies(c, record, keys, m, f[m]))
    && (forall m, n :: 0 <= m < n < |f| ==> f[m] != f[n])
  }

  lemma {:induction false} MatrixVerifies(c: Primitives, record: SetRecord, keys: seq<Text>, m: nat, k: nat)
    ensures Edge(MatrixOf(c, record, keys), m, k) <==> Verifies(c, record, keys, m, k)
  {}

  lemma {:induction false} MatrixMeans(c: Primitives, record: SetRecord, keys: seq<Text>)
    ensures EveryRowVerifies(MatrixOf(c, record, keys)) <==> EachVerifies(c, record, keys)
    ensures InjectivelyAssignable(MatrixOf(c, record, keys)) <==> exists f :: ServedApart(c, record, keys, f)
  {
    var matrix := MatrixOf(c, record, keys);
    forall m: nat, k: nat ensures Edge(matrix, m, k) <==> Verifies(c, record, keys, m, k) {
      MatrixVerifies(c, record, keys, m, k);
    }
    if EveryRowVerifies(matrix) {
      forall m | 0 <= m < |record.signature| ensures VerifiesSomewhere(c, record, keys, m) {
        assert RowVerifies(matrix, m);
        var k :| Edge(matrix, m, k);
        assert Verifies(c, record, keys, m, k);
      }
    }
    if EachVerifies(c, record, keys) {
      forall m | 0 <= m < |matrix| ensures RowVerifies(matrix, m) {
        assert VerifiesSomewhere(c, record, keys, m);
        var k :| Verifies(c, record, keys, m, k);
        assert Edge(matrix, m, k);
      }
    }
    if f :| InjectiveAssignment(matrix, f) {
      assert ServedApart(c, record, keys, f);
    }
    if f :| ServedApart(c, record, keys, f) {
      assert InjectiveAssignment(matrix, f);
    }
  }

  /**
   * The `explain` refinement of a walk rejection names the true cause: some member verifies under
   * no key; or all do but not under distinct keys; or distinct keys exist and only the order fails.
   */
  method ExplainRejection(c: Primitives, record: SetRecord, keys: seq<Text>) returns (cause: Option<Cause>)
    ensures cause.None? <==> InSomeOrder(c, record.signature, SigningText(record), keys)
    ensures cause == Some(MemberVerifiesUnderNoListedKey) <==> !EachVerifies(c, record, keys)
    ensures cause == Some(MembersNotInjectivelyAssignable) <==>
      EachVerifies(c, record, keys) && !exists f :: ServedApart(c, record, keys, f)
  {
    var failed, calls := WalkSignatureSet(|record.signature|, |keys|, MemberVerifies(c, record, keys));
    ghost var matrix := MatrixOf(c, record, keys);
    ConformableInKeyOrder(c, record.signature, SigningText(record), keys, MemberVerifies(c, record, keys));
    MatrixMeans(c, record, keys);
    if failed.None? {
      ghost var a :| Assigns(a, |record.signature|, |keys|, MemberVerifies(c, record, keys), 0, 0);
      OrderedIsInjective(c, record, keys, a);
      return None;
    }
    var code := DiagnoseAssignment(MatrixOf(c, record, keys));
    cause := Some(code);
  }

  /** An increasing assignment is an injective one. */
  lemma {:induction false} OrderedIsInjective(c: Primitives, record: SetRecord, keys: seq<Text>, a: seq<nat>)
    requires Assigns(a, |record.signature|, |keys|, MemberVerifies(c, record, keys), 0, 0)
    ensures InjectiveAssignment(MatrixOf(c, record, keys), a)
    ensures EveryRowVerifies(MatrixOf(c, record, keys))
  {
    var matrix := MatrixOf(c, record, keys);
    forall m | 0 <= m < |matrix| ensures Edge(matrix, m, a[m]) && RowVerifies(matrix, m) {
      assert MemberVerifies(c, record, keys)(0 + m, a[m]);
      assert Edge(matrix, m, a[m]);
    }
  }

  // -------- One accepted form per record --------

  /** A signature verifies under at most one key and over at most one message. */
  ghost predicate SignatureBinds(c: Primitives) {
    forall s, m1, m2, k1, k2 :: c.verify(s, m1, k1) && c.verify(s, m2, k2) ==> m1 == m2 && k1 == k2
  }

  /** Strictly increasing positions below their own number are all the positions. */
  lemma {:induction false} FullPositions(p: seq<nat>, n: nat, j: nat)
    requires |p| == n && (forall i :: 0 <= i < n ==> p[i] < n) && (forall i, k :: 0 <= i < k < n ==> p[i] < p[k])
    requires j < n
    ensures p[j] == j
  {
    PositionAtLeast(p, n, j);
    PositionAtMost(p, n, j);
  }

  lemma {:induction false} PositionAtLeast(p: seq<nat>, n: nat, j: nat)
    requires |p| == n && (forall i, k :: 0 <= i < k < n ==> p[i] < p[k]) && j < n
    ensures p[j] >= j
  {
    if j > 0 { PositionAtLeast(p, n, j - 1); }
  }

  lemma {:induction false} PositionAtMost(p: seq<nat>, n: nat, j: nat)
    requires |p| == n && (forall i :: 0 <= i < n ==> p[i] < n)
      && (forall i, k :: 0 <= i < k < n ==> p[i] < p[k]) && j < n
    ensures p[j] <= j
    decreases n - j
  {
    if j < n - 1 { PositionAtMost(p, n, j + 1); }
  }

  /** A member that two records share verifies at one key index, the same in both. */
  lemma {:induction false} SharedMemberSameKey(c: Primitives, a: SetRecord, b: SetRecord, keys: seq<Text>,
      fa: seq<nat>, fb: seq<nat>, i: nat, j: nat)
    requires SignatureBinds(c) && Distinct(keys)
    requires Assigns(fa, |a.signature|, |keys|, MemberVerifies(c, a, keys), 0, 0)
    requires Assigns(fb, |b.signature|, |keys|, MemberVerifies(c, b, keys), 0, 0)
    requires i < |a.signature| && j < |b.signature| && a.signature[i] == b.signature[j]
    ensures fa[i] == fb[j]
  {
    assert MemberVerifies(c, a, keys)(0 + i, fa[i]) && MemberVerifies(c, b, keys)(0 + j, fb[j]);
    assert c.verify(a.signature[i], SigningText(a), keys[fa[i]])
      && c.verify(b.signature[j], SigningText(b), keys[fb[j]]);
  }

  /** Two increasing lists of one length, each element of one found in the other: the positions are 0, 1, 2, ... */
  lemma {:induction false} IncreasingPositions(fa: seq<nat>, fb: seq<nat>, p: seq<nat>, j: nat)
    requires |fa| == |fb| == |p| && j < |p|
    requires (forall i, k :: 0 <= i < k < |fa| ==> fa[i] < fa[k])
      && (forall i, k :: 0 <= i < k < |fb| ==> fb[i] < fb[k])
    requires forall i :: 0 <= i < |p| ==> p[i] < |fa| && fa[p[i]] == fb[i]
    ensures p[j] == j
  {
    forall i, k | 0 <= i < k < |p| ensures p[i] < p[k] {
      assert fb[i] < fb[k];
    }
    FullPositions(p, |p|, j);
  }

  /** Accepted sets over one state drawn from the same members are the same set. */
  lemma {:induction false} SameStateSameSet(c: Primitives, a: SetRecord, b: SetRecord, keys: seq<Text>, threshold: Text)
    requires SignatureBinds(c)
    requires JudgeSet(c, a, keys, threshold).verdict == Accepted && JudgeSet(c, b, keys, threshold).verdict == Accepted
    requires forall s :: s in b.signature ==> s in a.signature
    ensures b.signature == a.signature
  {
    var n := |a.signature|;
    WalkDecides(n, |keys|, MemberVerifies(c, a, keys), 0, 0);
    WalkDecides(n, |keys|, MemberVerifies(c, b, keys), 0, 0);
    DistinctIffSetSize(keys);
    var fa :| Assigns(fa, n, |keys|, MemberVerifies(c, a, keys), 0, 0);
    var fb :| Assigns(fb, n, |keys|, MemberVerifies(c, b, keys), 0, 0);
    var p: seq<nat> := [];
    while |p| < n
      invariant |p| <= n
      invariant forall i :: 0 <= i < |p| ==> p[i] < n && b.signature[i] == a.signature[p[i]] && fa[p[i]] == fb[i]
    {
      var j := |p|;
      assert b.signature[j] in a.signature;
      var i :| 0 <= i < n && a.signature[i] == b.signature[j];
      SharedMemberSameKey(c, a, b, keys, fa, fb, i, j);
      p := p + [i];
    }
    forall j | 0 <= j < n ensures b.signature[j] == a.signature[j] {
      IncreasingPositions(fa, fb, p, j);
    }
  }

  lemma {:induction false} AcceptedMemberVerifies(c: Primitives, record: SetRecord, keys: seq<Text>, threshold: Text,
      m: nat) returns (key: Text)
    requires JudgeSet(c, record, keys, threshold).verdict == Accepted && m < |record.signature|
    ensures c.verify(record.signature[m], SigningText(record), key)
  {
    var v := MemberVerifies(c, record, keys);
    WalkDecides(|record.signature|, |keys|, v, 0, 0);
    var f :| Assigns(f, |record.signature|, |keys|, v, 0, 0);
    assert v(0 + m, f[m]);
    key := keys[f[m]];
  }

  /** Records over one text name one anchor. */
  lemma {:induction false} SameTextSameAnchor(a: SetRecord, b: SetRecord, anchorA: Text, anchorB: Text)
    requires AnchoredAt(a, anchorA) && AnchoredAt(b, anchorB) && SigningText(a) == SigningText(b)
    ensures anchorA == anchorB
  {
    var i :| 0 <= i < |a.fields| && a.fields[i] == Member(ANCHOR, Str(anchorA));
    var j :| 0 <= j < |b.fields| && b.fields[j] == Member(ANCHOR, Str(anchorB));
    SharedMemberSame(a.fields, b.fields, i, j);
  }

  ghost predicate NoMemberNamed(ms: seq<Member>, name: Text) {
    forall i :: 0 <= i < |ms| ==> ms[i].name != name
  }

  /** The same fields with the same signature array are the same complete record. */
  lemma {:induction false} SameRecordSameDigest(c: Primitives, a: SetRecord, b: SetRecord)
    requires Recordable(a.fields) && Recordable(b.fields) && SigningText(a) == SigningText(b)
      && a.signature == b.signature
    requires NoMemberNamed(a.fields, SIGNATURE) && NoMemberNamed(b.fields, SIGNATURE)
    ensures RecordDigest(c, a) == RecordDigest(c, b)
  {
    var last := Member(SIGNATURE, Texts(a.signature));
    CanonicalTextIffSame(Obj(a.fields), Obj(b.fields));
    AppendKeepsRecordable(a.fields, last);
    AppendKeepsRecordable(b.fields, last);
    assert Agree(last, last);
    AppendKeepsSame(a.fields, b.fields, last);
    CanonicalTextIffSame(Obj(a.fields + [last]), Obj(b.fields + [last]));
  }

  lemma {:induction false} AppendKeepsRecordable(ms: seq<Member>, last: Member)
    requires Recordable(ms) && NoMemberNamed(ms, last.name) && last.value.Arr?
    requires WellFormed(last.value) && Printable(last.value)
    ensures Recordable(ms + [last])
  {
    ThrowsIffUnprintable(Obj(ms));
    ThrowsIffUnprintable(Obj(ms + [last]));
  }

  ghost predicate MatchedIn(m: Member, ms: seq<Member>) {
    exists n :: n in ms && Agree(m, n)
  }

  ghost predicate MatchedFrom(n: Member, ms: seq<Member>) {
    exists m :: m in ms && Agree(m, n)
  }

  lemma {:induction false} SameIsMatched(a: seq<Member>, b: seq<Member>)
    ensures Same(Obj(a), Obj(b)) <==>
      && (forall m :: m in a && m.value != Undefined ==> MatchedIn(m, b))
      && (forall n :: n in b && n.value != Undefined ==> MatchedFrom(n, a))
  {}

  lemma {:induction false} MatchedGrows(m: Member, ms: seq<Member>, last: Member)
    ensures MatchedIn(m, ms) ==> MatchedIn(m, ms + [last])
    ensures MatchedFrom(m, ms) ==> MatchedFrom(m, ms + [last])
  {
    if MatchedIn(m, ms) {
      var n :| n in ms && Agree(m, n);
      assert n in ms + [last];
    }
    if MatchedFrom(m, ms) {
      var n :| n in ms && Agree(n, m);
      assert n in ms + [last];
    }
  }

  lemma {:induction false} AppendKeepsMatched(a: seq<Member>, b: seq<Member>, last: Member)
    requires Agree(last, last)
    requires forall m :: m in a && m.value != Undefined ==> MatchedIn(m, b)
    requires forall n :: n in b && n.value != Undefined ==> MatchedFrom(n, a)
    ensures forall m :: m in a + [last] && m.value != Undefined ==> MatchedIn(m, b + [last])
    ensures forall n :: n in b + [last] && n.value != Undefined ==> MatchedFrom(n, a + [last])
  {
    assert last in a + [last] && last in b + [last];
    forall m | m in a + [last] && m.value != Undefined ensures MatchedIn(m, b + [last]) {
      MatchedGrows(m, b, last);
    }
    forall n | n in b + [last] && n.value != Undefined ensures MatchedFrom(n, a + [last]) {
      MatchedGrows(n, a, last);
    }
  }

  lemma {:induction false} AppendKeepsSame(a: seq<Member>, b: seq<Member>, last: Member)
    requires Same(Obj(a), Obj(b)) && Agree(last, last)
    ensures Same(Obj(a + [last]), Obj(b + [last]))
  {
    SameIsMatched(a, b);
    AppendKeepsMatched(a, b, last);
    SameIsMatched(a + [last], b + [last]);
  }

  /**
   * Canonical signature sets: take an accepted record's signatures, delete, reorder or repeat them,
   * and attach them to any fields under any anchor. Against the same log the result is accepted
   * only if it is that very record, with the same digest.
   */
  lemma {:induction false} AcceptedSetHasOneForm(c: Primitives, states: seq<AnchoredKeyState>, a: SetRecord,
      anchorA: Text, b: SetRecord, anchorB: Text)
    requires SignatureBinds(c) && AnchoredAt(a, anchorA) && AnchoredAt(b, anchorB)
    requires JudgeAnchored(c, a, anchorA, states).verdict == Decided(Accepted)
    requires JudgeAnchored(c, b, anchorB, states).verdict == Decided(Accepted)
    requires forall s :: s in b.signature ==> s in a.signature
    ensures anchorB == anchorA && SigningText(b) == SigningText(a) && b.signature == a.signature
    ensures RecordDigest(c, b) == RecordDigest(c, a)
  {
    var stateA, stateB := FindAnchored(states, anchorA).value, FindAnchored(states, anchorB).value;
    AcceptedNotEmpty(c, b, stateB.keys, stateB.threshold);
    assert b.signature[0] in a.signature;
    var i :| 0 <= i < |a.signature| && a.signature[i] == b.signature[0];
    var keyA := AcceptedMemberVerifies(c, a, stateA.keys, stateA.threshold, i);
    var keyB := AcceptedMemberVerifies(c, b, stateB.keys, stateB.threshold, 0);
    SameTextSameAnchor(a, b, anchorA, anchorB);
    SameStateSameSet(c, a, b, stateA.keys, stateA.threshold);
    SameRecordSameDigest(c, a, b);
  }

  lemma {:induction false} AcceptedNotEmpty(c: Primitives, record: SetRecord, keys: seq<Text>, threshold: Text)
    requires JudgeSet(c, record, keys, threshold).verdict == Accepted
    ensures record.signature != []
  {
    PositiveValue(threshold);
  }
}
