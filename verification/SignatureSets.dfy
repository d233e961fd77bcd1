/**
 * Canonical signature sets (spec 015 S0-S3, packages/crypto/src/signature-set.ts): the key-state
 * rules, the exact member count, the greedy forward walk and the diagnosis of its rejections.
 */
module SignatureSets {
  import opened Common

  datatype Rejection =
    | StateRepeatsKey
    | ThresholdMalformed
    | ThresholdExceedsKeyCount
    | SignatureCountNotThreshold
    | NoConformingAssignment(member: nat)

  datatype KeyStateCheck = Conforming(threshold: nat) | Refused(code: Rejection)

  /** Why no strictly increasing injective assignment exists. */
  datatype Cause = MemberVerifiesUnderNoListedKey | MembersNotInjectivelyAssignable | MembersOutOfKeyOrder

  // -------- Thresholds and key states --------

  /** `^[1-9][0-9]*$` with a safe integer value; anything else is refused, never coerced. */
  function ParseThreshold(text: Text): Option<nat> {
    if text == [] || text[0] == ZERO || !AllDigits(text) then None
    else if DigitsValue(text) > MAX_SAFE_INTEGER then None
    else Some(DigitsValue(text))
  }

  lemma {:induction false} PositiveValue(t: Text)
    requires t != [] && AllDigits(t) && t[0] != ZERO
    ensures DigitsValue(t) > 0
  {
    if |t| == 1 {
      assert DigitsValue(t[..0]) == 0;
      assert IsDigit(t[0]);
    } else {
      PositiveValue(t[..|t| - 1]);
      assert IsDigit(t[|t| - 1]);
    }
  }

  lemma {:induction false} DecimalOfDigits(t: Text)
    requires t != [] && AllDigits(t) && t[0] != ZERO
    ensures Decimal(DigitsValue(t)) == t
  {
    assert IsDigit(t[|t| - 1]);
    if |t| == 1 {
      assert DigitsValue(t[..0]) == 0;
    } else {
      PositiveValue(t[..|t| - 1]);
      DecimalOfDigits(t[..|t| - 1]);
      assert t == t[..|t| - 1] + [t[|t| - 1]];
    }
  }

  /** Each threshold has exactly one accepted text, its decimal form, and zero has none. */
  lemma {:induction false} ThresholdTextUnique(text: Text, n: nat)
    ensures ParseThreshold(text) == Some(n) <==> 1 <= n <= MAX_SAFE_INTEGER && text == Decimal(n)
  {
    if ParseThreshold(text) == Some(n) {
      PositiveValue(text);
      DecimalOfDigits(text);
    }
    if 1 <= n <= MAX_SAFE_INTEGER && text == Decimal(n) {
      DecimalRoundTrip(n);
    }
  }

  ghost predicate Distinct(keys: seq<Text>) {
    forall i, j :: 0 <= i < j < |keys| ==> keys[i] != keys[j]
  }

  /** S0 and S1's state rules, in the source's order. */
  function CheckKeyState(keys: seq<Text>, threshold: Text): KeyStateCheck {
    if |set k | k in keys| != |keys| then Refused(StateRepeatsKey)
    else match ParseThreshold(threshold)
      case None => Refused(ThresholdMalformed)
      case Some(t) => if t > |keys| then Refused(ThresholdExceedsKeyCount) else Conforming(t)
  }

  lemma {:induction false} DistinctIffSetSize(keys: seq<Text>)
    ensures |set k | k in keys| <= |keys|
    ensures |set k | k in keys| == |keys| <==> Distinct(keys)
  {
    if keys != [] {
      var tail := keys[1..];
      DistinctIffSetSize(tail);
      assert (set k | k in keys) == {keys[0]} + (set k | k in tail);
      assert Distinct(keys) <==> keys[0] !in tail && Distinct(tail) by {
        if keys[0] !in tail && Distinct(tail) {
          forall i, j | 0 <= i < j < |keys| ensures keys[i] != keys[j] {
            assert keys[j] == tail[j - 1];
            if i > 0 { assert keys[i] == tail[i - 1]; }
          }
        }
        if Distinct(keys) {
          forall i, j | 0 <= i < j < |tail| ensures tail[i] != tail[j] {
            assert tail[i] == keys[i + 1] && tail[j] == keys[j + 1];
          }
          forall j | 0 <= j < |tail| ensures tail[j] != keys[0] {
            assert tail[j] == keys[j + 1];
          }
        }
      }
    }
  }

  /** A key state is accepted exactly when its keys differ and its threshold is a decimal in 1..n. */
  lemma {:induction false} KeyStateAcceptance(keys: seq<Text>, threshold: Text, t: nat)
    requires |keys| <= MAX_SAFE_INTEGER
    ensures CheckKeyState(keys, threshold) == Conforming(t) <==>
      Distinct(keys) && 1 <= t <= |keys| && threshold == Decimal(t)
  {
    DistinctIffSetSize(keys);
    ThresholdTextUnique(threshold, t);
  }

  // -------- The greedy forward walk --------

  datatype Walked = Walked(failed: Option<nat>, calls: nat)

  /** Keys `a[0] < a[1] < ...`, one per member from `member` on, each verifying that member. */
  ghost predicate Assigns(a: seq<nat>, members: nat, keys: nat, verifyAt: (nat, nat) -> bool, member: nat, key: nat) {
    && member + |a| == members
    && (forall i :: 0 <= i < |a| ==> key <= a[i] < keys && verifyAt(member + i, a[i]))
    && (forall i, j :: 0 <= i < j < |a| ==> a[i] < a[j])
  }

  ghost predicate Assignable(members: nat, keys: nat, verifyAt: (nat, nat) -> bool, member: nat, key: nat) {
    exists a :: Assigns(a, members, keys, verifyAt, member, key)
  }

  /** A strictly increasing injective assignment of all members to verifying keys exists. */
  ghost predicate Conformable(members: nat, keys: nat, verifyAt: (nat, nat) -> bool) {
    Assignable(members, keys, verifyAt, 0, 0)
  }

  /** The walk from member `member` and key `key`: the member it gives up on, and its calls. */
  function Walk(members: nat, keys: nat, verifyAt: (nat, nat) -> bool, member: nat, key: nat): (w: Walked)
    requires member <= members && key <= keys
    ensures w.calls <= keys - key
    decreases keys - key
  {
    if member == members then Walked(None, 0)
    else if key == keys then Walked(Some(member), 0)
    else
      var rest := Walk(members, keys, verifyAt, if verifyAt(member, key) then member + 1 else member, key + 1);
      Walked(rest.failed, rest.calls + 1)
  }

  /** Exchange: an assignment may give the earliest verifying key to the first member. */
  lemma {:induction false} AssignsLater(a: seq<nat>, members: nat, keys: nat, verifyAt: (nat, nat) -> bool,
      member: nat, key: nat, next: nat)
    requires member < members && key < keys && Assigns(a, members, keys, verifyAt, member, key)
    requires next == if verifyAt(member, key) then member + 1 else member
    ensures Assigns(a[next - member..], members, keys, verifyAt, next, key + 1)
  {
    var b := a[next - member..];
    forall i | 0 <= i < |b| ensures key + 1 <= b[i] < keys && verifyAt(next + i, b[i]) {
      assert b[i] == a[i + (next - member)];
      assert verifyAt(member + (i + (next - member)), a[i + (next - member)]);
      assert i + (next - member) > 0 ==> a[0] < a[i + (next - member)];
    }
  }

  lemma {:induction false} WalkDecides(members: nat, keys: nat, verifyAt: (nat, nat) -> bool, member: nat, key: nat)
    requires member <= members && key <= keys
    ensures Walk(members, keys, verifyAt, member, key).failed.None? <==>
      Assignable(members, keys, verifyAt, member, key)
    decreases keys - key
  {
    if member == members {
      assert Assigns([], members, keys, verifyAt, member, key);
    } else if key == keys {
      forall a: seq<nat> | |a| == members - member ensures !Assigns(a, members, keys, verifyAt, member, key) {
        var first := a[0];
      }
    } else {
      var next := if verifyAt(member, key) then member + 1 else member;
      WalkDecides(members, keys, verifyAt, next, key + 1);
      if Assignable(members, keys, verifyAt, member, key) {
        var a :| Assigns(a, members, keys, verifyAt, member, key);
        AssignsLater(a, members, keys, verifyAt, member, key, next);
      }
      if Assignable(members, keys, verifyAt, next, key + 1) {
        var b :| Assigns(b, members, keys, verifyAt, next, key + 1);
        var a := (if next > member then [key] else []) + b;
        assert Assigns(a, members, keys, verifyAt, member, key);
      }
    }
  }

  /** The member the walk names: everything before it is assignable, and it is where that stops. */
  lemma {:induction false} WalkNamesFirstUnassignable(members: nat, keys: nat, verifyAt: (nat, nat) -> bool,
      member: nat, key: nat, at: nat)
    requires member <= members && key <= keys
    requires Walk(members, keys, verifyAt, member, key).failed == Some(at)
    ensures member <= at < members
    ensures Assignable(at, keys, verifyAt, member, key) && !Assignable(at + 1, keys, verifyAt, member, key)
    decreases keys - key
  {
    WalkPrefix(members, keys, verifyAt, member, key, at);
    WalkDecides(at, keys, verifyAt, member, key);
    WalkDecides(at + 1, keys, verifyAt, member, key);
  }

  lemma {:induction false} WalkPrefix(members: nat, keys: nat, verifyAt: (nat, nat) -> bool,
      member: nat, key: nat, at: nat)
    requires member <= members && key <= keys
    requires Walk(members, keys, verifyAt, member, key).failed == Some(at)
    ensures member <= at < members
    ensures Walk(at, keys, verifyAt, member, key).failed == None
    ensures Walk(at + 1, keys, verifyAt, member, key).failed == Some(at)
    decreases keys - key
  {
    if key < keys {
      WalkPrefix(members, keys, verifyAt, if verifyAt(member, key) then member + 1 else member, key + 1, at);
    }
  }

  /**
   * `walkSignatureSet`. It accepts exactly when a strictly increasing injective assignment exists,
   * names the first member that cannot be assigned, and calls `verifyAt` at most once per key.
   */
  method WalkSignatureSet(memberCount: nat, keyCount: nat, verifyAt: (nat, nat) -> bool)
    returns (failed: Option<nat>, calls: nat)
    ensures Walked(failed, calls) == Walk(memberCount, keyCount, verifyAt, 0, 0)
    ensures failed.None? <==> Conformable(memberCount, keyCount, verifyAt)
    ensures failed.Some? ==> failed.value < memberCount && Conformable(failed.value, keyCount, verifyAt)
    ensures failed.Some? ==> !Conformable(failed.value + 1, keyCount, verifyAt)
    ensures calls <= keyCount
  {
    WalkDecides(memberCount, keyCount, verifyAt, 0, 0);
    ghost var whole := Walk(memberCount, keyCount, verifyAt, 0, 0);
    if whole.failed.Some? {
      WalkNamesFirstUnassignable(memberCount, keyCount, verifyAt, 0, 0, whole.failed.value);
    }
    var key := 0;
    calls := 0;
    var member := 0;
    while member < memberCount
      invariant member <= memberCount && calls == key <= keyCount
      invariant var rest := Walk(memberCount, keyCount, verifyAt, member, key);
        whole == Walked(rest.failed, calls + rest.calls)
    {
      while key < keyCount && !verifyAt(member, key)
        invariant calls == key <= keyCount
        invariant var rest := Walk(memberCount, keyCount, verifyAt, member, key);
          whole == Walked(rest.failed, calls + rest.calls)
      {
        key := key + 1;
        calls := calls + 1;
      }
      if key == keyCount {
        return Some(member), calls;
      }
      key := key + 1;
      calls := calls + 1;
      member := member + 1;
    }
    failed := None;
  }
}
