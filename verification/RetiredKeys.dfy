/**
 * Keys sign where they are listed and nowhere else (packages/crypto/src/records.ts:333-344): an
 * identity is created with one key and rotated to another, and each key signs at its own event only.
 */
module RetiredKeys {
  import opened Common
  import opened KeyEvents
  import opened KeyLog
  import opened SoundLogs
  import opened Records
  import opened Identity

  /** No key, no threshold and nothing else is asked for: the rotation takes over what was committed. */
  const PLAIN: RotateOptions := RotateOptions(None, None, None, None)

  /** The log of an identity created with the key of `current` and rotated to that of `next`. */
  function RotatedLog(c: Primitives, s: Signer, current: Text, next: Text, random: nat -> Text): seq<KeyEvent>
    requires RotateIdentity(c, s, CreateIdentity(c, s, current, next), PLAIN, random).Rotated?
  {
    RotateIdentity(c, s, CreateIdentity(c, s, current, next), PLAIN, random).identity.log
  }

  lemma {:induction false} CreatedRotates(c: Primitives, s: Signer, current: Text, next: Text, random: nat -> Text)
    ensures RotateIdentity(c, s, CreateIdentity(c, s, current, next), PLAIN, random).Rotated?
  {
    var identity := CreateIdentity(c, s, current, next);
    CreatedIdentityHolds(c, s, current, next);
    assert Satisfiable(Decimal(1), 1);
    assert Requested(identity, PLAIN, random, [random(0)]);
    RotationSucceedsIff(c, s, identity, PLAIN, random);
  }

  /** Its two events list one key each. */
  lemma {:induction false} RotatedLogLists(c: Primitives, s: Signer, current: Text, next: Text, random: nat -> Text)
    requires ReadsDecimals(c) && Sound(c, s)
    ensures RotateIdentity(c, s, CreateIdentity(c, s, current, next), PLAIN, random).Rotated?
    ensures var log := RotatedLog(c, s, current, next, random);
      && SoundLog(c, log) && |log| == 2
      && log[0].keys == [s.publicKey(current)] && log[0].threshold == Decimal(1)
      && log[1].keys == [s.publicKey(next)] && log[1].threshold == Decimal(1)
  {
    var identity := CreateIdentity(c, s, current, next);
    CreatedRotates(c, s, current, next, random);
    CreatedIdentityHolds(c, s, current, next);
    CreatedIdentityKept(c, s, current, next);
    RotatedIdentityKept(c, s, identity, PLAIN, random);
    RotationRevealsCommittedState(c, s, identity, PLAIN, random);
    var log := RotatedLog(c, s, current, next, random);
    ValidLogIsSound(c, log);
    assert log[0] == log[..1][0];
  }

  ghost predicate SignedWith(s: Signer, record: SetRecord, secret: Text) {
    record.signature == [s.sign(secret, SigningText(record))]
  }

  /** A record signed with an event's one key is accepted at that event. */
  lemma {:induction false} OwnKeySigns(c: Primitives, s: Signer, log: seq<KeyEvent>, states: seq<AnchoredKeyState>,
      record: SetRecord, at: nat, secret: Text)
    requires Sound(c, s) && CollisionFree(c) && SoundLog(c, log) && Establishes(c, log, states) && at < |log|
    requires log[at].keys == [s.publicKey(secret)] && log[at].threshold == Decimal(1) && SignedWith(s, record, secret)
    ensures JudgeAnchored(c, record, EventDigest(c, log[at]), states).verdict == Decided(Accepted)
  {
    var anchor := EventDigest(c, log[at]);
    AcceptedAtItsEvent(c, record, anchor, log, states);
    assert InKeyOrder(c, [0], record.signature, SigningText(record), log[at].keys);
    forall j | 0 <= j < at ensures EventDigest(c, log[j]) != anchor {
      if EventDigest(c, log[j]) == anchor { AnchorNamesOneEvent(c, log, j, at); }
    }
    assert SignedAtEvent(c, record, anchor, log, at);
  }

  /** A record signed with any other key is refused there, and its anchor is not in doubt. */
  lemma {:induction false} OtherKeyDoesNot(c: Primitives, s: Signer, log: seq<KeyEvent>, states: seq<AnchoredKeyState>,
      record: SetRecord, at: nat, secret: Text)
    requires Sound(c, s) && CollisionFree(c) && SignatureBinds(c)
    requires SoundLog(c, log) && Establishes(c, log, states) && at < |log|
    requires s.publicKey(secret) !in log[at].keys && SignedWith(s, record, secret)
    ensures JudgeAnchored(c, record, EventDigest(c, log[at]), states).verdict.Decided?
    ensures JudgeAnchored(c, record, EventDigest(c, log[at]), states).verdict != Decided(Accepted)
  {
    var anchor := EventDigest(c, log[at]);
    AcceptedAtItsEvent(c, record, anchor, log, states);
    if JudgeAnchored(c, record, anchor, states).verdict == Decided(Accepted) {
      SignersAreListed(c, record, anchor, log, states, at, 0, s.publicKey(secret));
    }
  }

  /**
   * A record one of the two keys signs is accepted at the event that lists that key, and refused at
   * the other: the retired key signs nothing anchored after it, and the next one nothing before.
   */
  lemma {:induction false} EachKeySignsAtItsEvent(c: Primitives, s: Signer, current: Text, next: Text,
      random: nat -> Text, log: seq<KeyEvent>, states: seq<AnchoredKeyState>, record: SetRecord, at: nat, who: nat)
    requires ReadsDecimals(c) && Sound(c, s) && CollisionFree(c) && SignatureBinds(c)
    requires s.publicKey(current) != s.publicKey(next)
    requires RotateIdentity(c, s, CreateIdentity(c, s, current, next), PLAIN, random).Rotated?
    requires log == RotatedLog(c, s, current, next, random) && Establishes(c, log, states)
    requires at < |log| && who < |log| && SignedWith(s, record, if who == 0 then current else next)
    ensures var verdict := JudgeAnchored(c, record, EventDigest(c, log[at]), states).verdict;
      verdict.Decided? && (verdict == Decided(Accepted) <==> who == at)
  {
    RotatedLogLists(c, s, current, next, random);
    if who == at {
      OwnKeySigns(c, s, log, states, record, at, if who == 0 then current else next);
    } else {
      OtherKeyDoesNot(c, s, log, states, record, at, if who == 0 then current else next);
    }
  }
}
