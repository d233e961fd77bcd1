/**
 * Whose keys a record is judged under (packages/trust/src/resolver.ts:585-715): a view's log counts
 * only for the participant its own inception names, and a record only under the event it is
 * anchored at.
 */
module Signers {
  import opened Common
  import opened KeyEvents
  import opened KeyLog
  import opened SoundLogs
  import opened Records
  import opened Grants
  import opened Resolver
  import opened Refinement

  /** The view serves this log for the id, and it is sound and begins with the id's own inception. */
  ghost predicate OwnLog(env: Env, id: Text, events: seq<KeyEvent>) {
    env.view.keyLog(id) == Log(events) && SoundLog(env.c, events) && events[0].id == id
  }

  // -------- Lookups --------

  /** A lookup answers with states exactly when they are those of the id's own sound log. */
  lemma {:induction false} SignerIsBound(env: Env, id: Text, states: seq<AnchoredKeyState>)
    ensures JudgeSigner(env, id).verdict == Signer(states) <==>
      exists events :: OwnLog(env, id, events) && Establishes(env.c, events, states)
  {
    if env.view.keyLog(id).Log? {
      var events := env.view.keyLog(id).events;
      ReplayAcceptsSoundLogs(env.c, events, states);
      if events != [] && Judge(env.c, events, 0).verdict.States? {
        ReplayAcceptsSoundLogs(env.c, events, Judge(env.c, events, 0).verdict.states);
      }
    }
  }

  lemma {:induction false} ReplaysIffSound(c: Primitives, events: seq<KeyEvent>)
    ensures Judge(c, events, 0).verdict.States? <==> SoundLog(c, events)
  {
    ReplayAcceptsSoundLogs(c, events, StatesOf(c, events));
    if Judge(c, events, 0).verdict.States? {
      ReplayAcceptsSoundLogs(c, events, Judge(c, events, 0).verdict.states);
    } else if SoundLog(c, events) {
      StatesAreEstablished(c, events, StatesOf(c, events));
    }
  }

  /** The other answers: a sound log of somebody else, no sound log at all, or no answer. */
  lemma {:induction false} SignerRefusals(env: Env, id: Text)
    ensures var answer, log := JudgeSigner(env, id).verdict, env.view.keyLog(id);
      && (answer.Mismatched? <==> log.Log? && SoundLog(env.c, log.events) && log.events[0].id != id)
      && (answer.Unresolved? <==> log.NoLog? || (log.Log? && !SoundLog(env.c, log.events)))
      && (answer.SignerThrew? <==> log.LogUnreachable?)
  {
    if env.view.keyLog(id).Log? {
      ReplaysIffSound(env.c, env.view.keyLog(id).events);
    }
  }

  /** Whatever a sound memo remembers of a participant are the states of its own log, all under its id. */
  lemma {:induction false} MemoIsBound(env: Env, memo: Memo, id: Text)
    requires MemoSound(env, memo) && id in memo
    ensures exists events :: OwnLog(env, id, events) && Establishes(env.c, events, memo[id])
    ensures forall s :: s in memo[id] ==> s.id == id
  {
    SignerIsBound(env, id, memo[id]);
  }

  // -------- Signatures --------

  /** The record is signed, at its anchor, by a quorum of the participant's own log. */
  ghost predicate SignedInOwnLog(env: Env, record: SetRecord, id: Text, anchor: Text) {
    exists events, i: nat :: OwnLog(env, id, events) && SignedAtEvent(env.c, record, anchor, events, i)
  }

  lemma {:induction false} AnchoredIffSigned(env: Env, record: SetRecord, id: Text, anchor: Text,
      states: seq<AnchoredKeyState>)
    requires JudgeSigner(env, id).verdict == Signer(states)
    ensures JudgeAnchored(env.c, record, anchor, states).verdict == Decided(Accepted) <==>
      SignedInOwnLog(env, record, id, anchor)
  {
    SignerIsBound(env, id, states);
    var events :| OwnLog(env, id, events) && Establishes(env.c, events, states);
    AcceptedAtItsEvent(env.c, record, anchor, events, states);
  }

  /** No lookup but one that answers with states lets a record be signed. */
  lemma {:induction false} UnsignedWithoutStates(env: Env, record: SetRecord, id: Text, anchor: Text)
    requires !JudgeSigner(env, id).verdict.Signer?
    ensures !SignedInOwnLog(env, record, id, anchor)
  {
    SignerRefusals(env, id);
    SignerCostBound(env, id);
  }

  /** The record carries one signature, and it verifies under the key. */
  ghost predicate SignedByKey(c: Primitives, record: SetRecord, key: Text) {
    |record.signature| == 1 && c.verify(record.signature[0], SigningText(record), key)
  }

  lemma {:induction false} OneKeySigns(c: Primitives, record: SetRecord, key: Text)
    ensures |record.signature| == 1 && JudgeSet(c, record, [key], Decimal(1)).verdict == Accepted <==>
      SignedByKey(c, record, key)
  {
    if |record.signature| == 1 {
      SetAcceptance(c, record, [key], Decimal(1));
      if SignedByKey(c, record, key) {
        assert InKeyOrder(c, [0], record.signature, SigningText(record), [key]);
      }
    }
  }
}
