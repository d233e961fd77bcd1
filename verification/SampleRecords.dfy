/** Concrete records that every key of a sample state signs. */
module SampleRecords {
  import opened Common
  import opened Metering
  import opened KeyEvents
  import opened KeyLog
  import opened Grants
  import opened Resolver
  import opened SampleLogs
  import R = Records

  const MESSAGE: Text := Ascii("msg")

  lemma {:induction false} SampleIdIsParticipant(name: Text, width: nat)
    ensures IsParticipant(SampleId(name, width))
  {
    PrefixStays(SamplePrimitives().hash(RecordText(EstablishmentMembers(SampleEvent(name, width, [],
      Decimal(0), None, Icp)))));
  }

  lemma {:induction false} PrefixStays(rest: Text)
    ensures IsParticipant(PARTICIPANT_PREFIX + rest)
  {}

  lemma {:induction false} MessageIsPlain()
    ensures !IsE2eeAbility(MESSAGE)
  {
    assert MESSAGE[0] != E2EE[0] && (E2EE + [SLASH])[0] == E2EE[0];
  }

  /** What a participant's link that lets somebody send messages must be. */
  lemma {:induction false} MessageSchema(g: Grant)
    requires IsParticipant(g.subjectId) && IsParticipant(g.issuerId) && g.anchor.Some?
    requires g.abilities == [MESSAGE] && 1 <= |g.signature| <= MAX_RECORD_SIGNATURES
    requires IsParticipant(g.audienceId) || (g.expiresAt.Some? && g.aud.Some?)
    requires g.aud.Some? ==> g.aud.value != [] && forall i :: 0 <= i < |g.aud.value| ==> IsParticipant(g.aud.value[i])
    ensures GrantSchema(g) && !NamesE2ee(g)
  {
    MessageIsPlain();
    assert !IsE2eeAbility(g.abilities[0]);
  }

  /** A record whose members all sign verifies under every sample state. */
  lemma {:induction false} SampleRecordAccepted(record: R.SetRecord, name: Text, width: nat)
    requires 1 <= width <= MAX_KEY_EVENT_KEYS && record.signature == GoodSignatures(width)
    ensures R.JudgeSet(SamplePrimitives(), record, SampleKeys(name, width), Decimal(width)) == Work(R.Accepted, width)
  {
    SampleStateConforms(name, width);
    assert GOOD[0] != BAD[0];
    WalkInStep(width, width, R.MemberVerifies(SamplePrimitives(), record, SampleKeys(name, width)), 0);
  }

  /** A record anchored at the last event of a sample log is accepted, for the cost of one state. */
  lemma {:induction false} SampleRecordAnchored(record: R.SetRecord, name: Text, width: nat, n: nat)
    requires 1 <= width <= MAX_KEY_EVENT_KEYS && 1 <= n <= MAX_KEY_LOG_EVENTS
      && record.signature == GoodSignatures(width)
    ensures var log := SampleLog(name, width, n);
      R.JudgeAnchored(SamplePrimitives(), record, EventDigest(SamplePrimitives(), log[n - 1]),
        StatesOf(SamplePrimitives(), log))
        == Work(R.Decided(R.Accepted), width)
  {
    var c, log := SamplePrimitives(), SampleLog(name, width, n);
    var states, anchor := StatesOf(c, log), EventDigest(c, log[n - 1]);
    FindAnchoredFinds(states, anchor);
    assert states[n - 1].anchor == anchor && states[n - 1] in states;
    var state := FindAnchored(states, anchor).value;
    var i :| 0 <= i < n && states[i] == state;
    SampleEventShape(name, width, n, i);
    SampleRecordAccepted(record, name, width);
  }
}
