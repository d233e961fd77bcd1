/** A concrete view that lags: its copy of a log ends before the anchor of a link. */
module LaggingViews {
  import opened Common
  import opened Metering
  import opened KeyEvents
  import opened KeyLog
  import opened SoundLogs
  import opened Grants
  import opened Resolver
  import opened Attenuation
  import opened SampleLogs
  import opened SampleRecords
  import R = Records
  import Signers
  import Units

  const LATER: Text := Ascii("later")
  const LEAF_KEY: Text := Ascii("zleaf")

  function SampleInstant(t: Text): int {
    if t == LATER then 2 else 0
  }

  lemma {:induction false} KeyIsNoParticipant()
    ensures !IsParticipant(LEAF_KEY)
  {
    assert LEAF_KEY[0] != PARTICIPANT_PREFIX[0];
  }

  const OWNER: Text := Ascii("a")

  function OwnerId(): Text {
    SampleId(OWNER, 1)
  }

  /** The digest of the owner's second event. */
  function SecondAnchor(): Text {
    EventDigest(SamplePrimitives(), SampleLog(OWNER, 1, 2)[1])
  }

  /** The owner lets a key send messages, at the state its second event established. */
  function LateLink(): Grant {
    Grant(OwnerId(), OwnerId(), LEAF_KEY, [MESSAGE], Some([OwnerId()]), [], None, Some(SecondAnchor()),
          Ascii("issued"), Some(LATER), GoodSignatures(1))
  }

  /** A message the key signed. */
  function LateUnit(): Units.Unit {
    Units.Unit(R.SetRecord([], [GOOD]), OwnerId(), None, Some([LateLink()]), Some(1), MESSAGE)
  }

  /** A view that holds the first `n` events of the owner's log. */
  function CopyOf(n: nat): Env
    requires n >= 1
  {
    Env(SamplePrimitives(),
        View((id: Text) => if id == OwnerId() then Log(SampleLog(OWNER, 1, n))
          else NoLog, (digest: Text, ids: seq<Text>) => RevocationsUnreachable),
        SampleInstant)
  }

  lemma {:induction false} CopyIsTheOwners(n: nat)
    requires 1 <= n <= MAX_KEY_LOG_EVENTS
    ensures JudgeSigner(CopyOf(n), OwnerId()).verdict == Signer(StatesOf(SamplePrimitives(), SampleLog(OWNER, 1, n)))
  {
    SampleLogIsValid(OWNER, 1, n);
    ReplayAcceptsValidLogs(SamplePrimitives(), SampleLog(OWNER, 1, n));
  }

  lemma {:induction false} CopyLags()
    ensures Units.LagsBehind(CopyOf(1), CopyOf(2))
  {
    SampleLogIsValid(OWNER, 1, 2);
    ValidLogIsSound(SamplePrimitives(), SampleLog(OWNER, 1, 2));
    SampleLogGrows(OWNER, 1, 1, 2);
    forall id ensures Units.EarlierCopy(SamplePrimitives(), CopyOf(1).view.keyLog(id), CopyOf(2).view.keyLog(id)) {
    }
  }

  lemma {:induction false} LateLinkSchema()
    ensures GrantSchema(LateLink())
  {
    SampleIdIsParticipant(OWNER, 1);
    MessageSchema(LateLink());
  }

  lemma {:induction false} LateLinkSigned()
    ensures Signers.SignedInOwnLog(CopyOf(2), GrantRecord(LateLink()), OwnerId(), SecondAnchor())
  {
    var c := SamplePrimitives();
    CopyIsTheOwners(2);
    assert GoodSignatures(1) == GrantRecord(LateLink()).signature;
    SampleRecordAnchored(GrantRecord(LateLink()), OWNER, 1, 2);
    Signers.AnchoredIffSigned(CopyOf(2), GrantRecord(LateLink()), OwnerId(), SecondAnchor(),
      StatesOf(c, SampleLog(OWNER, 1, 2)));
  }

  lemma {:induction false} LateLinkInForce(o: Options)
    requires o == Units.ChainOptions(LateUnit(), o.now, false)
    ensures InForce(CopyOf(2), o, LateLink())
  {
    assert Ascii("issued") != LATER by {
      assert |Ascii("issued")| != |LATER|;
    }
  }

  lemma {:induction false} LateLinkAuthorized(o: Options)
    requires o == Units.ChainOptions(LateUnit(), o.now, false)
    ensures LinkAuthorized(CopyOf(2), o, [LateLink()], 0)
  {
    LateLinkInForce(o);
    LateLinkSigned();
    SampleIdIsParticipant(OWNER, 1);
  }

  lemma {:induction false} LateUnitStands(now: int)
    ensures Units.DelegateSigned(CopyOf(2), LateUnit(), now, false)
  {
    LateUnitBound();
    LateChainAuthorized(Units.ChainOptions(LateUnit(), now, false));
  }

  lemma {:induction false} LateChainShaped(o: Options)
    requires o == Units.ChainOptions(LateUnit(), o.now, false)
    ensures WellShaped(o, [LateLink()])
  {
    LateLinkSchema();
    SchemaIff(LateLink());
  }

  lemma {:induction false} LateChainAuthorized(o: Options)
    requires o == Units.ChainOptions(LateUnit(), o.now, false)
    ensures Authorized(CopyOf(2), o, [LateLink()])
  {
    LateChainShaped(o);
    LateLinkAuthorized(o);
  }

  lemma {:induction false} LateUnitBound()
    ensures Units.Bound(SamplePrimitives(), LateUnit())
  {
    KeyIsNoParticipant();
    assert GOOD[0] != BAD[0];
    assert MESSAGE in [MESSAGE] && ContinuesSome(LateLink().abilities, MESSAGE);
    assert Signers.SignedByKey(SamplePrimitives(), LateUnit().record, LEAF_KEY);
  }

  lemma {:induction false} LateLinkIsBeyond()
    ensures AnchoredBeyond(CopyOf(1), LateLink())
  {
    var c, log := SamplePrimitives(), SampleLog(OWNER, 1, 1);
    SampleLogIsValid(OWNER, 1, 1);
    ValidLogIsSound(c, log);
    SampleIdIsParticipant(OWNER, 1);
    SampleLogGrows(OWNER, 1, 1, 2);
    var second := SampleLog(OWNER, 1, 2)[1];
    if EventDigest(c, log[0]) == EventDigest(c, second) {
      SampleIsCollisionFree();
      EventDigestInjective(c, log[0], second);
      assert false;
    }
    assert Signers.OwnLog(CopyOf(1), OwnerId(), log) && NamesNone(c, log, SecondAnchor());
  }

  /**
   * A unit that stands on the owner's two events, judged on a copy of the first: the key that
   * signed it is authorized, nothing is wrong with it, and it is rejected rather than held.
   */
  lemma {:induction false} LateAnchorIsRejected(now: int)
    ensures Units.LagsBehind(CopyOf(1), CopyOf(2)) && Units.DelegateSigned(CopyOf(2), LateUnit(), now, false)
    ensures Units.StopsBeyond(CopyOf(1), [LateLink()])
    ensures Units.IdealUnit(CopyOf(1), LateUnit(), now, false) == Units.Falls(Units.ChainInvalid(IssuerAnchorUnknown))
    ensures !Units.Converges(Units.IdealUnit(CopyOf(1), LateUnit(), now, false))
  {
    CopyLags();
    LateUnitStands(now);
    LateLinkIsBeyond();
    assert AnchoredBeyond(CopyOf(1), [LateLink()][0]);
    Units.DelegatedUnitConvergesIff(CopyOf(1), CopyOf(2), LateUnit(), now);
  }
}
