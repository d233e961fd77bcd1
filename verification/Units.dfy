/**
 * Record units (packages/verify/src/record-unit.ts:300-588): a record judged under its principal's
 * own anchored keys, or under a delegation chain, but never under both.
 */
module Units {
  import opened Common
  import opened Metering
  import opened KeyEvents
  import opened KeyLog
  import opened SoundLogs
  import opened Grants
  import opened Resolver
  import opened Refinement
  import opened Signers
  import opened Attenuation
  import R = Records

  /**
   * A parsed record and what its profile reads off it; `time` is None for a text that is no date,
   * and `chain` is None for a unit that carries none.
   */
  datatype Unit = Unit(
    record: R.SetRecord,
    principal: Text,
    anchor: Option<Text>,
    chain: Option<seq<Grant>>,
    time: Option<int>,
    required: Text)

  datatype UnitReason =
    | ModeConflict
    | RecordMalformed
    | PrincipalLogUnresolved
    | PrincipalLogTooExpensive
    | PrincipalLogMismatch
    | PrincipalAnchorUnknown
    | RecordSignatureInvalid
    | ChainInvalid(reason: Reason)
    | SubjectNotPrincipal
    | AudienceNotKey
    | LeafKeySignatureInvalid
    | AbilitiesInsufficient

  /** A verdict, or the view's own failure propagated out of the chain verification. */
  datatype Ruling = Stands | Falls(reason: UnitReason) | Raised

  /** `UNIT_COST_REASONS`. */
  predicate IsUnitCost(reason: UnitReason) {
    reason.PrincipalLogTooExpensive? || (reason.ChainInvalid? && IsCost(reason.reason))
  }

  /** `UNIT_WAIT_REASONS`: held and asked again, rather than rejected. */
  predicate IsUnitWait(reason: UnitReason) {
    || reason.PrincipalLogUnresolved?
    || reason.PrincipalAnchorUnknown?
    || (reason.ChainInvalid? && reason.reason.IssuerKeyLogUnresolved?)
    || IsUnitCost(reason)
  }

  /** How a unit's chain is verified: at the record's own time, caveats and audiences aside. */
  function ChainOptions(unit: Unit, now: int, checkRevocation: bool): Options {
    Options(now, Evidence, unit.time, None, false, None, checkRevocation)
  }

  /** `signedByLeafKey`: exactly one signature, under the leaf's key. */
  function JudgeLeafKey(c: Primitives, record: R.SetRecord, key: Text): Work<bool> {
    if |record.signature| != 1 then Work(false, 0)
    else
      var w := R.JudgeSet(c, record, [key], Decimal(1));
      Work(w.verdict == R.Accepted, w.cost)
  }

  function OwnerRuling(verdict: R.AnchoredVerdict): Ruling {
    match verdict
    case AnchorUnknown => Falls(PrincipalAnchorUnknown)
    case Decided(judged) => if judged == R.Accepted then Stands else Falls(RecordSignatureInvalid)
  }

  // -------- The ideal ruling --------

  function IdealOwner(env: Env, unit: Unit, anchor: Text): Ruling {
    match JudgeSigner(env, unit.principal).verdict
    case Mismatched => Falls(PrincipalLogMismatch)
    case Signer(states) => OwnerRuling(R.JudgeAnchored(env.c, unit.record, anchor, states).verdict)
    case _ => Falls(PrincipalLogUnresolved)
  }

  /** What a valid chain still has to be to this record. */
  function BindingReason(unit: Unit, subjectId: Text, audienceId: Text): Option<UnitReason> {
    if subjectId != unit.principal then Some(SubjectNotPrincipal)
    else if IsParticipant(audienceId) then Some(AudienceNotKey)
    else None
  }

  function LeafRuling(unit: Unit, abilities: seq<Text>, signed: bool): Ruling {
    if !signed then Falls(LeafKeySignatureInvalid)
    else if Covered(abilities, unit.required) then Stands
    else Falls(AbilitiesInsufficient)
  }

  function IdealDelegated(env: Env, unit: Unit, verdict: Verdict): Ruling {
    match verdict
    case Threw => Raised
    case Invalid(reason) => Falls(ChainInvalid(reason))
    case Valid(subjectId, audienceId, abilities) =>
      match BindingReason(unit, subjectId, audienceId)
      case Some(reason) => Falls(reason)
      case None => LeafRuling(unit, abilities, JudgeLeafKey(env.c, unit.record, audienceId).verdict)
  }

  /** `verifyUnit`, whatever it costs to find out. */
  function IdealUnit(env: Env, unit: Unit, now: int, checkRevocation: bool): Ruling {
    match (unit.anchor, unit.chain)
    case (Some(anchor), None) => IdealOwner(env, unit, anchor)
    case (None, Some(chain)) =>
      if unit.time.None? then Falls(RecordMalformed)
      else IdealDelegated(env, unit, IdealVerdict(env, ChainOptions(unit, now, checkRevocation), chain))
    case _ => Falls(ModeConflict)
  }

  // -------- The metered ruling --------

  /** Owner mode replays the log afresh: no memo is read or written. */
  function OwnerStep(env: Env, unit: Unit, anchor: Text, fuel: Fuel, memo: Memo): Step<Ruling> {
    var replay := JudgeSigner(env, unit.principal);
    var limit := Limit(fuel, DEFAULT_MAX_KEY_LOG_SIGNATURE_VERIFICATIONS);
    var started := if StartsReplay(env, unit.principal) then 1 else 0;
    if replay.cost > limit then Step(Falls(PrincipalLogTooExpensive), limit, started, memo)
    else match replay.verdict
      case Mismatched => Step(Falls(PrincipalLogMismatch), replay.cost, started, memo)
      case Signer(states) =>
        var w := R.JudgeAnchored(env.c, unit.record, anchor, states);
        var left := Limit(Drop(fuel, replay.cost), DEFAULT_MAX_SIGNATURE_VERIFICATIONS);
        Step(if w.cost > left then Falls(PrincipalLogTooExpensive) else OwnerRuling(w.verdict),
          replay.cost + Charge(w, left), started, memo)
      case _ => Step(Falls(PrincipalLogUnresolved), replay.cost, started, memo)
  }

  function LeafStep(env: Env, unit: Unit, audienceId: Text, abilities: seq<Text>, fuel: Fuel,
      memo: Memo): Step<Ruling> {
    var w := JudgeLeafKey(env.c, unit.record, audienceId);
    var limit := Limit(fuel, DEFAULT_MAX_SIGNATURE_VERIFICATIONS);
    Step(if w.cost > limit then Falls(ChainInvalid(SignatureCheckTooExpensive))
      else LeafRuling(unit, abilities, w.verdict),
      Charge(w, limit), 0, memo)
  }

  function DelegatedStep(env: Env, unit: Unit, chain: Step<Verdict>, fuel: Fuel): Step<Ruling> {
    After(chain, match chain.answer
      case Threw => Step(Raised, 0, 0, chain.memo)
      case Invalid(reason) => Step(Falls(ChainInvalid(reason)), 0, 0, chain.memo)
      case Valid(subjectId, audienceId, abilities) =>
        match BindingReason(unit, subjectId, audienceId)
        case Some(reason) => Step(Falls(reason), 0, 0, chain.memo)
        case None => LeafStep(env, unit, audienceId, abilities, Drop(fuel, chain.spent), chain.memo))
  }

  /** `verifyUnit` under an operation's meters and memo. */
  function UnitStep(env: Env, unit: Unit, now: int, checkRevocation: bool, fuel: Fuel, memo: Memo): Step<Ruling> {
    match (unit.anchor, unit.chain)
    case (Some(anchor), None) => OwnerStep(env, unit, anchor, fuel, memo)
    case (None, Some(chain)) =>
      if unit.time.None? then Step(Falls(RecordMalformed), 0, 0, memo)
      else DelegatedStep(env, unit, VerifyStep(env, ChainOptions(unit, now, checkRevocation), chain, fuel, memo), fuel)
    case _ => Step(Falls(ModeConflict), 0, 0, memo)
  }

  // -------- Refinement --------

  ghost predicate RulesAs(env: Env, s: Step<Ruling>, ideal: Ruling, fuel: Fuel) {
    && (s.answer == ideal || (s.answer.Falls? && IsUnitCost(s.answer.reason)))
    && MemoSound(env, s.memo) && WithinFuel(fuel, s.spent)
  }

  lemma {:induction false} OwnerRefines(env: Env, unit: Unit, anchor: Text, fuel: Fuel, memo: Memo)
    requires MemoSound(env, memo)
    ensures RulesAs(env, OwnerStep(env, unit, anchor, fuel, memo), IdealOwner(env, unit, anchor), fuel)
  {
    SignerCostBound(env, unit.principal);
  }

  lemma {:induction false} DelegatedRefines(env: Env, unit: Unit, chain: Step<Verdict>, ideal: Verdict, fuel: Fuel)
    requires MemoSound(env, chain.memo) && WithinFuel(fuel, chain.spent)
    requires chain.answer == ideal || (chain.answer.Invalid? && IsCost(chain.answer.reason))
    ensures RulesAs(env, DelegatedStep(env, unit, chain, fuel), IdealDelegated(env, unit, ideal), fuel)
  {
  }

  /**
   * For any meters and any memo earlier operations left, a unit gets the ideal ruling or is held on
   * cost, and nothing is charged past the tightest meter.
   */
  lemma {:induction false} UnitRefines(env: Env, unit: Unit, now: int, checkRevocation: bool, fuel: Fuel, memo: Memo)
    requires MemoSound(env, memo)
    ensures RulesAs(env, UnitStep(env, unit, now, checkRevocation, fuel, memo),
      IdealUnit(env, unit, now, checkRevocation), fuel)
  {
    match (unit.anchor, unit.chain)
    case (Some(anchor), None) => OwnerRefines(env, unit, anchor, fuel, memo);
    case (None, Some(chain)) =>
      if unit.time.Some? {
        var o := ChainOptions(unit, now, checkRevocation);
        MeteredRunRefinesIdeal(env, o, chain, fuel, memo);
        DelegatedRefines(env, unit, VerifyStep(env, o, chain, fuel, memo), IdealVerdict(env, o, chain), fuel);
      }
    case _ =>
  }

  // -------- What standing means --------

  lemma {:induction false} LeafKeyAcceptance(c: Primitives, record: R.SetRecord, key: Text)
    ensures JudgeLeafKey(c, record, key).verdict <==> SignedByKey(c, record, key)
  {
    OneKeySigns(c, record, key);
  }

  /** Signed at its anchor in the principal's own log, with no chain beside it. */
  ghost predicate OwnerSigned(env: Env, unit: Unit) {
    unit.chain.None? && unit.anchor.Some?
      && SignedInOwnLog(env, unit.record, unit.principal, unit.anchor.value)
  }

  /** How the chain of a record is authorized: at the record's own time, caveats and audiences aside. */
  ghost predicate AuthorizedFor(env: Env, unit: Unit, now: int, checkRevocation: bool) {
    unit.chain.Some? && unit.time.Some?
      && Authorized(env, Options(now, Evidence, unit.time, None, false, None, checkRevocation), unit.chain.value)
  }

  /** Signed by the key at the leaf of an authorized chain that delegates for the principal what the record needs. */
  ghost predicate DelegateSigned(env: Env, unit: Unit, now: int, checkRevocation: bool) {
    && unit.anchor.None? && AuthorizedFor(env, unit, now, checkRevocation)
    && var leaf := unit.chain.value[0];
    && leaf.subjectId == unit.principal && !IsParticipant(leaf.audienceId)
    && SignedByKey(env.c, unit.record, leaf.audienceId)
    && ContinuesSome(leaf.abilities, unit.required)
  }

  lemma {:induction false} OwnerStandsIffSigned(env: Env, unit: Unit, anchor: Text)
    ensures IdealOwner(env, unit, anchor).Stands? <==> SignedInOwnLog(env, unit.record, unit.principal, anchor)
  {
    var answer := JudgeSigner(env, unit.principal).verdict;
    if answer.Signer? {
      AnchoredIffSigned(env, unit.record, unit.principal, anchor, answer.states);
    } else {
      UnsignedWithoutStates(env, unit.record, unit.principal, anchor);
    }
  }

  /** A unit stands exactly when its principal signed it, or exactly one delegate did under authority for it. */
  lemma {:induction false} UnitStandsIffSigned(env: Env, unit: Unit, now: int, checkRevocation: bool)
    ensures IdealUnit(env, unit, now, checkRevocation).Stands? <==>
      OwnerSigned(env, unit) || DelegateSigned(env, unit, now, checkRevocation)
  {
    if unit.chain.None? && unit.anchor.Some? {
      OwnerStandsIffSigned(env, unit, unit.anchor.value);
    }
    if unit.anchor.None? && unit.chain.Some? && unit.time.Some? {
      var chain := unit.chain.value;
      var o := ChainOptions(unit, now, checkRevocation);
      ValidIffAuthorized(env, o, chain);
      if IdealVerdict(env, o, chain).Valid? {
        assert IdealVerdict(env, o, chain) == Accept(chain);
        LeafKeyAcceptance(env.c, unit.record, chain[0].audienceId);
        CoveredIsContinued(chain[0].abilities, unit.required);
      }
    }
  }

  // -------- Early members and late joiners --------

  /** The same answers about keys, whatever they answer about revocations. */
  ghost predicate SameKeys(a: Env, b: Env) {
    a.c == b.c && a.instant == b.instant && forall id :: a.view.keyLog(id) == b.view.keyLog(id)
  }

  lemma {:induction false} SameRuns(a: nat -> LinkOutcome, b: nat -> LinkOutcome, i: nat, n: nat)
    requires i <= n && forall j: nat :: j < n ==> a(j) == b(j)
    ensures IdealRun(a, i, n) == IdealRun(b, i, n)
    decreases n - i
  {
    if i < n {
      SameRuns(a, b, i + 1, n);
    }
  }

  lemma {:induction false} LinksAgree(a: Env, b: Env, o: Options, p: Options, chain: seq<Grant>, i: nat)
    requires SameKeys(a, b) && p == o.(now := p.now) && o.purpose == Evidence && o.at.Some?
      && !o.checkRevocation && i < |chain|
    ensures IdealLink(a, o, chain, i) == IdealLink(b, p, chain, i)
  {
    assert JudgeSigner(a, chain[i].issuerId) == JudgeSigner(b, chain[i].issuerId);
  }

  lemma {:induction false} ChainsAgree(a: Env, b: Env, o: Options, p: Options, chain: seq<Grant>)
    requires SameKeys(a, b) && p == o.(now := p.now) && o.purpose == Evidence && o.at.Some? && !o.checkRevocation
    ensures IdealVerdict(a, o, chain) == IdealVerdict(b, p, chain)
  {
    var early, late := IdealLinks(a, o, chain), IdealLinks(b, p, chain);
    forall j: nat | j < |chain| ensures early(j) == late(j) {
      LinksAgree(a, b, o, p, chain, j);
    }
    SameRuns(early, late, 0, |chain|);
  }

  /**
   * Without the revocation check a ruling depends neither on when it is made nor on which
   * revocations the view has heard of, so members who judge one record years apart agree.
   */
  lemma {:induction false} MembersAgree(early: Env, late: Env, unit: Unit, once: int, now: int)
    requires SameKeys(early, late)
    ensures IdealUnit(early, unit, once, false) == IdealUnit(late, unit, now, false)
  {
    if unit.chain.Some? && unit.time.Some? {
      ChainsAgree(early, late, ChainOptions(unit, once, false), ChainOptions(unit, now, false), unit.chain.value);
    }
    assert JudgeSigner(early, unit.principal) == JudgeSigner(late, unit.principal);
  }

  // -------- Views that lag --------

  /** The answer is an earlier copy of a sound log, of any length down to none. */
  ghost predicate EarlierCopy(c: Primitives, lag: LogAnswer, full: LogAnswer) {
    lag == full || (full.Log? && SoundLog(c, full.events)
      && (lag.NoLog? || (lag.Log? && lag.events <= full.events)))
  }

  ghost predicate LagsBehind(lag: Env, full: Env) {
    lag.c == full.c && lag.instant == full.instant
      && forall id :: EarlierCopy(full.c, lag.view.keyLog(id), full.view.keyLog(id))
  }

  lemma {:induction false} SignerLags(lag: Env, full: Env, id: Text)
    requires LagsBehind(lag, full)
    ensures var l, f := JudgeSigner(lag, id).verdict, JudgeSigner(full, id).verdict;
      l == f || l == Unresolved || (l.Signer? && f.Signer? && l.states <= f.states)
  {
    var l, f := lag.view.keyLog(id), full.view.keyLog(id);
    assert EarlierCopy(full.c, l, f);
    if l != f && l.Log? && l.events != [] {
      ValidLogIsSound(full.c, f.events);
      ReplayAcceptsValidLogs(full.c, f.events);
      PrefixReplaysToPrefix(full.c, f.events, |l.events|);
      assert f.events[..|l.events|] == l.events;
    }
  }

  lemma {:induction false} AnchoredLags(c: Primitives, record: R.SetRecord, anchor: Text, lag: seq<AnchoredKeyState>,
      full: seq<AnchoredKeyState>)
    requires lag <= full
    ensures var l := R.JudgeAnchored(c, record, anchor, lag).verdict;
      l == R.AnchorUnknown || l == R.JudgeAnchored(c, record, anchor, full).verdict
  {
    assert full[..|lag|] == lag;
    FindAnchoredInPrefix(full, |lag|, anchor);
  }

  /** A link seen through a lagging view: as in full, unresolved, or anchored beyond what the view has. */
  predicate LinkLags(lag: LinkOutcome, full: LinkOutcome) {
    lag == full || lag == LinkFails(IssuerKeyLogUnresolved) || lag == LinkFails(IssuerAnchorUnknown)
  }

  lemma {:induction false} SignatureLags(lag: Env, full: Env, link: Grant)
    requires LagsBehind(lag, full)
    ensures LinkLags(IdealSignature(lag, link), IdealSignature(full, link))
  {
    if IsParticipant(link.issuerId) {
      SignerLags(lag, full, link.issuerId);
      var l, f := JudgeSigner(lag, link.issuerId).verdict, JudgeSigner(full, link.issuerId).verdict;
      if l.Signer? && f.Signer? && link.anchor.Some? {
        AnchoredLags(full.c, GrantRecord(link), link.anchor.value, l.states, f.states);
      }
    }
  }

  lemma {:induction false} RunLags(lag: nat -> LinkOutcome, full: nat -> LinkOutcome, i: nat, n: nat)
    requires i <= n && forall j: nat :: j < n ==> LinkLags(lag(j), full(j))
    ensures LinkLags(IdealRun(lag, i, n), IdealRun(full, i, n))
    decreases n - i
  {
    if i < n {
      RunLags(lag, full, i + 1, n);
    }
  }

  lemma {:induction false} ChainLags(lag: Env, full: Env, o: Options, chain: seq<Grant>)
    requires LagsBehind(lag, full) && !ChecksRevocation(o)
    ensures var l, f := IdealVerdict(lag, o, chain), IdealVerdict(full, o, chain);
      l == f || l == Invalid(IssuerKeyLogUnresolved) || l == Invalid(IssuerAnchorUnknown)
  {
    forall j: nat | j < |chain| ensures LinkLags(IdealLink(lag, o, chain, j), IdealLink(full, o, chain, j)) {
      SignatureLags(lag, full, chain[j]);
    }
    RunLags(IdealLinks(lag, o, chain), IdealLinks(full, o, chain), 0, |chain|);
  }

  /**
   * Through a view that lags on any participants' logs, any unit gets the ruling of the full view,
   * a wait, or the rejection of a chain link whose anchor the view cannot find.
   */
  lemma {:induction false} LaggingViewWaitsOrAgrees(lag: Env, full: Env, unit: Unit, now: int)
    requires LagsBehind(lag, full)
    ensures var l, f := IdealUnit(lag, unit, now, false), IdealUnit(full, unit, now, false);
      l == f || (l.Falls? && IsUnitWait(l.reason))
        || (unit.chain.Some? && l == Falls(ChainInvalid(IssuerAnchorUnknown)))
  {
    match (unit.anchor, unit.chain)
    case (Some(anchor), None) =>
      SignerLags(lag, full, unit.principal);
      var l, f := JudgeSigner(lag, unit.principal).verdict, JudgeSigner(full, unit.principal).verdict;
      if l.Signer? && f.Signer? {
        AnchoredLags(full.c, unit.record, anchor, l.states, f.states);
      }
    case (None, Some(chain)) => ChainLags(lag, full, ChainOptions(unit, now, false), chain);
    case _ =>
  }

  /** Some link is anchored beyond its copy, and the copies decide every link nearer the leaf. */
  ghost predicate StopsBeyond(env: Env, chain: seq<Grant>) {
    exists k :: 0 <= k < |chain| && AnchoredBeyond(env, chain[k])
      && forall j :: 0 <= j < k ==> !NoCopy(env, chain[j]) && !AnchoredBeyond(env, chain[j])
  }

  /** Some link's issuer has no copy, and the copies decide every link nearer the leaf. */
  ghost predicate StopsWithoutCopy(env: Env, chain: seq<Grant>) {
    exists k :: 0 <= k < |chain| && NoCopy(env, chain[k])
      && forall j :: 0 <= j < k ==> !NoCopy(env, chain[j]) && !AnchoredBeyond(env, chain[j])
  }

  /** What a link that is good in full becomes through the copies. */
  ghost function ThroughCopy(env: Env, link: Grant): LinkOutcome {
    if NoCopy(env, link) then LinkFails(IssuerKeyLogUnresolved)
    else if AnchoredBeyond(env, link) then LinkFails(IssuerAnchorUnknown)
    else LinkPasses
  }

  lemma {:induction false} SignatureThroughCopy(lag: Env, full: Env, link: Grant)
    requires LagsBehind(lag, full) && SignedByIssuer(full, link)
    ensures IdealSignature(lag, link) == ThroughCopy(lag, link)
  {
    if IsParticipant(link.issuerId) {
      SignerLags(lag, full, link.issuerId);
      var l, f := JudgeSigner(lag, link.issuerId).verdict, JudgeSigner(full, link.issuerId).verdict;
      SignaturePasses(full, link);
      BeyondIffUnknown(lag, link);
      SignerRefusals(lag, link.issuerId);
      if l.Signer? {
        AnchoredLags(full.c, GrantRecord(link), link.anchor.value, l.states, f.states);
      }
    } else {
      SignaturePasses(full, link);
    }
  }

  lemma {:induction false} LinkThroughCopy(lag: Env, full: Env, o: Options, chain: seq<Grant>, i: nat)
    requires LagsBehind(lag, full) && !ChecksRevocation(o) && i < |chain|
    requires LinkAuthorized(full, o, chain, i) && ProofMatches(full, chain, i)
    requires o.purpose == Evidence ==> o.at.Some?
    ensures IdealLink(lag, o, chain, i) == ThroughCopy(lag, chain[i])
  {
    SignatureThroughCopy(lag, full, chain[i]);
    PreludePasses(full, o, chain[i]);
    assert PreludeReason(lag, o, chain[i]) == PreludeReason(full, o, chain[i]);
  }

  /** Link `k` fails for that reason and every link before it passes. */
  ghost predicate FailsFirst(links: nat -> LinkOutcome, n: nat, reason: Reason) {
    exists k: nat :: k < n && links(k) == LinkFails(reason) && forall j: nat :: j < k ==> links(j).LinkPasses?
  }

  lemma {:induction false} RunFailsAt(links: nat -> LinkOutcome, i: nat, k: nat, n: nat, reason: Reason)
    requires i <= k < n && links(k) == LinkFails(reason) && forall j: nat :: i <= j < k ==> links(j).LinkPasses?
    ensures IdealRun(links, i, n) == LinkFails(reason)
    decreases k - i
  {
    if i < k { RunFailsAt(links, i + 1, k, n, reason); }
  }

  lemma {:induction false} RunEnds(links: nat -> LinkOutcome, i: nat, n: nat) returns (k: nat)
    requires i <= n
    ensures i <= k <= n && (forall j: nat :: i <= j < k ==> links(j).LinkPasses?)
    ensures IdealRun(links, i, n) == if k == n then LinkPasses else links(k)
    ensures k < n ==> !links(k).LinkPasses?
    decreases n - i
  {
    k := i;
    if i < n && links(i).LinkPasses? {
      k := RunEnds(links, i + 1, n);
    }
  }

  lemma {:induction false} RunFailsIff(links: nat -> LinkOutcome, n: nat, reason: Reason)
    ensures IdealRun(links, 0, n) == LinkFails(reason) <==> FailsFirst(links, n, reason)
  {
    if FailsFirst(links, n, reason) {
      var k: nat :| k < n && links(k) == LinkFails(reason) && forall j: nat :: j < k ==> links(j).LinkPasses?;
      RunFailsAt(links, 0, k, n, reason);
    }
    var k := RunEnds(links, 0, n);
  }

  lemma {:induction false} StopsIff(env: Env, links: nat -> LinkOutcome, chain: seq<Grant>)
    requires forall j: nat :: j < |chain| ==> links(j) == ThroughCopy(env, chain[j])
    ensures StopsBeyond(env, chain) <==> FailsFirst(links, |chain|, IssuerAnchorUnknown)
    ensures StopsWithoutCopy(env, chain) <==> FailsFirst(links, |chain|, IssuerKeyLogUnresolved)
  {
  }

  /** The verdict on a chain that is authorized in full, through copies of its issuers' logs. */
  lemma {:induction false} ChainThroughCopies(lag: Env, full: Env, o: Options, chain: seq<Grant>)
    requires LagsBehind(lag, full) && !ChecksRevocation(o) && Authorized(full, o, chain)
    ensures IdealVerdict(lag, o, chain) ==
      if StopsBeyond(lag, chain) then Invalid(IssuerAnchorUnknown)
      else if StopsWithoutCopy(lag, chain) then Invalid(IssuerKeyLogUnresolved)
      else Accept(chain)
  {
    ValidIffAuthorized(full, o, chain);
    ValidIffStructureAndLinks(full, o, chain);
    StructureReasonIff(o, chain);
    var links := IdealLinks(lag, o, chain);
    forall j: nat | j < |chain| ensures links(j) == ThroughCopy(lag, chain[j]) {
      LinkThroughCopy(lag, full, o, chain, j);
    }
    StopsIff(lag, links, chain);
    RunFailsIff(links, |chain|, IssuerAnchorUnknown);
    RunFailsIff(links, |chain|, IssuerKeyLogUnresolved);
    var k := RunEnds(links, 0, |chain|);
  }

  /** The ruling is the full view's, or one the caller holds the unit on. */
  predicate Converges(ruling: Ruling) {
    ruling.Stands? || (ruling.Falls? && IsUnitWait(ruling.reason))
  }

  /** What the leaf of a standing delegated unit is to the record. */
  ghost predicate Bound(c: Primitives, unit: Unit) {
    unit.chain.Some? && unit.chain.value != []
    && var leaf := unit.chain.value[0];
    && leaf.subjectId == unit.principal && !IsParticipant(leaf.audienceId)
    && SignedByKey(c, unit.record, leaf.audienceId) && ContinuesSome(leaf.abilities, unit.required)
  }

  lemma {:induction false} BoundRuling(env: Env, unit: Unit, verdict: Verdict, beyond: bool, without: bool)
    requires Bound(env.c, unit)
    requires verdict == if beyond then Invalid(IssuerAnchorUnknown) else if without
      then Invalid(IssuerKeyLogUnresolved) else Accept(unit.chain.value)
    ensures IdealDelegated(env, unit, verdict) ==
      if beyond then Falls(ChainInvalid(IssuerAnchorUnknown)) else if without
        then Falls(ChainInvalid(IssuerKeyLogUnresolved)) else Stands
    ensures Converges(IdealDelegated(env, unit, verdict)) <==> !beyond
  {
    LeafKeyAcceptance(env.c, unit.record, unit.chain.value[0].audienceId);
    CoveredIsContinued(unit.chain.value[0].abilities, unit.required);
  }

  lemma {:induction false} DelegateSignedBound(env: Env, unit: Unit, now: int)
    requires DelegateSigned(env, unit, now, false)
    ensures Bound(env.c, unit) && Authorized(env, ChainOptions(unit, now, false), unit.chain.value)
  {
  }

  lemma {:induction false} DelegatedRuling(env: Env, unit: Unit, now: int)
    requires unit.anchor.None? && unit.chain.Some? && unit.time.Some?
    ensures IdealUnit(env, unit, now, false) ==
      IdealDelegated(env, unit, IdealVerdict(env, ChainOptions(unit, now, false), unit.chain.value))
  {
  }

  /**
   * Exactly when a delegated unit that stands in full converges through a view that lags: unless
   * some link is anchored beyond the copy of its issuer's log with the copies deciding every link
   * nearer the leaf. Then it is rejected, where an owner's unit would wait.
   */
  lemma {:induction false} DelegatedUnitConvergesIff(lag: Env, full: Env, unit: Unit, now: int)
    requires LagsBehind(lag, full) && DelegateSigned(full, unit, now, false)
    ensures IdealUnit(lag, unit, now, false) ==
      if StopsBeyond(lag, unit.chain.value) then Falls(ChainInvalid(IssuerAnchorUnknown))
      else if StopsWithoutCopy(lag, unit.chain.value) then Falls(ChainInvalid(IssuerKeyLogUnresolved))
      else Stands
    ensures Converges(IdealUnit(lag, unit, now, false)) <==> !StopsBeyond(lag, unit.chain.value)
  {
    var verdict, chain := IdealVerdict(lag, ChainOptions(unit, now, false), unit.chain.value), unit.chain.value;
    DelegateSignedBound(full, unit, now);
    DelegatedRuling(lag, unit, now);
    ChainThroughCopies(lag, full, ChainOptions(unit, now, false), chain);
    BoundRuling(lag, unit, verdict, StopsBeyond(lag, chain), StopsWithoutCopy(lag, chain));
  }

  // -------- The same for every unit, good in full or not --------

  /** The link is in force, and anchored beyond the copy of its issuer's log. */
  ghost predicate BeyondAt(env: Env, o: Options, chain: seq<Grant>, i: nat)
    requires i < |chain|
  {
    InForce(env, o, chain[i]) && AnchoredBeyond(env, chain[i])
  }

  ghost predicate PassesAt(env: Env, o: Options, chain: seq<Grant>, i: nat)
    requires i < |chain|
  {
    LinkAuthorized(env, o, chain, i) && ProofMatches(env, chain, i)
  }

  /** The first link that does not pass is in force and anchored beyond its copy. */
  ghost predicate RejectedBeyond(env: Env, o: Options, chain: seq<Grant>) {
    && StructureOk(o, chain)
    && exists k: nat :: k < |chain| && BeyondAt(env, o, chain, k) && forall j: nat :: j < k ==>
      PassesAt(env, o, chain, j)
  }

  lemma {:induction false} SignatureBeyondIff(env: Env, link: Grant)
    ensures IdealSignature(env, link) == LinkFails(IssuerAnchorUnknown) <==> AnchoredBeyond(env, link)
  {
    if IsParticipant(link.issuerId) && link.anchor.Some? {
      BeyondIffUnknown(env, link);
    }
  }

  lemma {:induction false} LinkBeyondIff(env: Env, o: Options, chain: seq<Grant>, i: nat)
    requires i < |chain| && !ChecksRevocation(o) && (o.purpose == Evidence ==> o.at.Some?)
    ensures IdealLink(env, o, chain, i) == LinkFails(IssuerAnchorUnknown) <==>
      InForce(env, o, chain[i]) && AnchoredBeyond(env, chain[i])
  {
    SignatureBeyondIff(env, chain[i]);
    PreludePasses(env, o, chain[i]);
  }

  lemma {:induction false} StructureNeverBeyond(o: Options, chain: seq<Grant>)
    ensures StructureReason(o, chain) != Some(IssuerAnchorUnknown)
  {
    if chain != [] {
      PairsNeverBeyond(chain, 0);
    }
  }

  lemma {:induction false} PairsNeverBeyond(chain: seq<Grant>, i: nat)
    requires i < |chain|
    ensures PairsError(chain, i) != Some(IssuerAnchorUnknown)
    decreases |chain| - i
  {
    if i < |chain| - 1 { PairsNeverBeyond(chain, i + 1); }
  }

  lemma {:induction false} VerdictBeyondIff(env: Env, o: Options, chain: seq<Grant>)
    requires !ChecksRevocation(o) && (o.purpose == Evidence ==> o.at.Some?)
    ensures IdealVerdict(env, o, chain) == Invalid(IssuerAnchorUnknown) <==> RejectedBeyond(env, o, chain)
  {
    StructureNeverBeyond(o, chain);
    StructureReasonIff(o, chain);
    var links := IdealLinks(env, o, chain);
    forall j: nat | j < |chain|
      ensures links(j) == LinkFails(IssuerAnchorUnknown) <==> BeyondAt(env, o, chain, j)
      ensures links(j).LinkPasses? <==> PassesAt(env, o, chain, j)
    {
      LinkBeyondIff(env, o, chain, j);
      LinkPassesIff(env, o, chain, j);
    }
    BeyondIffFailsFirst(env, o, chain, links);
    RunFailsIff(links, |chain|, IssuerAnchorUnknown);
  }

  lemma {:induction false} BeyondIffFailsFirst(env: Env, o: Options, chain: seq<Grant>, links: nat -> LinkOutcome)
    requires forall j: nat :: j < |chain| ==>
      (links(j) == LinkFails(IssuerAnchorUnknown) <==> BeyondAt(env, o, chain, j))
    requires forall j: nat :: j < |chain| ==> (links(j).LinkPasses? <==> PassesAt(env, o, chain, j))
    ensures RejectedBeyond(env, o, chain) <==> StructureOk(o, chain) && FailsFirst(links, |chain|, IssuerAnchorUnknown)
  {
    if FailsFirst(links, |chain|, IssuerAnchorUnknown) {
      var k: nat :| k < |chain| && links(k) == LinkFails(IssuerAnchorUnknown)
        && forall j: nat :: j < k ==> links(j).LinkPasses?;
      assert BeyondAt(env, o, chain, k);
    }
    if k: nat :| k < |chain| && BeyondAt(env, o, chain, k) && forall j: nat :: j < k ==> PassesAt(env, o, chain, j) {
      assert links(k) == LinkFails(IssuerAnchorUnknown);
    }
  }

  /** The unit is delegated, and its chain is rejected for an anchor beyond a copy. */
  ghost predicate ChainBeyond(env: Env, unit: Unit, now: int) {
    unit.anchor.None? && unit.chain.Some? && unit.time.Some?
      && RejectedBeyond(env, ChainOptions(unit, now, false), unit.chain.value)
  }

  lemma {:induction false} RulingBeyondIff(env: Env, unit: Unit, now: int)
    ensures IdealUnit(env, unit, now, false) == Falls(ChainInvalid(IssuerAnchorUnknown)) <==>
      ChainBeyond(env, unit, now)
  {
    if unit.anchor.None? && unit.chain.Some? && unit.time.Some? {
      DelegatedRuling(env, unit, now);
      VerdictBeyondIff(env, ChainOptions(unit, now, false), unit.chain.value);
    }
  }

  /**
   * Views converge: through a view that lags on any participants' logs, any unit gets the ruling of
   * the full view or a wait, exactly unless the lagging copies make the first link that does not
   * pass one anchored beyond its copy, and the full logs do not.
   */
  lemma {:induction false} LaggingViewConvergesIff(lag: Env, full: Env, unit: Unit, now: int)
    requires LagsBehind(lag, full)
    ensures var l, f := IdealUnit(lag, unit, now, false), IdealUnit(full, unit, now, false);
      l == f || (l.Falls? && IsUnitWait(l.reason)) <==> !(ChainBeyond(lag, unit, now) && !ChainBeyond(full, unit, now))
  {
    LaggingViewWaitsOrAgrees(lag, full, unit, now);
    RulingBeyondIff(lag, unit, now);
    RulingBeyondIff(full, unit, now);
  }
}
