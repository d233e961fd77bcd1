# Kinnet verification model

A Dafny model of the decision logic of Kinnet, a verifier for self-certifying identities, with proofs of
what that logic promises. `dafny verify dfyconfig.toml` checks all of it.

The model keeps the program's form. Loops over mutable state are methods and classes with the program's
own variables, each proved equal to a specification function; pure decisions are functions. The
theorems are then about the specification functions, for every input, every run or every reachable state.
Ed25519, SHA-256 and `Number` enter as a record of functions (`KeyEvents.Primitives`), and what a theorem
needs of them (no digest collisions, a signature verifying under at most one key and one message) is a
hypothesis of that theorem. Text is a sequence of UTF-16 code units. Between two `await`s the program runs
undisturbed, so each such stretch is one atomic step.

## What is proved

- **Key logs.** `Replay` (log.ts) is a metered state machine. It accepts exactly the sound logs, stated
  event by event without the replay's own checks (`SoundLogs.ReplayAcceptsSoundLogs`), and the error of a
  rejected log is a fault it has (`SoundLogs.RejectionIsTrue`). A tip anchor pins the whole history
  (`KeyLog.EqualTipsMeanEqualLogs`), a rotation succeeds exactly where it should and commits to what it was
  asked for (`Identity.RotationSucceedsIff`, `Identity.NextRotationDeclaresRequested`), and everything the
  producer builds replays clean to what the producer holds (`Identity.BuiltLogsReplayClean`).
- **Pre-rotation.** `PreRotation.PreRotationIsExactlyUnexposed` gives the exact boundary of the safety claim:
  nobody can publish a replay-valid log that forks the honest one if and only if no commitment that a
  further event could still reveal is exposed. The promise that a thief of the current key cannot rotate
  control away (packages/protocol/spec/003-key-history.md:229-232) holds for extending a log that already
  contains the whole honest history (`PreRotation.UnexposedTipCannotBeExtended`), and outright while only
  inception keys are stolen. But the current keys of a rotated log are the state its previous event
  committed to, so a quorum of them is an exposed commitment: replay alone does not stop their thief from
  publishing a rival to the last rotation.
- **Signature sets.** The greedy walk decides a matching problem, the diagnosis is Kuhn's algorithm with a
  Hall violator on failure, and an accepted record has one accepted signature array
  (`Records.AcceptedSetHasOneForm`). A record is judged by the keys of the one event its anchor names
  (`Records.AcceptedAtItsEvent`), so a retired key signs nothing later
  (`RetiredKeys.EachKeySignsAtItsEvent`).
- **Delegation.** The resolver on shared meters and memos refines an ideal verdict with neither
  (`Refinement.MeteredRunRefinesIdeal`, and for the objects themselves `Operations.VerifyInContext`), and is
  that verdict exactly as far as the meter covers the run (`ExactMeters.MeteringIsExact`). The ideal verdict
  is valid exactly for authorized chains (`Attenuation.ValidIffAuthorized`), where a signer is bound to the
  log that begins with its own inception (`Signers.SignerIsBound`) and an ability is covered segment by
  segment (`Grants.CoverIsBySegments`); the reason of a refusal is true of the chain
  (`Refusals.VerdictIsTrue`). Calls of one context that interleave at their awaits are sound, share their
  replays and finish (`Interleavings.InterleavedCallsAreSound`, `InterleavedProgress.InterleavedCallsFinish`),
  and a call left alone is the sequential one (`LoneCalls.LoneCallIsSequential`). A chain costs at
  most 13 replays and 13408 checks whatever a hostile view answers (`WorkBounds.ChainWorkBound`). The ceiling
  documented at packages/trust/src/resolver.ts:1094-1130, 4192 checks, holds of every view exactly for chains
  of at most two links (`FloodedChain.CeilingHoldsIffShort`): resolver.ts:596-597 forgets failed replays, and
  three links can be made to cost 6144 checks, four 10240. For longer chains it holds when the issuers' logs
  replay clean (`WorkBounds.ChainWorkBound`), and the honest ceiling of 4136 when the view serves only
  genuine revocations, whatever its logs (`HonestLookups.HonestCeiling`).
- **Record units.** A unit stands exactly when its principal signed it or one authorized delegate did.
  Through a view that lags, an owner's unit waits or gets the same ruling. A delegated unit does so exactly
  unless, going from the leaf, a link anchored beyond the copy of its issuer's log comes before any link
  without a copy (`Units.DelegatedUnitConvergesIff`; for units of every kind `Units.LaggingViewConvergesIff`).
  Then it is rejected, because `UNIT_WAIT_REASONS` does not list that reason
  (`LaggingViews.LateAnchorIsRejected` is such an input).
- **Canonical text.** The duplicate-key scanner agrees with the grammar, an accepted text denotes one value
  for every parser (`JsonReadings.AcceptedTextHasOneValue`), and canonical text is injective up to member
  order and a derivation of the grammar that denotes what it was printed from (`CanonicalTexts.DeriveText`).
- **Byte codecs.** One byte form per value for base58, base64url, varints, opaque vectors and padding. For
  commit bindings it holds exactly for entries without a leading byte-order mark
  (`CommitBindings.BindingReencodesIffNoBom`), since the decoder at mls-profile.ts:45 drops one.
- **Replay control.** The nonce guard refines a history that is never pruned, no interleaving of runs that
  commit within a TTL of their peek accepts a request twice, `2*skew+1` is exactly the least retention for
  which that is so, and a TTL is exactly how long such a run may take (`VerifyRuns.StallBoundIsTtl`).
- **Discovery view.** The semaphore is safe and fair in every reachable state; the TTL cache and the key
  state memo answer as what they speed up would.

Files: `Common`, `Positional`, `OrderedMaps` hold shared notions; `SignatureSets`, `Diagnosis`,
`Metering`, `RequestSignatures`, `KeyEvents`, `KeyLog`, `SoundLogs`, `PreRotation`, `Identity`, `Records` model
`packages/crypto`; `Grants`, `Resolver`, `Refinement`, `Signers`, `Attenuation`, `Refusals`, `ExactMeters`,
`WorkBounds`, `HostileViews`, `HonestLookups`, `Operations`, `Interleavings`, `InterleavedProgress`,
`InterleavedRefusals`, `LoneCalls`, `DecimalAmounts`, `FinancialCaveats` model `packages/trust`; `Jcs`,
`JsonStrings`, `JsonTexts`, `JsonScanner`, `JsonReadings`, `CanonicalTexts`, `Base58`, `Base64Url`,
`Encodings`, `TlsSyntax`, `MlsProfile`, `CommitBindings` model text and bytes;
`NonceGuards`, `VerifyRuns`, `Throttles`, `DiscoveryCaches`, `KeyStateMemos`, `Units`, `UnitRefusals`
model `packages/verify` and its replay guard; `SampleLogs`, `SampleRecords`, `RetiredKeys`, `LaggingViews`,
`FloodedChain` are inputs built for a statement.

## Model

| member | source | states |
|---|---|---|
| `SignatureSets.ThresholdTextUnique` | packages/crypto/src/signature-set.ts:86-93 | each threshold from 1 to the largest safe integer has exactly one accepted text, its decimal form; every other text is refused and never coerced |
| `SignatureSets.KeyStateAcceptance` | packages/crypto/src/signature-set.ts:110-140 | a key state is accepted with threshold t exactly when its keys differ, 1 <= t <= number of keys, and the text is the decimal of t |
| `SignatureSets.WalkDecides` | packages/crypto/src/signature-set.ts:187-203 | the greedy walk succeeds exactly when some strictly increasing injective assignment of members to verifying keys exists (an exchange argument) |
| `SignatureSets.WalkNamesFirstUnassignable` | packages/crypto/src/signature-set.ts:187-203 | the member a failed walk names is the first at which no such assignment exists any more |
| `SignatureSets.WalkSignatureSet` | packages/crypto/src/signature-set.ts:187-203 | the loop: null exactly when an assignment exists, else the first unassignable member, with at most keyCount calls to verifyAt |
| `Diagnosis.AugmentingSearch.Augment` | packages/crypto/src/signature-set.ts:231-246 | the recursive augmenting search terminates; success reseats holders along an alternating path, losing nobody; failure changes no seat and leaves every key it saw held by a member that saw all of its own keys |
| `Diagnosis.HallViolator` | packages/crypto/src/signature-set.ts:217-255 | a failed search yields a Hall violator: one more member than all the keys those members verify under |
| `Diagnosis.ViolatorRefutes` | packages/crypto/src/signature-set.ts:217-255 | a Hall violator rules out every injective assignment |
| `Diagnosis.DiagnoseAssignment` | packages/crypto/src/signature-set.ts:217-255 | the reported cause is the true one: an empty row; or every row non-empty and no injective assignment; or an injective assignment exists and only the order fails |
| `Metering.MeteredWalk` | packages/crypto/src/log.ts:398-411 | the walk driven through spendVerification gives the unmetered answer if it fits the limit, else the cost refusal, and reports exactly what it spent |
| `Metering.SafeCountsAreKept` | packages/crypto/src/budget.ts:54-56 | a safe non-negative count stands for itself, zero included, and anything else for the fallback |
| `RequestSignatures.ProbeKeys` | packages/crypto/src/http-signature.ts:367-389 | probing the current keys under a meter equals the unmetered probe cut off at the limit; a key that does not decode ends it |
| `RequestSignatures.ProbeFrom` | packages/crypto/src/http-signature.ts:374-386 | a satisfied probe names the first verifying key with every earlier key decodable and refused, and costs one check per key tried |
| `RequestSignatures.ProbeOutcomes` | packages/crypto/src/http-signature.ts:367-389 | under a meter, both probes: satisfied by k exactly when k is the first to verify and within the limit; an undecodable key needs one more check of allowance in the record's probe |
| `RequestSignatures.VerifyRequest` | packages/crypto/src/http-signature.ts:322-397 | a key is satisfied exactly when the request is fresh, its threshold text is one, and some key within the allowance is the first to verify; a refusal before the probe costs nothing |
| `RequestSignatures.JudgedOnlyWhenFresh` | packages/crypto/src/http-signature.ts:322-356 | the probe is reached exactly inside the closed skew window and at threshold text "1" |
| `RequestSignatures.RequestRefusalIsTrue` | packages/crypto/src/http-signature.ts:322-356 | an early refusal is true of the request: outside the window, no threshold text, or a threshold above one |
| `RequestSignatures.VerifyRecordAgainstAny` | packages/crypto/src/records.ts:75-105 | the single-signature record check is the same probe, except that an undecodable key too has to be afforded; it spends the same |
| `KeyEvents.UnsignedTextInjective` | packages/crypto/src/log.ts:144-156 | signatures cover every other field: equal signing texts mean equal events up to signatures |
| `KeyEvents.EventDigestInjective` | packages/crypto/src/log.ts:124-126 | with a collision-free hash an event digest names one complete signed event |
| `KeyEvents.StateCommitmentInjective` | packages/crypto/src/log.ts:78-121 | a `next` commitment names one list of keys and one threshold text |
| `KeyEvents.ParticipantIdInjective` | packages/crypto/src/log.ts:128-142 | a participant id names one set of inception data: sequence number, kind, keys, threshold and next commitment |
| `KeyEvents.EstablishmentNames` | packages/crypto/src/log.ts:128-142 | an id is taken over seq, kind (icp or rot), keys, threshold and next, each as the event has it |
| `KeyLog.RotationAccepted` | packages/crypto/src/log.ts:772-861 | a rotation passes its chain checks exactly when it is a rotation of the same id, one past the previous sequence number, pointing at the previous digest, revealing the committed state |
| `KeyLog.VerifyEventSignatures` | packages/crypto/src/log.ts:434-493 | structure checks, then the walk, under the meter: the unmetered verdict or the cost refusal |
| `KeyLog.VerifyEvent` | packages/crypto/src/log.ts:772-861 | one turn of the replay loop is the metered form of judging that event against the log before it |
| `KeyLog.Replay` | packages/crypto/src/log.ts:687-862 | runReplay: the unmetered verdict and states if the whole cost fits the limit, else the refusal; reported spend is the cost or exactly the limit |
| `KeyLog.ReplayAcceptsValidLogs` | packages/crypto/src/log.ts:705-862 | replay accepts exactly the logs that pass at every position, and returns one anchored state per event; what passing is, SoundLogs.ReplayAcceptsSoundLogs spells out |
| `SoundLogs.EventAcceptance` | packages/crypto/src/log.ts:434-493 | an event's structure and signatures pass exactly when its keys differ, everything decodes, it carries exactly the threshold of signatures, and they verify over its unsigned text under distinct keys in key order |
| `SoundLogs.ReplayAcceptsSoundLogs` | packages/crypto/src/log.ts:705-862 | replay answers with these states exactly when the log has 1 to 128 events, begins with a self-named inception numbered 0, each later event is the next rotation of that id, names the digest before it and reveals what it committed to, each is signed by a quorum of its own keys, and the states are one per event, with that event's keys, under its digest |
| `SoundLogs.RejectionIsTrue` | packages/crypto/src/log.ts:705-862 | a rejected log: the error is a fault the log has, of its length or of its first unsound event |
| `SoundLogs.AnchorNamesOneEvent` | packages/crypto/src/log.ts:660-685 | with a collision-free hash an anchor names at most one event of a sound log |
| `KeyLog.ReplayCostBound` | packages/crypto/src/log.ts:705-718 | at most eight checks per unproven event, at most 1024 in all, so the default budget never refuses a log |
| `KeyLog.ProvenPrefixIsSound` | packages/crypto/src/log.ts:705-862 | skipping the signatures of a prefix that already replayed clean never changes the verdict |
| `KeyLog.FindAnchoredFinds` | packages/crypto/src/log.ts:680-685 | an anchor lookup returns a state of the log under exactly that anchor, or no state has it |
| `KeyLog.PrefixReplaysToPrefix` | packages/crypto/src/log.ts:705-862 | replaying a prefix of a valid log gives the prefix of its states, so anchors are stable as logs grow |
| `KeyLog.EqualTipsMeanEqualLogs` | packages/crypto/src/log.ts:660-685 | with a collision-free hash, valid logs with equal tip anchors are equal event for event, signatures included |
| `PreRotation.HonestSigner` | packages/crypto/src/log.ts:434-493 | an accepted event whose state the adversary holds no quorum of carries a signature by a key it does not hold |
| `PreRotation.NextEventIsHonest` | packages/crypto/src/log.ts:705-862 | where the committed state is not exposed, the only next event any valid log can have is the honest one, and the event before it is honest down to its signatures |
| `PreRotation.UnexposedLogsCannotFork` | packages/crypto/src/log.ts:705-862 | over whole runs: if no committed state is exposed, every replay-valid log with the participant id is a prefix of the honest log up to its last signature array, even with all inception keys stolen |
| `PreRotation.UnexposedTipCannotBeExtended` | packages/crypto/src/log.ts:705-862 | even with every current key stolen a log that holds the whole honest history cannot be extended unless the tip commitment is exposed |
| `PreRotation.ExposedCommitmentForks` | packages/crypto/src/log.ts:705-862 | conversely an exposed commitment lets the adversary build a replay-valid log that is no prefix of the honest one |
| `PreRotation.PreRotationIsExactlyUnexposed` | packages/crypto/src/log.ts:705-862 | the exact boundary: no replay-valid log forks the honest one if and only if no commitment a further event could still reveal is exposed |
| `Identity.CommittedStateConforms` | packages/crypto/src/log.ts:78-121 | a state is committed to exactly when some conforming event could reveal it |
| `Identity.SignedEventAccepted` | packages/crypto/src/log.ts:144-156 | an event signed by the first t of its own keys satisfies its own key state |
| `Identity.CreatedIdentityKept` | packages/crypto/src/log.ts:158-174 | createIdentity establishes the invariant: the log replays clean, and what is held is what the tip commits to |
| `Identity.CreatedIdentityHolds` | packages/crypto/src/log.ts:158-174 | createIdentity holds one key and threshold 1, names itself by its inception, and commits to the other key alone |
| `Identity.RotationRevealsCommittedState` | packages/crypto/src/log.ts:225-341 | a rotation appends one event whose keys are the public keys of the held next keys, under the committed threshold, keeps the id and changes nothing before it |
| `Identity.RotationSucceedsIff` | packages/crypto/src/log.ts:225-341 | rotateIdentity succeeds exactly when it holds a satisfiable state to reveal and is asked for a handover alone, or for one to eight different keys, as many seeds as keys, and a threshold they can meet |
| `Identity.RotationHoldsRequested` | packages/crypto/src/log.ts:225-341 | it then holds exactly the keys and threshold asked for, defaulting to the number and the threshold revealed, and the tip commits to exactly these; a handover holds nothing |
| `Identity.NextRotationDeclaresRequested` | packages/crypto/src/log.ts:225-341 | the rotation after it lists the public keys asked for and declares the threshold asked for |
| `Identity.RotationCountsOn` | packages/crypto/src/log.ts:225-341 | the new sequence number is the last one's plus one, in decimal |
| `Identity.RotateErrorIsTrue` | packages/crypto/src/log.ts:225-341 | a refused rotation names a fault the identity or the call has |
| `Identity.RotatedIdentityKept` | packages/crypto/src/log.ts:225-341 | every non-throwing rotateIdentity keeps the invariant, shape changes and handover included |
| `Identity.BuiltLogsReplayClean` | packages/crypto/src/log.ts:158-341 | any non-throwing run of createIdentity and rotateIdentity calls replays clean, within the default budget, to the current keys, declared threshold and sequence number; and does so exactly while the log has at most 128 events, a bound rotateIdentity does not enforce |
| `Identity.HandoverIsFinal` | packages/crypto/src/log.ts:225-341 | after a handover to a given commitment every later rotation by the old holder is refused |
| `Records.CheckSignatureSet` | packages/crypto/src/records.ts:185-268 | checkSignatureSet under a meter is the unmetered verdict or the cost refusal, and spends exactly that |
| `Records.SetAcceptance` | packages/crypto/src/records.ts:185-268 | a set is accepted exactly when the state's keys differ, the threshold text is the decimal of the number of signatures, and they verify over the record's text under distinct keys in key order |
| `Records.SetRejectionIsTrue` | packages/crypto/src/records.ts:185-268 | the code of a rejected set is true: of the state, of the number of signatures, or of the first signature that has no key left |
| `Records.AnchoredAcceptance` | packages/crypto/src/records.ts:328-345 | an anchored record is accepted exactly when a quorum of the first state under the anchor signs it, and the anchor is unknown exactly when no state has it |
| `Records.AcceptedAtItsEvent` | packages/crypto/src/records.ts:328-345 | against a sound log a record is accepted exactly under the keys and threshold of the event whose digest it names |
| `Records.SignersAreListed` | packages/crypto/src/records.ts:333-344 | whatever key signed an accepted record is one the named event lists |
| `RetiredKeys.EachKeySignsAtItsEvent` | packages/crypto/src/records.ts:333-344 | for every identity created with one key and rotated to another: each key signs at its own event and is refused at the other |
| `Records.AnchoredCostBound` | packages/crypto/src/records.ts:328-345 | an anchored check costs at most one verification per key of one state |
| `Records.ExplainRejection` | packages/crypto/src/records.ts:185-268 | the explanation of a rejected walk is none exactly when a conforming assignment exists, and otherwise names the true cause |
| `Records.SharedMemberSameKey` | packages/crypto/src/records.ts:185-268 | a signature found in two accepted sets over one state verifies at the same key index in both |
| `Records.SameStateSameSet` | packages/crypto/src/records.ts:185-268 | two accepted sets over one state, one drawn from the members of the other, are the same set |
| `Records.AcceptedSetHasOneForm` | packages/crypto/src/records.ts:328-345 | deleting, reordering or repeating the signatures of an accepted record, over any fields and any anchor, is accepted against the same log only if it is that record, with the same digest |
| `Units.UnitRefines` | packages/verify/src/record-unit.ts:446-575 | for any meters and any sound memo a record unit gets the ideal ruling or is held on cost, and no more is charged than the tightest meter held |
| `Units.LeafKeyAcceptance` | packages/verify/src/record-unit.ts:398-416 | a delegated record is signed exactly when it carries one signature and that verifies under the leaf key |
| `Units.UnitStandsIffSigned` | packages/verify/src/record-unit.ts:446-575 | a unit stands exactly when its principal signed it at its anchor and it carries no chain, or it carries no anchor and the key at the leaf of an authorized chain for that principal, covering what the record needs, signed it |
| `Units.MembersAgree` | packages/verify/src/record-unit.ts:520-546 | without the revocation check a ruling depends neither on the wall clock nor on the revocations the view has heard of |
| `UnitRefusals.RulingIsTrue` | packages/verify/src/record-unit.ts:398-575 | a ruling that is not for the unit is true of it: of its mode, the principal's log, the chain's verdict, or the leaf |
| `ExactMeters.UnitMeteringIsExact` | packages/verify/src/record-unit.ts:446-575 | a metered ruling is the unmetered one if the meter covers it, else a cost hold that empties the meter |
| `Units.DelegatedUnitConvergesIff` | packages/verify/src/record-unit.ts:534-546 | a delegated unit that stands in full stands or waits through a lagging view exactly unless, going from the leaf, a link anchored beyond the copy comes before any link without one; that unit is rejected, since UNIT_WAIT_REASONS omits the reason |
| `Units.LaggingViewConvergesIff` | packages/verify/src/record-unit.ts:479-575 | through a view that lags on any participants' logs any unit gets the full view's ruling or a wait, exactly unless the first failing chain link is anchored beyond its copy there and is not in full |
| `LaggingViews.LateAnchorIsRejected` | packages/verify/src/record-unit.ts:534-546 | the input: a unit that stands on the owner's two events is rejected, and not held, on a copy of the first |
| `Grants.AbilityCoversTransitive` | packages/trust/src/resolver.ts:1025-1032 | path-prefix cover of abilities is transitive |
| `Grants.CoversAllTransitive` | packages/trust/src/resolver.ts:1225-1241 | covering every ability is transitive down a chain |
| `Grants.CoverIsBySegments` | packages/trust/src/resolver.ts:1025-1032 | one ability covers another exactly when its slash-separated segments are the first of the other's |
| `Grants.E2eeIsFirstSegment` | packages/protocol/src/index.ts:367-369 | an ability is of the e2ee namespace exactly when its first segment is e2ee |
| `Grants.GrantTextCoversEveryField` | packages/protocol/src/index.ts:465-538 | a grant's signatures cover every field of it: equal signing texts mean equal grants, caveats up to order |
| `Grants.GrantDigestInjective` | packages/trust/src/resolver.ts:1349-1357 | with a collision-free hash a proof names one parent, signatures and all |
| `Grants.RevocationTextCoversEveryField` | packages/protocol/src/index.ts:296-304 | a revocation's signatures cover every field of it |
| `Grants.AbsentFieldsAreUnsigned` | packages/crypto/src/jcs.ts:39-42 | an anchor or expiry the grant does not have is not in the text that is signed, neither empty nor null |
| `Jcs.UndefinedIsLeftOut` | packages/crypto/src/jcs.ts:39-42 | a member whose value is undefined leaves no trace in the text, wherever it stands |
| `Signers.SignerIsBound` | packages/trust/src/resolver.ts:611-666 | a lookup answers with states exactly when the view serves a sound log that begins with the id's own inception, and the states are those it establishes |
| `Signers.SignerRefusals` | packages/trust/src/resolver.ts:611-666 | mismatched exactly for a sound log of another id, unresolved exactly where there is no sound log, an error exactly where the view is unreachable |
| `Signers.MemoIsBound` | packages/trust/src/resolver.ts:585-609 | whatever a sound memo holds of a participant are the states of its own log, all under its id |
| `Signers.AnchoredIffSigned` | packages/trust/src/resolver.ts:750-764 | a record judged under a lookup's states is accepted exactly when a quorum of the named event of the participant's own log signs it |
| `Signers.OneKeySigns` | packages/trust/src/resolver.ts:1043-1059 | a single-key check accepts exactly one signature that verifies under the key |
| `Attenuation.SchemaIff` | packages/protocol/src/index.ts:465-538 | the schema's cross-field rules: a link to a bare key expires and, unless all its abilities are e2ee, names an audience |
| `Resolver.Revokers` | packages/trust/src/resolver.ts:1359-1367 | the revokers of a link are the participant issuers from it up to the root, every one of them and nobody else, at most one per link |
| `Attenuation.EffectiveAudWalk` | packages/trust/src/resolver.ts:1243-1278 | the root-to-leaf audience walk passes exactly when every audience lies within every one nearer the root, and ends with the one nearest the leaf |
| `Attenuation.AudErrorIff` | packages/trust/src/resolver.ts:1243-1278 | no audience refusal exactly when audiences narrow, the verifier is in every one carried, and one is carried where demanded |
| `Attenuation.StructureReasonIff` | packages/trust/src/resolver.ts:1131-1278 | the checks made before any curve work pass exactly on structurally well-delegated chains |
| `Attenuation.ScanClears` | packages/trust/src/resolver.ts:859-954 | the candidate loop finds no revocation exactly when no relevant candidate is a genuine one and no relevant issuer lookup failed |
| `Attenuation.ValidIffAuthorized` | packages/trust/src/resolver.ts:1131-1386 | the unmetered verdict is valid exactly for authorized chains: a self-issued root, every link well made, in force, signed by its issuer at the event it names in the issuer's own log, delegated by its parent within its segments, within its audiences, and not revoked by an issuer's own record |
| `Attenuation.ValidVerdictIsAttenuated` | packages/trust/src/resolver.ts:1131-1386 | behind any valid verdict, metered or not: it reports the leaf; every reported ability continues, segment by segment, one of every ancestor; one subject, the verifier in every audience, and proofs that name the verified parents |
| `Refusals.VerdictIsTrue` | packages/trust/src/resolver.ts:1131-1386 | a refused chain: the reason is true of it, and where it concerns a link every link nearer the leaf is in order; an error of the view is one at that link |
| `Refinement.SignerRefines` | packages/trust/src/resolver.ts:585-666 | a memoised, metered key-log lookup is the full replay's answer or a cost refusal, and the memo stays sound because failures are not remembered |
| `Refinement.LookupRefines` | packages/trust/src/resolver.ts:859-954 | a metered revocation lookup is the ideal lookup or a cost refusal |
| `Refinement.MeteredRunRefinesIdeal` | packages/trust/src/resolver.ts:1131-1386 | for any meters and any memo left by earlier calls, the verdict is the ideal one or a cost refusal, no more is charged than the tightest meter held, and the memo stays sound |
| `Refinement.ChainCutsShort` | packages/trust/src/resolver.ts:1131-1386 | a metered run is the unmetered run, or a refusal that charged no more and started no more replays |
| `Refinement.ReplaysAreOfLogs` | packages/trust/src/resolver.ts:611-666 | a lookup starts one replay exactly when it is not remembered and the view serves events |
| `ExactMeters.MeteringIsExact` | packages/trust/src/resolver.ts:507-535 | a metered verification is the unmetered one if the meter covers its whole cost, else a cost refusal that spends exactly what the meter held |
| `ExactMeters.CoveredRunIsIdeal` | packages/trust/src/resolver.ts:859-954 | where every lookup fits its allowance a meter that covers the run gives the ideal verdict |
| `WorkBounds.UnmeteredRunBound` | packages/trust/src/resolver.ts:1094-1386 | the unmetered run's replays and checks are within the sums over links; with clean issuer logs, within one replay per distinct issuer |
| `WorkBounds.ChainWorkBound` | packages/trust/src/resolver.ts:1094-1386 | for any view, meters and memo: one replay per link and per issuer asked about below the root, 13 for the longest chain, and at most 13408 checks; when the issuers' logs replay clean, the documented closed form and its 4192 |
| `HostileViews.ReplayedPerCandidate` | packages/trust/src/resolver.ts:585-609 | a log that fails to replay is replayed again and paid for at every candidate that names it |
| `HostileViews.ReplayBoundIsTight` | packages/trust/src/resolver.ts:1094-1130 | for every chain, under a view with a bad log for the root, the replay bound is attained and each bad replay is charged in full |
| `HostileViews.FloodedChainsCost` | packages/trust/src/resolver.ts:1094-1130 | in closed form, whatever the chain's length: 1 replay at the root link, then 3, 4 and 5 below it, all but one a lower link of the bad log |
| `HostileViews.ShortChainsFit` | packages/trust/src/resolver.ts:1094-1130 | a chain of at most two links costs no more than 4192 checks, whatever the view answers and whatever was remembered |
| `FloodedChain.DocumentedCeilingExceeded` | packages/trust/src/resolver.ts:1094-1130 | the inputs past 4192: a three-link chain with 8 replays and at least 6144 checks, a four-link one with 13 and 10240 |
| `FloodedChain.CeilingHoldsIffShort` | packages/trust/src/resolver.ts:1094-1130 | the documented ceiling holds of every view for chains of up to n links if and only if n is at most two |
| `HonestLookups.HonestCeiling` | packages/trust/src/resolver.ts:1120-1130 | under a view whose candidates for a grant do revoke it, whatever its logs: one replay per link, one check per link and one candidate besides, the documented honest ceiling of 4136 |
| `DecimalAmounts.ScaledIsExact` | packages/trust/src/financial-caveats.ts:183-194 | a scaled amount is exactly the decimal shifted by the stated number of places |
| `DecimalAmounts.AmountAtMostIsExact` | packages/trust/src/financial-caveats.ts:203-206 | comparing scaled integers is comparing the decimals themselves |
| `DecimalAmounts.AtMostIff` | packages/trust/src/financial-caveats.ts:63-88 | amounts are digits without a leading zero and at most eighteen after a point, compared as what they are worth |
| `FinancialCaveats.ApprovesIffEveryCaveatMet` | packages/trust/src/financial-caveats.ts:223-335 | the evaluator approves exactly when every caveat is one it understands and is met, in whatever order they are written |
| `FinancialCaveats.ValidChainIsWithinEveryCap` | packages/trust/src/financial-caveats.ts:223-335 | behind a valid verdict with this evaluator, the action's amount is at most every cap on every link, as exact decimals in the cap's currency |
| `Operations.DistinctMeters` | packages/trust/src/resolver.ts:507-519 | the meters of an operation are a set: one object in two positions is charged once |
| `Operations.WorkOptions` | packages/trust/src/resolver.ts:507-535 | every distinct meter is made a safe count, never refilled, and the ceiling is the least of them |
| `Operations.ChargeAll` | packages/trust/src/resolver.ts:527-535 | reporting a spend lowers every distinct meter by exactly that much |
| `Operations.Operation.ReplayFor` | packages/trust/src/resolver.ts:611-666 | a replay of what the view returned is charged to every distinct meter whether or not it succeeds |
| `Operations.Operation.SignerStates` | packages/trust/src/resolver.ts:585-609 | the memo's answer, or a charged replay remembered only when it succeeds; the asks of suspended calls are in Interleavings |
| `Interleavings.InterleavedCallsAreSound` | packages/trust/src/resolver.ts:383-417 | however calls of one context interleave at their awaits, over however many views, each verdict is the ideal one or a cost refusal, and the outer and local meters hold exactly what they were granted less what was spent |
| `Interleavings.ReplaysAreShared` | packages/trust/src/resolver.ts:585-609 | in every reachable state a participant of a view was replayed again only after its earlier replay failed |
| `LoneCalls.LoneCallIsSequential` | packages/trust/src/resolver.ts:1131-1386 | a call that moves alone from a context with no replay of its view pending ends with exactly the verdict and the spending of the sequential verification under the tighter meter and what the memo holds |
| `InterleavedProgress.InterleavedCallsFinish` | packages/trust/src/resolver.ts:585-609 | no call waits for ever: some call can move exactly while one is unfinished, and a call moves at most 72 times |
| `InterleavedRefusals.AmpleMetersGiveIdeal` | packages/trust/src/resolver.ts:507-535 | while every meter of the context could still pay for a longest replay, a call whose lookups fit their allowance gets the ideal verdict |
| `Operations.Operation.SignedAtAnchor` | packages/trust/src/resolver.ts:750-764 | the anchored check of a link, charged up to the tightest meter |
| `Operations.Operation.SignedByKeyIssuer` | packages/trust/src/resolver.ts:1043-1059 | a key issuer's link: exactly one signature under the key itself, charged |
| `Operations.Operation.CheckCandidate` | packages/trust/src/resolver.ts:859-954 | a candidate check is charged to the operation's meters and to the lookup's own allowance alike |
| `Operations.ScanTakesTurns` | packages/trust/src/resolver.ts:859-954 | the specified candidate scan is its loop's turns one after another |
| `Operations.Operation.ScanCandidates` | packages/trust/src/resolver.ts:872-954 | the candidate loop, under one allowance for all candidates, does exactly what the specified scan does |
| `Operations.Operation.FindRevocation` | packages/trust/src/resolver.ts:859-954 | findRevocation on the operation's objects is the specified lookup; an answer with more candidates than issuers asked for is malformed |
| `Operations.Operation.VerifyLink` | packages/trust/src/resolver.ts:1291-1371 | one turn of the link loop on the shared meters and memo is the specified link step |
| `Operations.Operation.VerifyLinks` | packages/trust/src/resolver.ts:1290-1377 | the link loop, leaf first, stops at the first link that does not pass |
| `Operations.Operation.VerifyChain` | packages/trust/src/resolver.ts:1131-1386 | verifyGrantChain on mutable meters and a mutable memo equals its specification, and every distinct meter falls by exactly the checks charged |
| `Operations.Operation.VerifySoundly` | packages/trust/src/resolver.ts:1131-1386 | from any sound memo: the ideal verdict or a cost refusal, the memo still sound, exactly paid for |
| `Operations.NormalizedBudget` | packages/trust/src/resolver.ts:441-456 | the caller's own budget object made safe, or a fresh one at the view's ceiling |
| `Operations.MemoFor` | packages/trust/src/resolver.ts:459-498 | a context hands out one memo per view and creates it on first use |
| `Operations.BeginOperation` | packages/trust/src/resolver.ts:459-498 | an operation passed in is reused only for its own view and context; otherwise a new one starts on the right meters and memo |
| `Operations.Context.constructor` | packages/trust/src/resolver.ts:414-417 | a context starts on the caller's own budget, made safe, with no memos |
| `Operations.VerifyInContext` | packages/trust/src/resolver.ts:459-498 | any sequence of calls sharing one context: each verdict is ideal or a cost refusal, the request's meter, reset to zero where it was malformed, falls by exactly what was spent and never below zero, and no view can read another's memo |
| `JsonStrings.ReadBodyOfEscaped` | packages/crypto/src/jcs.ts:20-23 | reading a printed string gives it back and stops where it ends, surrogates paired or not |
| `JsonStrings.EscapesAreShortest` | packages/crypto/src/jcs.ts:11-45 | a unit is escaped only if it is a control, a quote, a backslash or a lone surrogate, by a letter where there is one and by four lower-case digits otherwise |
| `JsonStrings.PlainTextIsKept` | packages/crypto/src/jcs.ts:11-45 | a text that needs no escapes is written as it is, surrogate pairs included |
| `JsonStrings.EscapeLetters` | packages/protocol/src/index.ts:1005-1070 | the eight escape letters and what they stand for |
| `JsonStrings.HexDigitsOfEitherCase` | packages/protocol/src/index.ts:1005-1070 | hexadecimal digits of either case are read, and nothing else |
| `JsonStrings.FourDigitsInOrder` | packages/protocol/src/index.ts:1005-1070 | four digits are read from the first, which counts most |
| `JsonStrings.QuotePrefixFree` | packages/crypto/src/jcs.ts:20-23 | printed strings are prefix-free |
| `Jcs.SortSorts` | packages/crypto/src/jcs.ts:37-40 | sorting members by name keeps them all and puts them in strictly ascending order |
| `Jcs.LessAtFirstDifference` | packages/crypto/src/jcs.ts:39-45 | names are ordered by their first differing code unit, a prefix before what it starts |
| `Jcs.PrefixFree` | packages/crypto/src/jcs.ts:10-44 | canonical text followed by a delimiter can be read only one way, by induction over nested values |
| `Jcs.SamePrints` | packages/crypto/src/jcs.ts:10-44 | values equal up to member order and undefined members print the same |
| `Jcs.CanonicalTextIffSame` | packages/crypto/src/jcs.ts:10-44 | two printable values have the same canonical text exactly when they are equal up to member order and undefined-valued members (sections 3.2.2 and 3.2.3 of RFC 8785) |
| `CanonicalTexts.DeriveText` | packages/crypto/src/jcs.ts:11-45 | canonical text is a JSON text without whitespace, its members in ascending name order, and every parser that reads it back gets the value it was printed from |
| `Jcs.ThrowsIffUnprintable` | packages/crypto/src/jcs.ts:10-44 | canonicalization throws exactly when an undefined array item or an unserializable part stands in a printed position |
| `JsonTexts.RulesAgree` | packages/protocol/src/index.ts:1005-1009 | a value that repeats no name resolves the same whether the first or the last of repeated members wins |
| `JsonTexts.NumberParts` | packages/protocol/src/index.ts:1005-1009 | a fraction is a point and digits; an exponent is the letter in either case, a sign or none, and digits (RFC 8259, section 6) |
| `JsonScanner.AfterStringIsRest` | packages/protocol/src/index.ts:1033-1047 | the escape flag of the scanner stops at the very quote at which the decoder stops |
| `JsonScanner.ScanValue` | packages/protocol/src/index.ts:1022-1070 | over any well-formed value the automaton refuses exactly if the value repeats a name, and otherwise goes on as if it were not there |
| `JsonScanner.ScannerAgreesWithGrammar` | packages/protocol/src/index.ts:1022-1070 | on every text of the RFC 8259 grammar the scan throws exactly when some object at some depth has two members of one decoded name |
| `JsonScanner.AcceptedTextsAreUnambiguous` | packages/protocol/src/index.ts:1005-1070 | a derivation of an accepted text denotes the same value under first-wins and last-wins |
| `JsonReadings.TextHasOneReading` | packages/protocol/src/index.ts:1005-1070 | two derivations of one text denote the same value under either rule for repeated names |
| `JsonReadings.AcceptedTextHasOneValue` | packages/protocol/src/index.ts:1005-1070 | an accepted text denotes one value, whichever derivation and whichever rule a parser follows |
| `JsonScanner.SkipLiteral` | packages/protocol/src/index.ts:1032-1046 | the inner string loop ends just past the closing quote |
| `JsonScanner.AssertNoDuplicateKeys` | packages/protocol/src/index.ts:1022-1070 | the indexed loop with its frame stack computes the specified scan on every text, well-formed or not |
| `Positional.MulAddIsNumeral` | packages/protocol/src/encoding.ts:60-76 | one multiply-and-carry pass takes the minimal numeral of n to that of n*m + c |
| `Base58.ConvertRoundTrip` | packages/protocol/src/encoding.ts:56-113 | changing base and back loses nothing, leading zeros included |
| `Base58.DecodeEncode` | packages/protocol/src/encoding.ts:56-113 | decoding an encoding gives back the bytes, for every byte string |
| `Base58.EncodeDecode` | packages/protocol/src/encoding.ts:56-113 | every text over the alphabet decodes, and encodes back to itself |
| `Base58.DecodeBase58` | packages/protocol/src/encoding.ts:56-86 | the decoder's loops compute the specified decoding, None at the first character outside the alphabet |
| `Base58.PushSymbol` | packages/protocol/src/encoding.ts:65-75 | the carry loop on 32-bit operators is one exact multiply-and-add |
| `Base58.EncodeBase58` | packages/protocol/src/encoding.ts:88-113 | the encoder's loops compute the specified encoding |
| `Base58.PushByte` | packages/protocol/src/encoding.ts:90-101 | its carry loop is one exact multiply-and-add |
| `Base64Url.DecodeEncode64` | packages/protocol/src/encoding.ts:142-192 | decoding an encoding gives back the bytes |
| `Base64Url.EncodeDecode64` | packages/protocol/src/encoding.ts:142-192 | a text that decodes is the encoding of what it decodes to: stray bits and impossible lengths are refused |
| `Base64Url.LowBitsSurvive` | packages/protocol/src/encoding.ts:142-192 | although the accumulator is never reset and wraps at 32 bits, its low bits are always the pending bits followed by the new sextet |
| `Base64Url.DecodeBase64Url` | packages/protocol/src/encoding.ts:142-192 | the decoder with its wrapping accumulator computes the specified decoding |
| `Base64Url.EncodeBase64Url` | packages/protocol/src/encoding.ts:142-192 | the encoder, three bytes a turn, computes the specified encoding |
| `Encodings.MultibaseRoundTrip` | packages/protocol/src/encoding.ts:121-132 | the multibase codec round-trips exactly the non-empty byte strings; the bare prefix decodes to nothing |
| `Encodings.CanonicalMultibase` | packages/protocol/src/encoding.ts:211-231 | a multibase field accepts a text exactly when it is the encoding of a non-empty value of the demanded length |
| `Encodings.CanonicalBase64Url` | packages/protocol/src/encoding.ts:211-231 | a base64url field accepts a text exactly when it is the encoding of a value of the demanded length |
| `Encodings.DemandsAreMet` | packages/protocol/src/encoding.ts:211-231 | each length demand of a field spelled out: exactly n bytes, at least n, or one at least |
| `Encodings.NonceDigits` | packages/protocol/src/index.ts:72-77 | every 32-byte value encodes to between 32 and 44 digits |
| `Encodings.GroupNonceAccepts` | packages/protocol/src/index.ts:72-77 | so the prefilter refuses no nonce: the schema accepts exactly the encodings of 32-byte values |
| `TlsSyntax.VarintHasOneForm` | packages/crypto/src/tls-syntax.ts:66-112 | the integer decoder accepts exactly the encoder's outputs (section 16 of RFC 9000, section 2.1.2 of RFC 9420) |
| `TlsSyntax.OpaqueHasOneForm` | packages/crypto/src/tls-syntax.ts:129-152 | the vector decoder accepts exactly the encoder's outputs, at any offset |
| `TlsSyntax.VarintRefusalIsTrue` | packages/crypto/src/tls-syntax.ts:66-112 | each refusal of an integer is true of it: the eight-byte prefix, fewer bytes than the prefix announces, or a value that has a shorter form |
| `TlsSyntax.OpaqueRefusalIsTrue` | packages/crypto/src/tls-syntax.ts:129-152 | a vector is refused for its header's fault, or exactly when its body is not all there |
| `TlsSyntax.CompareIsTotal` | packages/crypto/src/tls-syntax.ts:155-164 | byte order is antisymmetric, and zero only on equal strings |
| `TlsSyntax.CompareIsTransitive` | packages/crypto/src/tls-syntax.ts:155-164 | byte order is transitive |
| `TlsSyntax.WriteFixed` | packages/crypto/src/tls-syntax.ts:51-60 | filling a fixed-width array from the low end gives the shortest form of its value |
| `TlsSyntax.EncodeVarintBytes` | packages/crypto/src/tls-syntax.ts:25-75 | the encoder computes the specified form, or None where it throws |
| `TlsSyntax.DecodeVarintBytes` | packages/crypto/src/tls-syntax.ts:81-112 | the decoder's loop computes the specified reading with each refusal told apart |
| `TlsSyntax.ConcatBytes` | packages/crypto/src/tls-syntax.ts:114-126 | filling one buffer chunk by chunk is concatenation |
| `TlsSyntax.CompareByteStrings` | packages/crypto/src/tls-syntax.ts:155-164 | the comparison loop computes the byte order |
| `MlsProfile.GroupIdRoundTrip` | packages/crypto/src/mls-profile.ts:208-220 | conversation ids and group ids name each other one to one |
| `MlsProfile.GroupIdsAreMultihashes` | packages/crypto/src/mls-profile.ts:208-220 | a group id is the 34 bytes of a SHA-256 multihash and its conversation id the multibase text of those bytes |
| `MlsProfile.UnpadAcceptsPad` | packages/crypto/src/mls-profile.ts:174-202 | unpadding accepts exactly the outputs of padding |
| `MlsProfile.PaddedLengthIsLeast` | packages/crypto/src/mls-profile.ts:174-179 | the padded length is the least multiple of 256 that is long enough |
| `MlsProfile.PadFillsTheBlock` | packages/crypto/src/mls-profile.ts:174-179 | padding adds zeros, fewer than 256, to a whole number of blocks |
| `MlsProfile.PadApplicationContent` | packages/crypto/src/mls-profile.ts:174-179 | padding fills an array as specified |
| `MlsProfile.UnpadApplicationContent` | packages/crypto/src/mls-profile.ts:186-202 | the loop over the padding accepts only zeros and the exact padded length |
| `CommitBindings.RawHasOneForm` | packages/crypto/src/mls-profile.ts:134-160 | a list of byte strings has exactly one framed form |
| `CommitBindings.EncodesDistinctDigests` | packages/crypto/src/mls-profile.ts:111-126 | within the vector length, a list is encoded exactly when every entry is a digest and none repeats |
| `CommitBindings.BindingDependsOnSet` | packages/crypto/src/mls-profile.ts:111-126 | lists of the same digests have the same bytes |
| `CommitBindings.DecodeEncodedBinding` | packages/crypto/src/mls-profile.ts:111-160 | a binding decodes to its digests, strictly sorted |
| `CommitBindings.BindingReencodesIffNoBom` | packages/crypto/src/mls-profile.ts:134-160 | a binding that decodes re-encodes to the same bytes if and only if no entry begins with a byte-order mark |
| `CommitBindings.BomIsDropped` | packages/crypto/src/mls-profile.ts:45 | for every digest there is a second byte form, its entry behind a byte-order mark, that decodes to the same list |
| `CommitBindings.EncodeBinding` | packages/crypto/src/mls-profile.ts:111-126 | check, sort in byte order, look for a neighbour repeated, frame: the specified encoding |
| `CommitBindings.DecodeBinding` | packages/crypto/src/mls-profile.ts:134-160 | the walk over the body, each entry against the one before, computes the specified decoding |
| `OrderedMaps.Sweep` | packages/crypto/src/nonce-guard.ts:241-249 | one pass over an insertion-ordered map drops exactly the entries already due and keeps insertion order deadline order |
| `OrderedMaps.OldestIsFirst` | packages/crypto/src/nonce-guard.ts:251-270 | the first entry holds the least deadline |
| `NonceGuards.ChecksKeepSpacing` | packages/crypto/src/nonce-guard.ts:273-311 | over any run of checks in clock order two records of one nonce are at least a TTL apart |
| `NonceGuards.ChecksKeepCeiling` | packages/crypto/src/nonce-guard.ts:273-311 | one check keeps the live nonces within the ceiling, then or later |
| `NonceGuards.RunsKeepCeiling` | packages/crypto/src/nonce-guard.ts:273-311 | over any run of checks the live nonces never exceed the ceiling, at its end or later |
| `NonceGuards.PeekAgreesWithCheck` | packages/crypto/src/nonce-guard.ts:313-321 | a peek says replayed exactly when a check at that instant would, and fresh whenever the check would |
| `NonceGuards.VerdictsAreTrue` | packages/crypto/src/nonce-guard.ts:273-321 | the first fault decides, in both check and peek: an unusable clock, then a repeat within a TTL, then, for check alone, no room |
| `NonceGuards.MapAnswersForHistory` | packages/crypto/src/nonce-guard.ts:226-331 | a pruned map answers for the never-pruned history: a nonce is remembered exactly when its deadline lies ahead |
| `NonceGuards.LiveFitsMap` | packages/crypto/src/nonce-guard.ts:298-307 | the map is never smaller than the live set, and equal to it once nothing in it is due |
| `NonceGuards.NonceGuard.SweepAt` | packages/crypto/src/nonce-guard.ts:241-249 | a sweep drops what is due and nothing else, and frees something whenever something is due |
| `NonceGuards.NonceGuard.SweepCouldFree` | packages/crypto/src/nonce-guard.ts:267-270 | the constant-time look at the first entry answers whether any entry is due |
| `NonceGuards.NonceGuard.Check` | packages/crypto/src/nonce-guard.ts:273-311 | check refines the history: replayed exactly when recorded less than a TTL ago, else at capacity exactly when live nonces reach the ceiling, else fresh and recorded |
| `NonceGuards.NonceGuard.Peek` | packages/crypto/src/nonce-guard.ts:313-321 | peek gives the history's answer and changes nothing |
| `NonceGuards.NonceGuard.SweepBudget` | packages/crypto/src/nonce-guard.ts:226-331 | in every valid state sweeps are at most the timely ones, a TTL apart, plus one per fresh verdict |
| `NonceGuards.SweepPace` | packages/crypto/src/nonce-guard.ts:284-286 | n timely sweeps take at least n - 1 TTLs |
| `VerifyRuns.RunIsSound` | packages/verify/src/verifier.ts:451-669 | under any interleaving of timely runs, of two acceptances of one nonce the later asked a TTL or more after the earlier committed |
| `VerifyRuns.TtlOutlastsWindow` | packages/crypto/src/nonce-guard.ts:123-125 | a TTL of 2*skew+1 seconds is wider than one freshness window, whole-second flooring included |
| `VerifyRuns.NoDoubleAcceptance` | packages/verify/src/verifier.ts:451-669 | no interleaving of timely runs accepts one creation time and nonce twice under the derived TTL |
| `VerifyRuns.ShortTtlReplays` | packages/crypto/src/nonce-guard.ts:123-125 | for every TTL of at most 2*skew a timely run accepts one request twice |
| `VerifyRuns.DerivedTtlIsLeast` | packages/crypto/src/nonce-guard.ts:123-125 | no timely interleaving accepts twice if and only if the TTL is at least 2*skew+1 |
| `VerifyRuns.StalledRunReplays` | packages/verify/src/verifier.ts:525-654 | a run prompt in everything but its last commit, which comes a TTL after its peek, replays its twin, whatever the TTL |
| `VerifyRuns.StallBoundIsTtl` | packages/verify/src/verifier.ts:525-654 | with the derived TTL or a longer one, runs that commit within a bound of their peek never accept twice if and only if the bound is at most the TTL |
| `VerifyRuns.Surface.AskPhase` | packages/verify/src/verifier.ts:451-536 | freshness then peek on the real guard is the ask step of the run model |
| `VerifyRuns.Surface.CommitPhase` | packages/verify/src/verifier.ts:654-670 | check on the real guard is the commit step of the run model |
| `VerifyRuns.Surface.AcceptsNothingTwice` | packages/verify/src/verifier.ts:451-669 | whatever a surface has been through, it accepted no request twice |
| `Throttles.ReachableIsSafe` | packages/verify/src/discovery-view.ts:736-792 | in every reachable state: in-flight equals slots held and is within the cap, the queue is within its bound, nobody waits while a slot is free, every call is waiting or answered |
| `Throttles.AcquireDecides` | packages/verify/src/discovery-view.ts:736-792 | a call takes a free slot, else waits at the back, and is refused only when slots and queue are full |
| `Throttles.ReleaseHandsOn` | packages/verify/src/discovery-view.ts:736-792 | a released slot goes at once to the longest-waiting call and to nobody else |
| `Throttles.TimeoutRefuses` | packages/verify/src/discovery-view.ts:736-792 | a timer refuses the call that still waits, and changes nothing for any other |
| `Throttles.GrantsAreFair` | packages/verify/src/discovery-view.ts:736-792 | grants are in the order of the calls, and no granted call came after a waiting one |
| `Throttles.NobodyOvertaken` | packages/verify/src/discovery-view.ts:736-792 | once a call is granted every earlier call has been granted or refused |
| `Throttles.AnsweredOnce` | packages/verify/src/discovery-view.ts:736-792 | an answered call keeps its answer through every later step |
| `Throttles.FetchThrottle.AcquireSlot` | packages/verify/src/discovery-view.ts:739-787 | acquireFetchSlot is the acquire step: a slot, a place in the queue, or a refusal |
| `Throttles.FetchThrottle.ReleaseSlot` | packages/verify/src/discovery-view.ts:789-792 | a slot given back is handed to the first waiter in the same step |
| `Throttles.FetchThrottle.TimeOut` | packages/verify/src/discovery-view.ts:763-774 | a timer refuses exactly a waiter still in the queue |
| `DiscoveryCaches.EvictionDropsOldest` | packages/verify/src/discovery-view.ts:694-708 | the first entry, which eviction drops, falls due no later than any other |
| `DiscoveryCaches.AdmittedDropsOldest` | packages/verify/src/discovery-view.ts:686-708 | whatever making room dropped falls due no later than anything kept |
| `DiscoveryCaches.LookupCache.Lookup` | packages/verify/src/discovery-view.ts:794-815 | a hit is the body last stored at that path, less than a TTL ago; every unexpired entry stays, in its place, and an expired one goes with the sweep once a TTL has passed or when it is asked for |
| `DiscoveryCaches.LookupCache.SweepCouldFree` | packages/verify/src/discovery-view.ts:683-687 | the first entry tells whether any entry is due |
| `DiscoveryCaches.LookupCache.Admit` | packages/verify/src/discovery-view.ts:694-708 | nothing goes while there is room; otherwise everything due goes, and then exactly as many of the longest stored as one new entry needs |
| `DiscoveryCaches.LookupCache.Store` | packages/verify/src/discovery-view.ts:935-948 | room is made as for one new entry, and the body stands at the back with a deadline counted from now, all others as they were |
| `KeyStateMemos.LogDigestInjective` | packages/verify/src/discovery-view.ts:975-977 | with a collision-free hash equal log digests mean equal logs |
| `KeyStateMemos.EarnedAnswers` | packages/verify/src/discovery-view.ts:975-986 | an entry under the digest of these events is what their full replay gives |
| `KeyStateMemos.FullReplayIsBound` | packages/verify/src/discovery-view.ts:986-1034 | a state is answered exactly for a sound log that begins with the id's own inception, and is its last one |
| `KeyStateMemos.FreshAnswers` | packages/verify/src/discovery-view.ts:986-1034 | under a ceiling that covers the replay its answer is given; else a cost refusal, or nothing to a caller without a meter |
| `KeyStateMemos.KeyStateMemo.Remember` | packages/verify/src/discovery-view.ts:656-671 | an entry is added within the ceiling, the least recently used one making room |
| `KeyStateMemos.KeyStateMemo.ReplayAndRemember` | packages/verify/src/discovery-view.ts:986-1034 | a stale entry goes before the replay, so a refusal leaves none; the meters fall by exactly the replay's charge |
| `KeyStateMemos.KeyStateMemo.HitTellsTruth` | packages/verify/src/discovery-view.ts:975-986 | a hit is the state a full replay of the fetched events would give, bound to the id |
| `KeyStateMemos.KeyStateMemo.GetKeyState` | packages/verify/src/discovery-view.ts:961-1034 | every state returned, remembered or replayed, is the full replay's for the events just fetched and the id asked; a hit spends nothing; a miss answers as without a memo |

## Left out

- Ed25519, SHA-256, random generation and the foreign base58 and base64 libraries: functions with stated hypotheses; the producer's secret keys stand for key pairs.
- Numbers that are no safe integers: canonical text is modelled for the numbers signing admits (`assertSignableNumbers`), so fractions and exponents do not occur; negative zero, which it admits and which prints as 0, is the integer 0.
- Non-string keys and exotic objects in canonical values: a value is null, a boolean, a number, a string, an array, an object, undefined, or something unserializable.
- Thresholds given as numbers: `parseThreshold` is modelled on the texts the schemas carry.
- Undecodable signatures inside a signature set: records are modelled after schema parsing, so an array member is decodable text; an issuing key that does not decode counts as one that never verifies.
- `verifyClaim`, `verifyRelationship` and `verifyRepresentsChain`: single-signature statements, a short sequence of checks over the same lookups.
- Mutable objects under interleaving: `Operations` runs the calls of a context one after another on the objects themselves, and `Interleavings` lets them interleave on values. There the local meter of each call is its own object, and a meter is not reset under a running call.
- The `aud` caveat's two spellings: one participant is read as a list of one.
- HTTP header syntax, content digests, signature bases, the grants header, PNCredential and everything else before the freshness check of a request: text plumbing.
- Zod: schemas appear as the bounds and cross-field rules the proofs use, and parsing failures as one malformed case.
- Error wording, sweep and size counters exposed only to operators, and `explain` output beyond the rejection cause.
- Dates: instants are integers, and a text that is no date is a missing instant where the source asks.
- Wall-clock steps: both clocks advance together; the guard documents a backward step as out of its reach. A reading that is no usable integer is modelled and refused.
- Runs that take a TTL or longer from peek to commit: excluded from `VerifyRuns.NoDoubleAcceptance` by its hypothesis, and `VerifyRuns.StallBoundIsTtl` shows that exactly these must be.
- Fetching, streaming, deadlines and aborts behind the discovery cache: a miss is what the fetch answered, and the throttle's timers are events that may fire at any time.
- Caveat maps with inherited members or of another type: a caveats value is a plain list of members or refused.
- `e2ee` device records, conversation evaluation, the MLS adapter, the CLI, the Express and fetch adapters, issuing helpers: thin wrappers or I/O.
