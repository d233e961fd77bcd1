/**
 * A request's one signature probed against the actor's current keys
 * (packages/crypto/src/http-signature.ts:322-418), and the single-signature record check that probes
 * the same way but reads its meter sooner (packages/crypto/src/records.ts:75-105).
 */
module RequestSignatures {
  import opened Common
  import opened SignatureSets
  import opened Metering
  import opened KeyEvents

  /** A probe's end: the first key that verifies, none, or a key that does not decode on the way. */
  datatype Probed = SatisfiedBy(index: nat) | NoKeySatisfies | KeyUndecodable

  /** The keys from `i` on, in order, without a meter; decoding a key costs nothing. */
  function Probe(c: Primitives, signature: Text, message: Text, keys: seq<Text>, i: nat): Work<Probed>
    requires i <= |keys|
    decreases |keys| - i
  {
    if i == |keys| then Work(NoKeySatisfies, 0)
    else if !c.keyDecodes(keys[i]) then Work(KeyUndecodable, 0)
    else if c.verify(signature, message, keys[i]) then Work(SatisfiedBy(i), 1)
    else
      var rest := Probe(c, signature, message, keys, i + 1);
      Work(rest.verdict, rest.cost + 1)
  }

  /** Key `k` verifies, and every key before it decodes and does not. */
  ghost predicate FirstToVerify(c: Primitives, signature: Text, message: Text, keys: seq<Text>, k: nat) {
    && k < |keys| && c.keyDecodes(keys[k]) && c.verify(signature, message, keys[k])
    && forall i :: 0 <= i < k ==> c.keyDecodes(keys[i]) && !c.verify(signature, message, keys[i])
  }

  /** Some key fails to decode before any key verifies. */
  ghost predicate BlockedAt(c: Primitives, signature: Text, message: Text, keys: seq<Text>, k: nat) {
    && k < |keys| && !c.keyDecodes(keys[k])
    && forall i :: 0 <= i < k ==> c.keyDecodes(keys[i]) && !c.verify(signature, message, keys[i])
  }

  lemma {:induction false} ProbeFrom(c: Primitives, signature: Text, message: Text, keys: seq<Text>, i: nat)
    requires i <= |keys| && forall j :: 0 <= j < i ==> c.keyDecodes(keys[j]) && !c.verify(signature, message, keys[j])
    ensures var w := Probe(c, signature, message, keys, i);
      match w.verdict
      case SatisfiedBy(k) => i <= k && FirstToVerify(c, signature, message, keys, k) && w.cost == k + 1 - i
      case KeyUndecodable => BlockedAt(c, signature, message, keys, i + w.cost)
      case NoKeySatisfies => w.cost == |keys| - i && forall j :: 0 <= j < |keys| ==>
        c.keyDecodes(keys[j]) && !c.verify(signature, message, keys[j])
    decreases |keys| - i
  {
    if i < |keys| && c.keyDecodes(keys[i]) && !c.verify(signature, message, keys[i]) {
      ProbeFrom(c, signature, message, keys, i + 1);
    }
  }

  /** The probe loop of `verifyRequest`: a key is decoded before the meter is read. */
  method ProbeKeys(c: Primitives, signature: Text, message: Text, keys: seq<Text>, limit: nat)
    returns (outcome: Metered<Probed>, spent: nat)
    ensures outcome == Meter(Probe(c, signature, message, keys, 0), limit)
    ensures spent == Charge(Probe(c, signature, message, keys, 0), limit)
  {
    spent := 0;
    var i := 0;
    ghost var whole := Probe(c, signature, message, keys, 0);
    while i < |keys|
      invariant i <= |keys| && spent == i && spent <= limit
      invariant var rest := Probe(c, signature, message, keys, i); whole == Work(rest.verdict, spent + rest.cost)
    {
      if !c.keyDecodes(keys[i]) {
        return Finished(KeyUndecodable), spent;
      }
      if spent >= limit {
        return BudgetExceeded, spent;
      }
      spent := spent + 1;
      if c.verify(signature, message, keys[i]) {
        return Finished(SatisfiedBy(i)), spent;
      }
      i := i + 1;
    }
    outcome := Finished(NoKeySatisfies);
  }

  /** The record's probe reads its meter first, so even an undecodable key has to be afforded. */
  function MeterFirst(w: Work<Probed>): Work<Probed> {
    if w.verdict.KeyUndecodable? then Work(w.verdict, w.cost + 1) else w
  }

  /** `verifyRecordAgainstAny`. */
  method VerifyRecordAgainstAny(c: Primitives, signature: Text, message: Text, keys: seq<Text>, limit: nat)
    returns (outcome: Metered<Probed>, spent: nat)
    ensures outcome == Meter(MeterFirst(Probe(c, signature, message, keys, 0)), limit)
    ensures spent == Charge(Probe(c, signature, message, keys, 0), limit)
  {
    spent := 0;
    var i := 0;
    ghost var whole := Probe(c, signature, message, keys, 0);
    while i < |keys|
      invariant i <= |keys| && spent == i && spent <= limit
      invariant var rest := Probe(c, signature, message, keys, i); whole == Work(rest.verdict, spent + rest.cost)
    {
      if spent >= limit {
        return BudgetExceeded, spent;
      }
      if !c.keyDecodes(keys[i]) {
        return Finished(KeyUndecodable), spent;
      }
      spent := spent + 1;
      if c.verify(signature, message, keys[i]) {
        return Finished(SatisfiedBy(i)), spent;
      }
      i := i + 1;
    }
    outcome := Finished(NoKeySatisfies);
  }

  /** What the two probes answer under a meter: they differ in what a key that does not decode takes to reach. */
  lemma {:induction false} ProbeOutcomes(c: Primitives, signature: Text, message: Text, keys: seq<Text>, limit: nat,
      k: nat)
    ensures var probe := Probe(c, signature, message, keys, 0);
      && (Meter(probe, limit) == Finished(SatisfiedBy(k)) <==>
            k < limit && FirstToVerify(c, signature, message, keys, k))
      && (Meter(MeterFirst(probe), limit) == Finished(SatisfiedBy(k)) <==>
            k < limit && FirstToVerify(c, signature, message, keys, k))
      && (BlockedAt(c, signature, message, keys, k) ==>
            Meter(probe, limit) == (if k <= limit then Finished(KeyUndecodable) else BudgetExceeded)
            && Meter(MeterFirst(probe), limit) == if k < limit then Finished(KeyUndecodable) else BudgetExceeded)
      && (NoneVerifies(c, signature, message, keys) ==>
            Meter(probe, limit) == Meter(MeterFirst(probe), limit) ==
              if |keys| <= limit then Finished(NoKeySatisfies) else BudgetExceeded)
  {
    ProbeFrom(c, signature, message, keys, 0);
  }

  ghost predicate NoneVerifies(c: Primitives, signature: Text, message: Text, keys: seq<Text>) {
    forall i :: 0 <= i < |keys| ==> c.keyDecodes(keys[i]) && !c.verify(signature, message, keys[i])
  }

  // -------- The checks around the probe --------

  datatype Clocked = Clocked(now: int, maxSkew: nat)

  /** The rejections `verify` tells apart, in the order they are met. */
  datatype RequestVerdict =
    | SatisfiedKey(index: nat)
    | Stale
    | BadThreshold
    | MultiSignature
    | RequestTooExpensive
    | SignatureInvalid

  /** What of a request is refused before its signature is looked at. */
  function RequestRefusal(clock: Clocked, created: int, threshold: Text): Option<RequestVerdict> {
    if clock.now - created > clock.maxSkew || created - clock.now > clock.maxSkew then Some(Stale)
    else match ParseThreshold(threshold)
      case None => Some(BadThreshold)
      case Some(t) => if t > 1 then Some(MultiSignature) else None
  }

  /** The verdict from the freshness window on, and the curve checks reported to the meters. */
  method VerifyRequest(c: Primitives, clock: Clocked, created: int, threshold: Text, signature: Text, message: Text,
      keys: seq<Text>, limit: nat)
    returns (verdict: RequestVerdict, spent: nat)
    ensures verdict.SatisfiedKey? ==>
      FirstToVerify(c, signature, message, keys, verdict.index) && verdict.index < limit && spent == verdict.index + 1
    ensures RequestRefusal(clock, created, threshold).Some? <==> verdict in {Stale, BadThreshold, MultiSignature}
    ensures verdict in {Stale, BadThreshold, MultiSignature} ==>
      spent == 0 && RequestRefusal(clock, created, threshold) == Some(verdict)
    ensures verdict.RequestTooExpensive? ==> spent == limit < Probe(c, signature, message, keys, 0).cost
    ensures verdict.SignatureInvalid? ==> spent <= limit && forall k :: 0 <= k < |keys| ==>
      !FirstToVerify(c, signature, message, keys, k)
    ensures verdict.SatisfiedKey? <==>
      RequestRefusal(clock, created, threshold).None?
        && exists k: nat :: k < limit && FirstToVerify(c, signature, message, keys, k)
  {
    ProbeFrom(c, signature, message, keys, 0);
    match RequestRefusal(clock, created, threshold)
    case Some(refusal) => return refusal, 0;
    case None =>
      var probed;
      probed, spent := ProbeKeys(c, signature, message, keys, limit);
      match probed
      case BudgetExceeded => verdict := RequestTooExpensive;
      case Finished(SatisfiedBy(index)) => verdict := SatisfiedKey(index);
      case Finished(_) => verdict := SignatureInvalid;
  }

  /** What each early refusal says of the request. */
  lemma {:induction false} RequestRefusalIsTrue(clock: Clocked, created: int, threshold: Text)
    ensures var refusal := RequestRefusal(clock, created, threshold);
      && (refusal == Some(Stale) <==> !(clock.now - clock.maxSkew <= created <= clock.now + clock.maxSkew))
      && (refusal == Some(BadThreshold) ==> forall t :: 1 <= t <= MAX_SAFE_INTEGER ==> threshold != Decimal(t))
      && (refusal == Some(MultiSignature) ==> exists t :: 1 < t <= MAX_SAFE_INTEGER && threshold == Decimal(t))
      && refusal in {None, Some(Stale), Some(BadThreshold), Some(MultiSignature)}
  {
    forall t | 1 <= t <= MAX_SAFE_INTEGER && threshold == Decimal(t) ensures ParseThreshold(threshold) == Some(t) {
      ThresholdTextUnique(threshold, t);
    }
    if ParseThreshold(threshold).Some? {
      ThresholdTextUnique(threshold, ParseThreshold(threshold).value);
    }
  }

  /** A request is judged at all only inside the window, inclusive at both ends, and at threshold "1" exactly. */
  lemma {:induction false} JudgedOnlyWhenFresh(clock: Clocked, created: int, threshold: Text)
    ensures RequestRefusal(clock, created, threshold).None? <==>
      clock.now - clock.maxSkew <= created <= clock.now + clock.maxSkew && threshold == Decimal(1)
  {
    ThresholdTextUnique(threshold, 1);
    if ParseThreshold(threshold).Some? {
      ThresholdTextUnique(threshold, ParseThreshold(threshold).value);
    }
  }
}
