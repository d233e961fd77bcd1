/**
 * Metered curve work (packages/crypto/src/budget.ts, log.ts:398-411). Every Ed25519 check is one
 * unit; a metered computation is the unmetered one, cut off where its cost passes the limit.
 */
module Metering {
  import opened Common
  import opened SignatureSets

  const MAX_KEY_EVENT_KEYS: nat := 8
  const MAX_KEY_LOG_EVENTS: nat := 128
  const DEFAULT_MAX_KEY_LOG_SIGNATURE_VERIFICATIONS: nat := MAX_KEY_LOG_EVENTS * MAX_KEY_EVENT_KEYS
  const DEFAULT_MAX_SIGNATURE_VERIFICATIONS: nat := MAX_KEY_LOG_EVENTS * MAX_KEY_EVENT_KEYS * 8

  /** `safeVerificationCount`: a count that is not a safe non-negative integer reads as the fallback. */
  function SafeVerificationCount(value: Option<int>, fallback: nat): nat {
    match value
    case Some(n) => if 0 <= n <= MAX_SAFE_INTEGER then n else fallback
    case None => fallback
  }

  /** A safe count stands for itself, so a spent meter stays spent, and anything else for the fallback. */
  lemma {:induction false} SafeCountsAreKept(n: int, fallback: nat)
    ensures 0 <= n <= MAX_SAFE_INTEGER ==> SafeVerificationCount(Some(n), fallback) == n
    ensures n < 0 || MAX_SAFE_INTEGER < n ==> SafeVerificationCount(Some(n), fallback) == fallback
    ensures SafeVerificationCount(None, fallback) == fallback
  {}

  /** A verdict and the curve checks it takes to reach it. */
  datatype Work<+T> = Work(verdict: T, cost: nat)

  /** A verdict reached within the limit, or the refusal to go past it. */
  datatype Metered<+T> = Finished(verdict: T) | BudgetExceeded

  /** What metering does to a computation: nothing, unless it costs more than the limit. */
  function Meter<T>(w: Work<T>, limit: nat): Metered<T> {
    if w.cost <= limit then Finished(w.verdict) else BudgetExceeded
  }

  /** What a metered computation spends. */
  function Charge<T>(w: Work<T>, limit: nat): (spent: nat)
    ensures spent <= limit && spent <= w.cost
  {
    if w.cost <= limit then w.cost else limit
  }

  /** Stages run in order: the first failure ends the run, and only the stages reached are paid for. */
  function RunStages<E>(stages: seq<Work<Option<E>>>, i: nat): Work<Option<E>>
    requires i <= |stages|
    decreases |stages| - i
  {
    if i == |stages| then Work(None, 0)
    else match stages[i].verdict
      case Some(error) => stages[i]
      case None =>
        var rest := RunStages(stages, i + 1);
        Work(rest.verdict, stages[i].cost + rest.cost)
  }

  lemma {:induction false} RunPassesIffAllPass<E>(stages: seq<Work<Option<E>>>, i: nat)
    requires i <= |stages|
    ensures RunStages(stages, i).verdict.None? <==> forall j :: i <= j < |stages| ==> stages[j].verdict.None?
    decreases |stages| - i
  {
    if i < |stages| {
      RunPassesIffAllPass(stages, i + 1);
    }
  }

  /** Stages that cost at most `each` cost at most `each` times their number, and the proven ones nothing. */
  lemma {:induction false} RunCost<E>(stages: seq<Work<Option<E>>>, i: nat, free: nat, each: nat)
    requires i <= |stages|
    requires forall j :: i <= j < |stages| ==> stages[j].cost <= (if j < free then 0 else each)
    ensures RunStages(stages, i).cost
      <= (|stages| - (if free < i then i else if free < |stages| then free else |stages|)) * each
    decreases |stages| - i
  {
    if i < |stages| {
      RunCost(stages, i + 1, free, each);
    }
  }

  /** The greedy walk driven through `spendVerification`: the meter is read before every check. */
  method MeteredWalk(memberCount: nat, keyCount: nat, verifyAt: (nat, nat) -> bool, limit: nat)
    returns (outcome: Metered<Option<nat>>, spent: nat)
    ensures var w := Walk(memberCount, keyCount, verifyAt, 0, 0);
      outcome == Meter(Work(w.failed, w.calls), limit) && spent == Charge(Work(w.failed, w.calls), limit)
  {
    ghost var whole := Walk(memberCount, keyCount, verifyAt, 0, 0);
    var key, member := 0, 0;
    spent := 0;
    while member < memberCount
      invariant member <= memberCount && spent == key <= keyCount && spent <= limit
      invariant var rest := Walk(memberCount, keyCount, verifyAt, member, key);
        whole == Walked(rest.failed, spent + rest.calls)
    {
      while key < keyCount
        invariant spent == key <= keyCount && spent <= limit
        invariant var rest := Walk(memberCount, keyCount, verifyAt, member, key);
          whole == Walked(rest.failed, spent + rest.calls)
      {
        if spent >= limit {
          return BudgetExceeded, spent;
        }
        spent := spent + 1;
        if verifyAt(member, key) {
          break;
        }
        key := key + 1;
      }
      if key == keyCount {
        return Finished(Some(member)), spent;
      }
      key := key + 1;
      member := member + 1;
    }
    outcome := Finished(None);
  }
}
