/**
 * The self-throttle on outbound lookups (packages/verify/src/discovery-view.ts:736-792):
 * a slot semaphore whose waiters queue, time out, or are handed a released slot.
 */
module Throttles {
  import opened Common

  datatype Outcome = Granted | RefusedFull | RefusedTimeout

  datatype Limits = Limits(slots: nat, queue: nat)

  /**
   * The throttle's two variables, and a record of every ticket: who holds a slot, what became of
   * each call, and the order in which slots were granted.
   */
  datatype State = State(
    inFlight: int,
    waiters: seq<nat>,
    issued: nat,
    held: set<nat>,
    outcomes: map<nat, Outcome>,
    grants: seq<nat>)

  datatype Event = Acquire | Release(ticket: nat) | Timeout(ticket: nat)

  function Start(): State {
    State(0, [], 0, {}, map[], [])
  }

  function Grant(s: State, ticket: nat): State {
    s.(inFlight := s.inFlight + 1, held := s.held + {ticket},
      outcomes := s.outcomes[ticket := Granted], grants := s.grants + [ticket])
  }

  /** `acquireFetchSlot`: a free slot, a place in the queue, or a refusal. */
  function AfterAcquire(l: Limits, s: State): State {
    var ticket := s.issued;
    var t := s.(issued := ticket + 1);
    if s.inFlight < l.slots then Grant(t, ticket)
    else if |s.waiters| >= l.queue then t.(outcomes := t.outcomes[ticket := RefusedFull])
    else t.(waiters := t.waiters + [ticket])
  }

  /** `releaseFetchSlot`: the slot is given back and at once handed to the first waiter, if any. */
  function AfterRelease(s: State, ticket: nat): State {
    var t := s.(inFlight := s.inFlight - 1, held := s.held - {ticket});
    if t.waiters == [] then t else Grant(t.(waiters := t.waiters[1..]), t.waiters[0])
  }

  /** `waiters.splice(index, 1)` at the ticket's place. */
  function Spliced(waiters: seq<nat>, ticket: nat): (r: seq<nat>)
    ensures |r| <= |waiters| && forall t :: t in r ==> t in waiters
  {
    if waiters == [] then []
    else if waiters[0] == ticket then waiters[1..]
    else [waiters[0]] + Spliced(waiters[1..], ticket)
  }

  lemma {:induction false} SplicedAt(waiters: seq<nat>, ticket: nat, index: nat)
    requires index < |waiters| && waiters[index] == ticket && ticket !in waiters[..index]
    ensures Spliced(waiters, ticket) == waiters[..index] + waiters[index + 1..]
  {
    if index > 0 {
      assert waiters[0] in waiters[..index] && waiters[1..][..index - 1] == waiters[..index][1..];
      SplicedAt(waiters[1..], ticket, index - 1);
    }
  }

  /** The queue timer: the waiter leaves the queue and is refused; a granted one has no timer left. */
  function AfterTimeout(s: State, ticket: nat): State {
    if ticket !in s.waiters then s
    else s.(waiters := Spliced(s.waiters, ticket), outcomes := s.outcomes[ticket := RefusedTimeout])
  }

  /** Only a holder releases: the call sits in the `finally` of the fetch that won the slot. */
  predicate Enabled(s: State, e: Event) {
    e.Release? ==> e.ticket in s.held
  }

  function Step(l: Limits, s: State, e: Event): State {
    match e
    case Acquire => AfterAcquire(l, s)
    case Release(ticket) => AfterRelease(s, ticket)
    case Timeout(ticket) => AfterTimeout(s, ticket)
  }

  function Run(l: Limits, events: seq<Event>): State {
    if events == [] then Start() else Step(l, Run(l, events[..|events| - 1]), events[|events| - 1])
  }

  predicate Possible(l: Limits, events: seq<Event>) {
    events == [] ||
    var front := events[..|events| - 1];
    Possible(l, front) && Enabled(Run(l, front), events[|events| - 1])
  }

  // -------- Safety --------

  /** Tickets in the order they were issued, all of them below `bound` and none below `floor`. */
  ghost predicate InIssueOrder(tickets: seq<nat>, floor: nat, bound: nat) {
    if tickets == [] then floor <= bound
    else floor <= tickets[0] && InIssueOrder(tickets[1..], tickets[0] + 1, bound)
  }

  /** Every call so far is waiting or has been answered, and never both. */
  ghost predicate Accounted(s: State) {
    && (forall t :: t in s.waiters ==> t < s.issued && t !in s.outcomes)
    && (forall t :: t in s.outcomes ==> t < s.issued)
    && (forall t: nat :: t < s.issued ==> t in s.outcomes || t in s.waiters)
    && (forall t :: t in s.grants <==> t in s.outcomes && s.outcomes[t].Granted?)
    && (forall t :: t in s.held ==> t in s.outcomes && s.outcomes[t].Granted?)
  }

  /** Slots are conserved, bounds are kept, nobody waits while a slot is free, grants are first come first served. */
  ghost predicate Safe(l: Limits, s: State) {
    && s.inFlight == |s.held| <= l.slots
    && |s.waiters| <= l.queue
    && (s.waiters != [] ==> s.inFlight == l.slots)
    && Accounted(s)
    && InIssueOrder(s.grants + s.waiters, 0, s.issued)
  }

  lemma {:induction false} IssueInOrder(tickets: seq<nat>, floor: nat, bound: nat)
    requires InIssueOrder(tickets, floor, bound)
    ensures InIssueOrder(tickets + [bound], floor, bound + 1)
    ensures InIssueOrder(tickets, floor, bound + 1)
    ensures floor <= bound
  {
    if tickets != [] {
      IssueInOrder(tickets[1..], tickets[0] + 1, bound);
      assert (tickets + [bound])[1..] == tickets[1..] + [bound];
    }
  }

  lemma {:induction false} TicketsInRange(tickets: seq<nat>, floor: nat, bound: nat)
    requires InIssueOrder(tickets, floor, bound)
    ensures forall t :: t in tickets ==> floor <= t < bound
  {
    if tickets != [] {
      TicketsInRange(tickets[1..], tickets[0] + 1, bound);
      IssueInOrder(tickets[1..], tickets[0] + 1, bound);
      HeadOrTail(tickets);
    }
  }

  lemma {:induction false} HeadOrTail(tickets: seq<nat>)
    requires tickets != []
    ensures forall t :: t in tickets <==> t == tickets[0] || t in tickets[1..]
  {
    assert tickets == [tickets[0]] + tickets[1..];
  }

  /** Among the granted and the waiting, earlier calls stand before later ones. */
  lemma {:induction false} IssueOrderIsAscending(tickets: seq<nat>, floor: nat, bound: nat, i: nat, j: nat)
    requires InIssueOrder(tickets, floor, bound) && i < j < |tickets|
    ensures tickets[i] < tickets[j]
    decreases |tickets|
  {
    if i > 0 {
      IssueOrderIsAscending(tickets[1..], tickets[0] + 1, bound, i - 1, j - 1);
    } else {
      TicketsInRange(tickets[1..], tickets[0] + 1, bound);
      assert tickets[1..][j - 1] in tickets[1..];
    }
  }

  lemma {:induction false} SplicedInOrder(front: seq<nat>, waiters: seq<nat>, ticket: nat, floor: nat, bound: nat)
    requires InIssueOrder(front + waiters, floor, bound) && ticket in waiters
    ensures InIssueOrder(front + Spliced(waiters, ticket), floor, bound)
    ensures forall t :: t in Spliced(waiters, ticket) <==> t in waiters && t != ticket
    decreases |front| + |waiters|
  {
    if front != [] {
      assert (front + waiters)[1..] == front[1..] + waiters;
      SplicedInOrder(front[1..], waiters, ticket, front[0] + 1, bound);
      assert (front + Spliced(waiters, ticket))[1..] == front[1..] + Spliced(waiters, ticket);
    } else {
      assert front + waiters == waiters && front + Spliced(waiters, ticket) == Spliced(waiters, ticket);
      TicketsInRange(waiters[1..], waiters[0] + 1, bound);
      if waiters[0] == ticket {
        LowerFloor(waiters[1..], waiters[0] + 1, floor, bound);
      } else {
        assert [] + waiters[1..] == waiters[1..] && [] + Spliced(waiters[1..], ticket) == Spliced(waiters[1..], ticket);
        SplicedInOrder([], waiters[1..], ticket, waiters[0] + 1, bound);
        assert Spliced(waiters, ticket)[1..] == Spliced(waiters[1..], ticket);
      }
    }
  }

  lemma {:induction false} LowerFloor(tickets: seq<nat>, floor: nat, lower: nat, bound: nat)
    requires InIssueOrder(tickets, floor, bound) && lower <= floor
    ensures InIssueOrder(tickets, lower, bound)
  {
    IssueInOrder(tickets, floor, bound);
  }

  lemma {:induction false} AcquireIsSafe(l: Limits, s: State)
    requires Safe(l, s)
    ensures Safe(l, AfterAcquire(l, s))
  {
    IssueInOrder(s.grants + s.waiters, 0, s.issued);
    assert s.waiters == [] ==> s.grants + [s.issued] + s.waiters == s.grants + s.waiters + [s.issued];
    assert s.grants + (s.waiters + [s.issued]) == s.grants + s.waiters + [s.issued];
  }

  lemma {:induction false} ReleaseIsSafe(l: Limits, s: State, ticket: nat)
    requires Safe(l, s) && ticket in s.held
    ensures Safe(l, AfterRelease(s, ticket))
  {
    if s.waiters != [] {
      assert s.grants + [s.waiters[0]] + s.waiters[1..] == s.grants + s.waiters;
      HeadOrTail(s.waiters);
      WaitersOnce(s);
    }
  }

  lemma {:induction false} WaitersOnce(s: State)
    requires InIssueOrder(s.grants + s.waiters, 0, s.issued) && s.waiters != []
    ensures s.waiters[0] !in s.waiters[1..]
  {
    var all := s.grants + s.waiters;
    forall k | 0 <= k < |s.waiters[1..]| ensures s.waiters[1..][k] != s.waiters[0] {
      IssueOrderIsAscending(all, 0, s.issued, |s.grants|, |s.grants| + 1 + k);
    }
  }

  lemma {:induction false} TimeoutIsSafe(l: Limits, s: State, ticket: nat)
    requires Safe(l, s)
    ensures Safe(l, AfterTimeout(s, ticket))
  {
    if ticket in s.waiters {
      SplicedInOrder(s.grants, s.waiters, ticket, 0, s.issued);
    }
  }

  /** In every reachable state of every run. */
  lemma {:induction false} ReachableIsSafe(l: Limits, events: seq<Event>)
    requires Possible(l, events)
    ensures Safe(l, Run(l, events))
  {
    if events != [] {
      var front := events[..|events| - 1];
      ReachableIsSafe(l, front);
      match events[|events| - 1]
      case Acquire => AcquireIsSafe(l, Run(l, front));
      case Release(ticket) => ReleaseIsSafe(l, Run(l, front), ticket);
      case Timeout(ticket) => TimeoutIsSafe(l, Run(l, front), ticket);
    }
  }

  lemma {:induction false} GrantedInOrder(grants: seq<nat>, waiters: seq<nat>, issued: nat, i: nat, j: nat)
    requires InIssueOrder(grants + waiters, 0, issued) && i < j < |grants|
    ensures grants[i] < grants[j]
  {
    IssueOrderIsAscending(grants + waiters, 0, issued, i, j);
  }

  lemma {:induction false} GrantedBeforeWaiting(grants: seq<nat>, waiters: seq<nat>, issued: nat, g: nat, w: nat)
    requires InIssueOrder(grants + waiters, 0, issued) && g in grants && w in waiters
    ensures g < w
  {
    var i :| 0 <= i < |grants| && grants[i] == g;
    var j :| 0 <= j < |waiters| && waiters[j] == w;
    IssueOrderIsAscending(grants + waiters, 0, issued, i, |grants| + j);
  }

  /**
   * First come, first served: of two granted calls the earlier was granted first, and no granted call is
   * later than a waiting one.
   */
  lemma {:induction false} GrantsAreFair(l: Limits, events: seq<Event>)
    requires Possible(l, events)
    ensures var s := Run(l, events);
      && (forall i, j :: 0 <= i < j < |s.grants| ==> s.grants[i] < s.grants[j])
      && (forall g, w :: g in s.grants && w in s.waiters ==> g < w)
  {
    ReachableIsSafe(l, events);
    var s := Run(l, events);
    forall i, j | 0 <= i < j < |s.grants| ensures s.grants[i] < s.grants[j] {
      GrantedInOrder(s.grants, s.waiters, s.issued, i, j);
    }
    forall g, w | g in s.grants && w in s.waiters ensures g < w {
      GrantedBeforeWaiting(s.grants, s.waiters, s.issued, g, w);
    }
  }

  /** Nobody is overtaken: once a call is granted, every earlier one has been granted or refused. */
  lemma {:induction false} NobodyOvertaken(l: Limits, events: seq<Event>, granted: nat, earlier: nat)
    requires Possible(l, events) && granted in Run(l, events).grants && earlier < granted
    ensures earlier in Run(l, events).outcomes
  {
    ReachableIsSafe(l, events);
    GrantsAreFair(l, events);
  }

  /** An answer is given once: nothing that happens later changes what became of a call. */
  lemma {:induction false} AnsweredOnce(l: Limits, s: State, e: Event, ticket: nat)
    requires Safe(l, s) && Enabled(s, e) && ticket in s.outcomes
    ensures ticket in Step(l, s, e).outcomes && Step(l, s, e).outcomes[ticket] == s.outcomes[ticket]
  {}

  // -------- What each event decides --------

  /** What became of a call: it holds a slot, waits for one, or was told there is no room. */
  ghost predicate Holding(s: State, ticket: nat) {
    ticket in s.held && ticket in s.outcomes && s.outcomes[ticket] == Granted && ticket !in s.waiters
  }

  ghost predicate Waiting(s: State, ticket: nat) {
    ticket in s.waiters && ticket !in s.held && ticket !in s.outcomes
  }

  ghost predicate TurnedAway(s: State, ticket: nat, outcome: Outcome) {
    ticket in s.outcomes && s.outcomes[ticket] == outcome && ticket !in s.held && ticket !in s.waiters
  }

  /** Every other call is where it was. */
  ghost predicate OthersStay(s: State, t: State, ticket: nat) {
    forall k :: k != ticket ==>
      (k in t.held <==> k in s.held) && (k in t.waiters <==> k in s.waiters) && (k in t.outcomes <==> k in s.outcomes)
      && (k in s.outcomes ==> t.outcomes[k] == s.outcomes[k])
  }

  /** A call takes a free slot; else it waits; and it is turned away only when slots and queue are full. */
  lemma {:induction false} AcquireDecides(l: Limits, s: State)
    requires Safe(l, s)
    ensures var t, n := Step(l, s, Acquire), s.issued;
      && t.issued == n + 1 && OthersStay(s, t, n)
      && if |s.held| < l.slots then Holding(t, n)
         else if |s.waiters| < l.queue then Waiting(t, n) && t.waiters[|t.waiters| - 1] == n
         else TurnedAway(t, n, RefusedFull)
  {
  }

  /** A slot given back goes at once to the call that has waited longest, and to nobody else. */
  lemma {:induction false} ReleaseHandsOn(l: Limits, s: State, ticket: nat)
    requires Safe(l, s) && ticket in s.held
    ensures var t := Step(l, s, Release(ticket));
      && t.issued == s.issued
      && if s.waiters == [] then t == s.(held := s.held - {ticket}, inFlight := s.inFlight - 1)
         else
           && Holding(t, s.waiters[0]) && t.held == s.held - {ticket} + {s.waiters[0]}
           && t.waiters == s.waiters[1..] && t.outcomes == s.outcomes[s.waiters[0] := Granted]
           && forall k :: k in s.waiters ==> s.waiters[0] <= k
  {
    if s.waiters != [] {
      HeadOrTail(s.waiters);
      WaitersOnce(s);
      WaitersAscend(s);
    }
  }

  lemma {:induction false} WaitersAscend(s: State)
    requires InIssueOrder(s.grants + s.waiters, 0, s.issued) && s.waiters != []
    ensures forall k :: k in s.waiters ==> s.waiters[0] <= k
  {
    forall k | k in s.waiters ensures s.waiters[0] <= k {
      var j :| 0 <= j < |s.waiters| && s.waiters[j] == k;
      if j > 0 {
        IssueOrderIsAscending(s.grants + s.waiters, 0, s.issued, |s.grants|, |s.grants| + j);
      }
    }
  }

  /** A timer refuses the call that still waits on it, and does nothing to any other. */
  lemma {:induction false} TimeoutRefuses(l: Limits, s: State, ticket: nat)
    requires Safe(l, s)
    ensures var t := Step(l, s, Timeout(ticket));
      if ticket in s.waiters then
        TurnedAway(t, ticket, RefusedTimeout) && OthersStay(s, t, ticket) && t.held == s.held && t.issued == s.issued
      else t == s
  {
    if ticket in s.waiters {
      SplicedInOrder(s.grants, s.waiters, ticket, 0, s.issued);
    }
  }

  // -------- The throttle --------

  class FetchThrottle {
    const limits: Limits
    var waiters: seq<nat>
    var fetchesInFlight: int
    ghost var state: State

    constructor (limits: Limits)
      ensures Valid() && this.limits == limits && state == Start()
    {
      this.limits := limits;
      waiters := [];
      fetchesInFlight := 0;
      state := Start();
    }

    ghost predicate Valid()
      reads this
    {
      Safe(limits, state) && waiters == state.waiters && fetchesInFlight == state.inFlight
    }

    /** `acquireFetchSlot`; the ticket stands for the promise, settled now unless it waits. */
    method AcquireSlot(ticket: nat) returns (answer: Option<Outcome>)
      requires Valid() && ticket == state.issued
      modifies this
      ensures Valid() && state == Step(limits, old(state), Acquire)
      ensures answer == if ticket in state.outcomes then Some(state.outcomes[ticket]) else None
    {
      AcquireIsSafe(limits, state);
      state := AfterAcquire(limits, state);
      if fetchesInFlight < limits.slots {
        fetchesInFlight := fetchesInFlight + 1;
        return Some(Granted);
      }
      if |waiters| >= limits.queue {
        return Some(RefusedFull);
      }
      waiters := waiters + [ticket];
      return None;
    }

    /** `releaseFetchSlot`: no step separates giving the slot back from handing it on. */
    method ReleaseSlot(ghost ticket: nat) returns (granted: Option<nat>)
      requires Valid() && ticket in state.held
      modifies this
      ensures Valid() && state == Step(limits, old(state), Release(ticket))
      ensures granted == if old(state).waiters == [] then None else Some(old(state).waiters[0])
      ensures granted.Some? ==> granted.value in state.held && granted.value !in old(state).held
    {
      ReleaseIsSafe(limits, state, ticket);
      state := AfterRelease(state, ticket);
      fetchesInFlight := fetchesInFlight - 1;
      if waiters == [] {
        return None;
      }
      granted := Some(waiters[0]);
      waiters := waiters[1..];
      fetchesInFlight := fetchesInFlight + 1;
    }

    /** The timer of a waiter fires. */
    method TimeOut(ticket: nat) returns (refused: bool)
      requires Valid()
      modifies this
      ensures Valid() && state == Step(limits, old(state), Timeout(ticket))
      ensures refused <==> ticket in old(state).waiters
    {
      TimeoutIsSafe(limits, state, ticket);
      state := AfterTimeout(state, ticket);
      var index := 0;
      while index < |waiters| && waiters[index] != ticket
        invariant index <= |waiters| && ticket !in waiters[..index] && waiters == old(waiters)
      {
        assert waiters[..index + 1] == waiters[..index] + [waiters[index]];
        index := index + 1;
      }
      if index == |waiters| {
        assert waiters[..index] == waiters;
        return false;
      }
      SplicedAt(waiters, ticket, index);
      waiters := waiters[..index] + waiters[index + 1..];
      return true;
    }
  }
}
