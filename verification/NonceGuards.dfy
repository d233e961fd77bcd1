/**
 * The replay-nonce guard (packages/crypto/src/nonce-guard.ts:123-331): an expiring, bounded,
 * insertion-ordered map that must answer as a history that forgets nothing would.
 */
module NonceGuards {
  import opened Common
  import opened OrderedMaps

  datatype NonceVerdict = Fresh | Replayed | AtCapacity | ClockInvalid

  /** One nonce recorded at one instant of the monotonic clock, in milliseconds. */
  datatype Recorded = Recorded(nonce: Text, at: real)

  /** `replayTtlSeconds`. */
  function ReplayTtlSeconds(maxSkewSeconds: nat): nat {
    maxSkewSeconds * 2 + 1
  }

  /** A wall clock reading; `None` is a number that is no integer (`NaN`, an infinity, a fraction). */
  predicate UsableClock(atSeconds: Option<int>) {
    atSeconds.Some? && 0 <= atSeconds.value <= MAX_SAFE_INTEGER
  }

  // -------- What the guard should say, given everything it ever recorded --------

  /** The nonce was recorded less than a TTL ago. */
  predicate Remembered(history: seq<Recorded>, nonce: Text, mono: real, ttl: real) {
    exists r :: r in history && r.nonce == nonce && mono < r.at + ttl
  }

  /** The nonces recorded less than a TTL ago. */
  function Live(history: seq<Recorded>, mono: real, ttl: real): set<Text> {
    set r | r in history && mono < r.at + ttl :: r.nonce
  }

  function SpecCheck(history: seq<Recorded>, nonce: Text, atSeconds: Option<int>, mono: real, ttl: real,
      ceiling: int): NonceVerdict {
    if !UsableClock(atSeconds) then ClockInvalid
    else if Remembered(history, nonce, mono, ttl) then Replayed
    else if |Live(history, mono, ttl)| >= ceiling then AtCapacity
    else Fresh
  }

  function SpecPeek(history: seq<Recorded>, nonce: Text, atSeconds: Option<int>, mono: real, ttl: real): NonceVerdict {
    if !UsableClock(atSeconds) then ClockInvalid
    else if Remembered(history, nonce, mono, ttl) then Replayed
    else Fresh
  }

  /** The first fault decides: no clock, then a repeat within a TTL, then no room. */
  lemma {:induction false} VerdictsAreTrue(history: seq<Recorded>, nonce: Text, atSeconds: Option<int>, mono: real,
      ttl: real, ceiling: int)
    ensures var verdict, clock := SpecCheck(history, nonce, atSeconds, mono, ttl, ceiling),
        atSeconds.Some? && 0 <= atSeconds.value <= 0x1F_FFFF_FFFF_FFFF;
      var repeated := exists r :: r in history && r.nonce == nonce && mono < r.at + ttl;
      && (verdict.ClockInvalid? <==> !clock)
      && (verdict.Replayed? <==> clock && repeated)
      && (verdict.AtCapacity? <==> clock && !repeated && |Live(history, mono, ttl)| >= ceiling)
      && (verdict.Fresh? <==> clock && !repeated && |Live(history, mono, ttl)| < ceiling)
      && var early := SpecPeek(history, nonce, atSeconds, mono, ttl);
      && (early.ClockInvalid? <==> !clock)
      && (early.Replayed? <==> clock && repeated)
      && (early.Fresh? <==> clock && !repeated)
  {}

  function HistoryAfter(history: seq<Recorded>, nonce: Text, mono: real, verdict: NonceVerdict): seq<Recorded> {
    if verdict.Fresh? then history + [Recorded(nonce, mono)] else history
  }

  // -------- What follows for whole histories --------

  /** Records stand in the order of their times, and two of one nonce are at least a TTL apart. */
  ghost predicate Orderly(history: seq<Recorded>, ttl: real) {
    history == [] ||
    var last := history[|history| - 1];
    && Orderly(history[..|history| - 1], ttl)
    && forall r :: r in history[..|history| - 1] ==>
      r.at <= last.at && (r.nonce == last.nonce ==> r.at + ttl <= last.at)
  }

  lemma {:induction false} OrderlyMeansSpaced(history: seq<Recorded>, ttl: real, i: nat, j: nat)
    requires Orderly(history, ttl) && i < j < |history|
    ensures history[i].at <= history[j].at
    ensures history[i].nonce == history[j].nonce ==> history[i].at + ttl <= history[j].at
    decreases |history|
  {
    var front := history[..|history| - 1];
    if j < |front| {
      OrderlyMeansSpaced(front, ttl, i, j);
    } else {
      assert front[i] in front;
    }
  }

  /** The latest record, and so every one of them, is not in the future. */
  ghost predicate Past(history: seq<Recorded>, mono: real) {
    history != [] ==> history[|history| - 1].at <= mono
  }

  lemma {:induction false} AllPast(history: seq<Recorded>, mono: real, ttl: real)
    requires Orderly(history, ttl) && Past(history, mono)
    ensures forall r :: r in history ==> r.at <= mono
  {
    if history != [] {
      assert history == history[..|history| - 1] + [history[|history| - 1]];
    }
  }

  lemma {:induction false} RecordKeepsOrder(history: seq<Recorded>, nonce: Text, mono: real, ttl: real)
    requires Orderly(history, ttl) && Past(history, mono) && !Remembered(history, nonce, mono, ttl)
    ensures Orderly(history + [Recorded(nonce, mono)], ttl) && Past(history + [Recorded(nonce, mono)], mono)
  {
    AllPast(history, mono, ttl);
    assert (history + [Recorded(nonce, mono)])[..|history|] == history;
  }

  /** One call of `check`, at one reading of each clock. */
  datatype Call = Call(nonce: Text, atSeconds: Option<int>, mono: real)

  /** Everything a run of calls records, starting from nothing. */
  function Recording(calls: seq<Call>, ttl: real, ceiling: int): seq<Recorded> {
    if calls == [] then []
    else
      var history, call := Recording(calls[..|calls| - 1], ttl, ceiling), calls[|calls| - 1];
      HistoryAfter(history, call.nonce, call.mono,
        SpecCheck(history, call.nonce, call.atSeconds, call.mono, ttl, ceiling))
  }

  /** The monotonic clock never runs backwards. */
  predicate Forward(calls: seq<Call>) {
    |calls| < 2 || (Forward(calls[..|calls| - 1]) && calls[|calls| - 2].mono <= calls[|calls| - 1].mono)
  }

  lemma {:induction false} RecordingIsOrderly(calls: seq<Call>, ttl: real, ceiling: int)
    requires Forward(calls)
    ensures Orderly(Recording(calls, ttl, ceiling), ttl)
    ensures calls != [] ==> Past(Recording(calls, ttl, ceiling), calls[|calls| - 1].mono)
  {
    if calls != [] {
      var front, call := calls[..|calls| - 1], calls[|calls| - 1];
      RecordingIsOrderly(front, ttl, ceiling);
      var history := Recording(front, ttl, ceiling);
      if SpecCheck(history, call.nonce, call.atSeconds, call.mono, ttl, ceiling).Fresh? {
        RecordKeepsOrder(history, call.nonce, call.mono, ttl);
      }
    }
  }

  /** No run of checks records a nonce twice within one TTL. */
  lemma {:induction false} ChecksKeepSpacing(calls: seq<Call>, ttl: real, ceiling: int)
    requires Forward(calls)
    ensures var history := Recording(calls, ttl, ceiling);
      forall i, j :: 0 <= i < j < |history| && history[i].nonce == history[j].nonce ==>
        history[i].at + ttl <= history[j].at
  {
    var history := Recording(calls, ttl, ceiling);
    RecordingIsOrderly(calls, ttl, ceiling);
    forall i, j | 0 <= i < j < |history| && history[i].nonce == history[j].nonce
      ensures history[i].at + ttl <= history[j].at {
      OrderlyMeansSpaced(history, ttl, i, j);
    }
  }

  function NonNegative(n: int): nat {
    if n < 0 then 0 else n
  }

  /** At any later instant the live nonces still fit under the ceiling. */
  lemma {:induction false} ChecksKeepCeiling(history: seq<Recorded>, nonce: Text, atSeconds: Option<int>, mono: real,
      ttl: real, ceiling: int, later: real)
    requires mono <= later && |Live(history, later, ttl)| <= NonNegative(ceiling)
    ensures |Live(HistoryAfter(history, nonce, mono, SpecCheck(history, nonce, atSeconds, mono, ttl, ceiling)), later,
      ttl)| <= NonNegative(ceiling)
  {
    if SpecCheck(history, nonce, atSeconds, mono, ttl, ceiling).Fresh? {
      var after := history + [Recorded(nonce, mono)];
      assert Live(history, later, ttl) <= Live(history, mono, ttl);
      assert Live(after, later, ttl) <= Live(history, later, ttl) + {nonce};
      SubsetIsSmaller(Live(history, later, ttl), Live(history, mono, ttl));
      SubsetIsSmaller(Live(after, later, ttl), Live(history, later, ttl) + {nonce});
    }
  }

  /** So over any run the live nonces never exceed the ceiling, at its end or later. */
  lemma {:induction false} RunsKeepCeiling(calls: seq<Call>, ttl: real, ceiling: int, later: real)
    requires Forward(calls) && (calls != [] ==> calls[|calls| - 1].mono <= later)
    ensures |Live(Recording(calls, ttl, ceiling), later, ttl)| <= NonNegative(ceiling)
  {
    if calls == [] {
      assert Live([], later, ttl) == {};
    } else {
      var front, call := calls[..|calls| - 1], calls[|calls| - 1];
      RunsKeepCeiling(front, ttl, ceiling, later);
      ChecksKeepCeiling(Recording(front, ttl, ceiling), call.nonce, call.atSeconds, call.mono, ttl, ceiling, later);
    }
  }

  /** A peek says `replayed` exactly when a check at the same instant would. */
  lemma {:induction false} PeekAgreesWithCheck(history: seq<Recorded>, nonce: Text, atSeconds: Option<int>, mono: real,
      ttl: real, ceiling: int)
    ensures SpecPeek(history, nonce, atSeconds, mono, ttl).Replayed? <==>
      SpecCheck(history, nonce, atSeconds, mono, ttl, ceiling).Replayed?
    ensures SpecCheck(history, nonce, atSeconds, mono, ttl, ceiling).Fresh? ==>
      SpecPeek(history, nonce, atSeconds, mono, ttl).Fresh?
  {}

  function Deadline(due: real): real {
    due
  }

  /** When each nonce was last recorded. */
  function LastRecorded(history: seq<Recorded>): map<Text, real> {
    if history == [] then map[]
    else
      var r := history[|history| - 1];
      LastRecorded(history[..|history| - 1])[r.nonce := r.at]
  }

  lemma {:induction false} LastRecordedIsLatest(history: seq<Recorded>, ttl: real)
    requires Orderly(history, ttl)
    ensures forall r :: r in history ==> r.nonce in LastRecorded(history) && r.at <= LastRecorded(history)[r.nonce]
    ensures forall k :: k in LastRecorded(history) ==> Recorded(k, LastRecorded(history)[k]) in history
  {
    if history != [] {
      var n := |history| - 1;
      LastRecordedIsLatest(history[..n], ttl);
      assert history == history[..n] + [history[n]];
    }
  }

  lemma {:induction false} LastRecordedAppend(history: seq<Recorded>, nonce: Text, at: real)
    ensures LastRecorded(history + [Recorded(nonce, at)]) == LastRecorded(history)[nonce := at]
  {
    assert (history + [Recorded(nonce, at)])[..|history|] == history;
  }

  /** The map holds a nonce's last record under its deadline, and holds it until that deadline at least. */
  ghost predicate Tracking(seen: OrderedMap<real>, last: map<Text, real>, clock: real, ttl: real) {
    && (forall k :: k in seen.values ==> k in last && seen.values[k] == last[k] + ttl)
    && (forall k :: k in last && clock < last[k] + ttl ==> k in seen.values)
    && (forall k :: k in last ==> last[k] <= clock)
  }

  /** What a sweep leaves: the entries not yet due, with their deadlines. */
  ghost predicate Swept(before: OrderedMap<real>, after: OrderedMap<real>, mono: real) {
    && (forall k :: k in after.values <==> k in before.values && mono < before.values[k])
    && (forall k :: k in after.values ==> after.values[k] == before.values[k])
  }

  ghost predicate AnyDue(seen: OrderedMap<real>, mono: real) {
    exists k :: k in seen.values && seen.values[k] <= mono
  }

  /** The map answers for the whole history: a nonce is remembered exactly when its deadline lies ahead. */
  lemma {:induction false} MapAnswersForHistory(seen: OrderedMap<real>, history: seq<Recorded>,
      nonce: Text, mono: real, ttl: real)
    requires Orderly(history, ttl) && Tracking(seen, LastRecorded(history), mono, ttl)
    ensures Remembered(history, nonce, mono, ttl) <==> nonce in seen.values && mono < seen.values[nonce]
    ensures nonce in Live(history, mono, ttl) <==> Remembered(history, nonce, mono, ttl)
  {
    LastRecordedIsLatest(history, ttl);
  }

  /** The map is never smaller than the live set, and no larger once nothing in it is due. */
  lemma {:induction false} LiveFitsMap(seen: OrderedMap<real>, history: seq<Recorded>, mono: real, ttl: real)
    requires Orderly(history, ttl) && Tracking(seen, LastRecorded(history), mono, ttl) && seen.Valid()
    ensures |Live(history, mono, ttl)| <= seen.Size()
    ensures !AnyDue(seen, mono) ==> |Live(history, mono, ttl)| == seen.Size()
  {
    forall k ensures k in Live(history, mono, ttl) <==> k in seen.values && mono < seen.values[k] {
      MapAnswersForHistory(seen, history, k, mono, ttl);
    }
    SizeIsKeys(seen);
    SubsetIsSmaller(Live(history, mono, ttl), seen.values.Keys);
    if !AnyDue(seen, mono) {
      assert Live(history, mono, ttl) == seen.values.Keys;
    }
  }

  /** The map's invariant at the reading `mono`. */
  ghost predicate Holds(seen: OrderedMap<real>, last: map<Text, real>, mono: real, ttl: real, maxEntries: int) {
    && 0.0 <= ttl && seen.Valid() && Ascending(seen, Deadline) && seen.Size() <= NonNegative(maxEntries)
    && Tracking(seen, last, mono, ttl)
  }

  method SweepDeadlines(m: OrderedMap<real>, mono: real, ghost last: map<Text, real>, ghost ttl: real,
      ghost maxEntries: int) returns (r: OrderedMap<real>)
    requires Holds(m, last, mono, ttl, maxEntries)
    ensures Holds(r, last, mono, ttl, maxEntries) && Swept(m, r, mono)
    ensures AnyDue(m, mono) ==> r.Size() < m.Size()
  {
    r := Sweep(m, Deadline, mono);
    assert Swept(m, r, mono) by {
      assert forall k :: k in m.values ==> k in m.keys;
    }
    FewerKeys(r, m);
  }

  lemma {:induction false} DeleteHolds(seen: OrderedMap<real>, last: map<Text, real>, nonce: Text, mono: real,
      ttl: real, maxEntries: int)
    requires Holds(seen, last, mono, ttl, maxEntries) && nonce in seen.values && seen.values[nonce] <= mono
    ensures Holds(seen.Delete(nonce), last, mono, ttl, maxEntries)
  {
    DeleteKeeps(seen, nonce, Deadline);
  }

  lemma {:induction false} RecordHolds(seen: OrderedMap<real>, last: map<Text, real>, nonce: Text, mono: real,
      ttl: real, maxEntries: int)
    requires Holds(seen, last, mono, ttl, maxEntries) && nonce !in seen.values && seen.Size() < maxEntries
    ensures Holds(seen.Put(nonce, mono + ttl), last[nonce := mono], mono, ttl, maxEntries)
  {
    PutKeeps(seen, nonce, mono + ttl, Deadline);
  }

  lemma {:induction false} LaterReading(seen: OrderedMap<real>, history: seq<Recorded>, clock: real, mono: real,
      ttl: real, maxEntries: int)
    requires Holds(seen, LastRecorded(history), clock, ttl, maxEntries) && Orderly(history, ttl)
      && Past(history, clock) && clock <= mono
    ensures Holds(seen, LastRecorded(history), mono, ttl, maxEntries) && Orderly(history, ttl) && Past(history, mono)
  {}

  lemma {:induction false} RecordSound(seen: OrderedMap<real>, history: seq<Recorded>, nonce: Text, mono: real,
      ttl: real, maxEntries: int)
    requires Holds(seen, LastRecorded(history), mono, ttl, maxEntries) && Orderly(history, ttl) && Past(history, mono)
    requires nonce !in seen.values && seen.Size() < maxEntries
    ensures var after := history + [Recorded(nonce, mono)];
      Holds(seen.Put(nonce, mono + ttl), LastRecorded(after), mono, ttl, maxEntries)
        && Orderly(after, ttl) && Past(after, mono)
  {
    MapAnswersForHistory(seen, history, nonce, mono, ttl);
    RecordHolds(seen, LastRecorded(history), nonce, mono, ttl, maxEntries);
    LastRecordedAppend(history, nonce, mono);
    RecordKeepsOrder(history, nonce, mono, ttl);
  }

  /** `n` sweeps a TTL apart fit between the first and the last. */
  ghost predicate TtlApart(n: nat, ttl: real, first: real, last: real) {
    if n <= 1 then first <= last else TtlApart(n - 1, ttl, first, last - ttl)
  }

  /** Later is still apart. */
  lemma {:induction false} StillApart(n: nat, ttl: real, first: real, last: real, next: real)
    requires TtlApart(n, ttl, first, last) && last <= next
    ensures TtlApart(n, ttl, first, next)
  {
    if n > 1 {
      StillApart(n - 1, ttl, first, last - ttl, next - ttl);
    }
  }

  lemma {:induction false} OneMoreSweep(n: nat, ttl: real, first: real, last: real, next: real)
    requires n > 0 && TtlApart(n, ttl, first, last) && last + ttl <= next
    ensures TtlApart(n + 1, ttl, first, next)
  {
    StillApart(n, ttl, first, last, next - ttl);
  }

  /** So the timely sweeps grow by at most one a TTL, whatever the request rate. */
  lemma {:induction false} SweepPace(n: nat, ttl: real, first: real, last: real)
    requires n > 0 && TtlApart(n, ttl, first, last)
    ensures first + (n - 1) as real * ttl <= last
  {
    if n > 1 {
      SweepPace(n - 1, ttl, first, last - ttl);
      assert (n - 1) as real * ttl == (n - 2) as real * ttl + ttl;
    }
  }

  /** The map with the nonce at the back, one TTL from now its deadline. */
  method PutRecorded(seen: OrderedMap<real>, ghost history: seq<Recorded>, nonce: Text, mono: real,
      ttl: real, ghost maxEntries: int)
    returns (put: OrderedMap<real>)
    requires Holds(seen, LastRecorded(history), mono, ttl, maxEntries) && Orderly(history, ttl) && Past(history, mono)
    requires nonce !in seen.values && seen.Size() < maxEntries
    ensures put == seen.Put(nonce, mono + ttl)
    ensures var after := history + [Recorded(nonce, mono)];
      Holds(put, LastRecorded(after), mono, ttl, maxEntries) && Orderly(after, ttl) && Past(after, mono)
  {
    RecordSound(seen, history, nonce, mono, ttl, maxEntries);
    put := seen.Put(nonce, mono + ttl);
  }

  // -------- The guard --------

  class NonceGuard {
    const ttlMs: int
    const maxEntries: int
    var seen: OrderedMap<real>
    var lastSweepMono: Option<real>
    var sweeps: nat
    /** Every nonce ever found fresh, oldest first; the guard itself keeps only the live ones. */
    ghost var history: seq<Recorded>
    /** The latest reading of the monotonic clock. */
    ghost var clock: real
    ghost var capacitySweeps: nat
    ghost var timelySweeps: nat
    ghost var firstSweepMono: real

    constructor (ttlSeconds: nat, maxEntries: int, ghost start: real)
      ensures Valid() && ttlMs == ttlSeconds * 1000 && this.maxEntries == maxEntries
      ensures history == [] && clock == start && sweeps == 0
    {
      ttlMs := ttlSeconds * 1000;
      this.maxEntries := maxEntries;
      seen := Empty();
      lastSweepMono := None;
      sweeps := 0;
      history := [];
      clock := start;
      capacitySweeps := 0;
      timelySweeps := 0;
      firstSweepMono := start;
    }

    ghost function Ttl(): real {
      ttlMs as real
    }

    /** Sweeps on the timely path are a TTL apart; those at capacity are no more than the nonces recorded. */
    ghost predicate SweepsPaidFor(slack: nat)
      reads this
    {
      && sweeps == timelySweeps + capacitySweeps
      && capacitySweeps <= |history| + slack
      && (lastSweepMono.None? <==> timelySweeps == 0)
      && (lastSweepMono.None? ==> capacitySweeps == 0)
      && (lastSweepMono.Some? ==>
        TtlApart(timelySweeps, Ttl(), firstSweepMono, lastSweepMono.value) && lastSweepMono.value <= clock)
    }

    /** The invariant, with `slack` capacity sweeps not yet matched by a recorded nonce. */
    ghost predicate Sound(slack: nat)
      reads this
    {
      Holds(seen, LastRecorded(history), clock, Ttl(), maxEntries) && Orderly(history, Ttl())
        && Past(history, clock) && SweepsPaidFor(slack)
    }

    ghost predicate Valid()
      reads this
    {
      Sound(0)
    }

    /** What `sweepCount` can have grown to: one sweep a TTL, and at most one more per nonce recorded. */
    lemma {:induction false} SweepBudget()
      requires Valid() && lastSweepMono.Some?
      ensures sweeps <= timelySweeps + |history|
      ensures firstSweepMono + (timelySweeps - 1) as real * Ttl() <= clock
    {
      SweepPace(timelySweeps, Ttl(), firstSweepMono, lastSweepMono.value);
    }

    /** One full pass over the map. */
    method SweepAt(mono: real)
      requires Holds(seen, LastRecorded(history), mono, Ttl(), maxEntries)
      modifies `seen, `lastSweepMono, `sweeps
      ensures Holds(seen, LastRecorded(history), mono, Ttl(), maxEntries) && Swept(old(seen), seen, mono)
      ensures AnyDue(old(seen), mono) ==> seen.Size() < old(seen.Size())
      ensures lastSweepMono == Some(mono) && sweeps == old(sweeps) + 1
    {
      seen := SweepDeadlines(seen, mono, LastRecorded(history), Ttl(), maxEntries);
      lastSweepMono := Some(mono);
      sweeps := sweeps + 1;
    }

    /** `sweepCouldFree`: the first entry holds the least deadline, so it alone decides. */
    method SweepCouldFree(mono: real) returns (could: bool)
      requires Holds(seen, LastRecorded(history), mono, Ttl(), maxEntries)
      ensures could <==> AnyDue(seen, mono)
    {
      if seen.keys == [] {
        assert forall k :: k in seen.values ==> k in seen.keys;
        return false;
      }
      OldestIsFirst(seen, Deadline);
      could := seen.values[seen.keys[0]] <= mono;
    }

    /** Timely expiry, at most once per TTL. */
    method TimelySweep(mono: real)
      requires Valid() && clock <= mono
      modifies this
      ensures Valid() && clock == mono && lastSweepMono.Some? && history == old(history)
    {
      LaterReading(seen, history, clock, mono, Ttl(), maxEntries);
      clock := mono;
      if lastSweepMono.None? {
        firstSweepMono := mono;
        SweepAt(mono);
        timelySweeps := 1;
      } else if mono - lastSweepMono.value >= ttlMs as real {
        OneMoreSweep(timelySweeps, Ttl(), firstSweepMono, lastSweepMono.value, mono);
        SweepAt(mono);
        timelySweeps := timelySweeps + 1;
      }
    }

    /** Is the nonce still live? An entry past its deadline is deleted, to be put back at the end. */
    method Reclaim(nonce: Text, mono: real) returns (live: bool)
      requires Valid() && clock == mono
      modifies `seen
      ensures Valid() && live == Remembered(history, nonce, clock, Ttl())
      ensures !live ==> nonce !in seen.values
    {
      MapAnswersForHistory(seen, history, nonce, clock, Ttl());
      if nonce !in seen.values {
        return false;
      }
      if mono < seen.values[nonce] {
        return true;
      }
      DeleteHolds(seen, LastRecorded(history), nonce, mono, Ttl(), maxEntries);
      seen := seen.Delete(nonce);
      return false;
    }

    /** Room for one more? Only expired entries may go, and a pass is made only if one would. */
    method MakeRoom(ghost absent: Text, mono: real) returns (room: bool)
      requires Valid() && clock == mono && lastSweepMono.Some? && absent !in seen.values
      modifies `seen, `lastSweepMono, `sweeps, `capacitySweeps
      ensures Sound(if room then 1 else 0) && lastSweepMono.Some? && absent !in seen.values
      ensures room <==> |Live(history, clock, Ttl())| < maxEntries
      ensures room ==> seen.Size() < maxEntries
    {
      LiveFitsMap(seen, history, clock, Ttl());
      if seen.Size() < maxEntries {
        return true;
      }
      var could := SweepCouldFree(mono);
      if !could {
        return false;
      }
      StillApart(timelySweeps, Ttl(), firstSweepMono, lastSweepMono.value, clock);
      SweepAt(mono);
      capacitySweeps := capacitySweeps + 1;
      LiveFitsMap(seen, history, clock, Ttl());
      return seen.Size() < maxEntries;
    }

    method Record(nonce: Text, mono: real)
      requires Sound(1) && clock == mono && nonce !in seen.values && seen.Size() < maxEntries
      modifies `seen, `history
      ensures Valid() && history == old(history) + [Recorded(nonce, clock)]
    {
      ghost var after := history + [Recorded(nonce, mono)];
      seen := PutRecorded(seen, history, nonce, mono, ttlMs as real, maxEntries);
      history := after;
    }

    /** `check`: decide and record. */
    method Check(nonce: Text, atSeconds: Option<int>, mono: real) returns (verdict: NonceVerdict)
      requires Valid() && clock <= mono
      modifies this
      ensures Valid()
      ensures verdict == SpecCheck(old(history), nonce, atSeconds, mono, Ttl(), maxEntries)
      ensures history == HistoryAfter(old(history), nonce, mono, verdict)
      ensures clock == if UsableClock(atSeconds) then mono else old(clock)
    {
      if !UsableClock(atSeconds) {
        return ClockInvalid;
      }
      TimelySweep(mono);
      verdict := Decide(nonce, mono);
    }

    /** The verdict at a usable clock, once the timely sweep is behind it. */
    method Decide(nonce: Text, mono: real) returns (verdict: NonceVerdict)
      requires Valid() && clock == mono && lastSweepMono.Some?
      modifies `seen, `lastSweepMono, `sweeps, `capacitySweeps, `history
      ensures Valid()
      ensures verdict == SpecCheck(old(history), nonce, Some(0), mono, Ttl(), maxEntries)
      ensures history == HistoryAfter(old(history), nonce, mono, verdict)
    {
      var live := Reclaim(nonce, mono);
      if live {
        return Replayed;
      }
      var room := MakeRoom(nonce, mono);
      if !room {
        return AtCapacity;
      }
      Record(nonce, mono);
      return Fresh;
    }

    /** `peek`: what `check` would say about a replay, recording nothing. */
    method Peek(nonce: Text, atSeconds: Option<int>, mono: real) returns (verdict: NonceVerdict)
      requires Valid() && clock <= mono
      ensures verdict == SpecPeek(history, nonce, atSeconds, mono, Ttl())
    {
      if !UsableClock(atSeconds) {
        return ClockInvalid;
      }
      MapAnswersForHistory(seen, history, nonce, mono, Ttl());
      return if nonce in seen.values && seen.values[nonce] > mono then Replayed else Fresh;
    }
  }
}
