/**
 * The discovery view's cache of lookups, each kept for one TTL
 * (packages/verify/src/discovery-view.ts:595-597, 673-708, 794-948).
 */
module DiscoveryCaches {
  import opened Common
  import opened OrderedMaps

  /** A cached body and the end of its lifetime on the monotonic clock, in milliseconds. */
  datatype Entry<V> = Entry(value: V, expiresMono: real)

  /** A body as it was last stored, and when. */
  datatype Stored<V> = Stored(value: V, at: real)

  function Expiry<V>(e: Entry<V>): real {
    e.expiresMono
  }

  /** Every cached body is the one last stored at its path, under its own deadline. */
  ghost predicate Current<V(!new)>(cache: OrderedMap<Entry<V>>, last: map<Text, Stored<V>>, ttl: real) {
    forall k :: k in cache.values ==> k in last && cache.values[k] == Entry(last[k].value, last[k].at + ttl)
  }

  ghost predicate StoredBefore<V(!new)>(last: map<Text, Stored<V>>, clock: real) {
    forall k :: k in last ==> last[k].at <= clock
  }

  ghost predicate Holds<V(!new)>(cache: OrderedMap<Entry<V>>, last: map<Text, Stored<V>>, clock: real, ttl: real) {
    cache.Valid() && Ascending(cache, Expiry) && Current(cache, last, ttl) && StoredBefore(last, clock)
  }

  /** What is dropped falls due no later than anything kept, and what is kept is kept unchanged. */
  ghost predicate DropsOldest<V(!new)>(before: OrderedMap<Entry<V>>, after: OrderedMap<Entry<V>>) {
    && (forall k :: k in after.values ==> k in before.values && after.values[k] == before.values[k])
    && (forall gone, kept :: gone in before.values && gone !in after.values && kept in after.values ==>
         before.values[gone].expiresMono <= before.values[kept].expiresMono)
  }

  /** One full pass, dropping what is due. */
  method SweepEntries<V(!new)>(cache: OrderedMap<Entry<V>>, mono: real, ghost last: map<Text, Stored<V>>,
      ghost clock: real, ghost ttl: real)
    returns (r: OrderedMap<Entry<V>>)
    requires Holds(cache, last, clock, ttl)
    ensures Holds(r, last, clock, ttl) && Swept(cache, r, mono) && r.Size() <= cache.Size()
  {
    r := Sweep(cache, Expiry, mono);
    assert forall k :: k in cache.values ==> k in cache.keys;
    FewerKeys(r, cache);
  }

  /** Everything due is gone and everything else is kept, in its old order. */
  ghost predicate Swept<V(!new)>(before: OrderedMap<Entry<V>>, after: OrderedMap<Entry<V>>, mono: real) {
    && Restricts(before, after)
    && forall k :: k in after.values <==> k in before.values && mono < before.values[k].expiresMono
  }

  /**
   * Nothing goes while there is room. Otherwise everything due goes, and then no more live entries
   * than one new entry needs, from the front: from what was stored longest ago.
   */
  ghost predicate Admitted<V(!new)>(before: OrderedMap<Entry<V>>, after: OrderedMap<Entry<V>>, mono: real,
      maxEntries: int) {
    if before.Size() < maxEntries then after == before
    else
      && Restricts(before, after) && IsSuffix(after.keys, before.keys)
      && (forall k :: k in after.values ==> mono < after.values[k].expiresMono)
      && (AllLiveKept(before, after, mono) || after.Size() + 1 == Ceiling(maxEntries))
  }

  ghost predicate AllLiveKept<V(!new)>(before: OrderedMap<Entry<V>>, after: OrderedMap<Entry<V>>, mono: real) {
    forall k :: k in before.values && mono < before.values[k].expiresMono ==> k in after.values
  }

  lemma {:induction false} DeleteHolds<V(!new)>(cache: OrderedMap<Entry<V>>, key: Text,
      last: map<Text, Stored<V>>, clock: real, ttl: real)
    requires Holds(cache, last, clock, ttl)
    ensures Holds(cache.Delete(key), last, clock, ttl) && cache.Delete(key).Size() <= cache.Size()
    ensures key in cache.values ==> cache.Delete(key).Size() < cache.Size()
  {
    DeleteKeeps(cache, key, Expiry);
  }

  lemma {:induction false} EvictionDropsOldest<V(!new)>(cache: OrderedMap<Entry<V>>,
      last: map<Text, Stored<V>>, clock: real, ttl: real)
    requires Holds(cache, last, clock, ttl) && cache.keys != []
    ensures cache.keys[0] in cache.values && DropsOldest(cache, cache.Delete(cache.keys[0]))
  {
    OldestIsFirst(cache, Expiry);
  }

  lemma {:induction false} EvictionHolds<V(!new)>(cache: OrderedMap<Entry<V>>,
      last: map<Text, Stored<V>>, clock: real, ttl: real)
    requires Holds(cache, last, clock, ttl) && cache.keys != []
    ensures var after := cache.Delete(cache.keys[0]); Holds(after, last, clock, ttl) && after.Size() < cache.Size()
  {
    EvictionDropsOldest(cache, last, clock, ttl);
    DeleteHolds(cache, cache.keys[0], last, clock, ttl);
  }

  lemma {:induction false} StoreHolds<V(!new)>(cache: OrderedMap<Entry<V>>, path: Text, value: V, at: real,
      last: map<Text, Stored<V>>, ttl: real)
    requires Holds(cache, last, at, ttl) && path !in cache.values
    ensures Holds(cache.Put(path, Entry(value, at + ttl)), last[path := Stored(value, at)], at, ttl)
    ensures cache.Put(path, Entry(value, at + ttl)).Size() == cache.Size() + 1
  {
    forall k | k in cache.values ensures Expiry(cache.values[k]) <= Expiry(Entry(value, at + ttl)) {
      assert cache.values[k] == Entry(last[k].value, last[k].at + ttl);
    }
    PutKeeps(cache, path, Entry(value, at + ttl), Expiry);
  }

  /** Deleting before reinserting puts a replaced path at the back, with its fresh deadline. */
  lemma {:induction false} ReplaceHolds<V(!new)>(cache: OrderedMap<Entry<V>>, path: Text, value: V, at: real,
      last: map<Text, Stored<V>>, ttl: real)
    requires Holds(cache, last, at, ttl)
    ensures var r := cache.Delete(path).Put(path, Entry(value, at + ttl));
      && Holds(r, last[path := Stored(value, at)], at, ttl) && r.Size() <= cache.Size() + 1
      && path in r.values && r.values[path] == Entry(value, at + ttl)
      && forall k :: k in r.values && k != path ==> k in cache.values && r.values[k] == cache.values[k]
  {
    DeleteHolds(cache, path, last, at, ttl);
    StoreHolds(cache.Delete(path), path, value, at, last, ttl);
  }

  /** Where making room has got to: nothing due is left, and live entries went only while there were too many. */
  ghost predicate MakingRoom<V(!new)>(before: OrderedMap<Entry<V>>, cache: OrderedMap<Entry<V>>, mono: real,
      maxEntries: int) {
    && Restricts(before, cache) && IsSuffix(cache.keys, before.keys)
    && (forall k :: k in cache.values ==> mono < cache.values[k].expiresMono)
    && (AllLiveKept(before, cache, mono) || cache.Size() + 1 >= Ceiling(maxEntries))
  }

  lemma {:induction false} SweptMakesRoom<V(!new)>(before: OrderedMap<Entry<V>>, cache: OrderedMap<Entry<V>>,
      mono: real, maxEntries: int)
    requires Swept(before, cache, mono) && IsSuffix(cache.keys, before.keys)
    ensures MakingRoom(before, cache, mono, maxEntries)
  {}

  lemma {:induction false} EvictionMakesRoom<V(!new)>(before: OrderedMap<Entry<V>>, cache: OrderedMap<Entry<V>>,
      mono: real, maxEntries: int)
    requires cache.Valid() && MakingRoom(before, cache, mono, maxEntries)
    requires cache.keys != [] && cache.Size() >= maxEntries
    ensures MakingRoom(before, cache.Delete(cache.keys[0]), mono, maxEntries)
  {
    var after := cache.Delete(cache.keys[0]);
    RestrictsDelete(before, cache, cache.keys[0]);
    FirstDropped(cache.keys);
    SuffixOfSuffix(after.keys, cache.keys, before.keys);
  }

  lemma {:induction false} RoomIsMade<V(!new)>(before: OrderedMap<Entry<V>>, cache: OrderedMap<Entry<V>>, mono: real,
      maxEntries: int)
    requires MakingRoom(before, cache, mono, maxEntries) && before.Size() >= maxEntries
    requires cache.Size() < maxEntries || cache.keys == []
    ensures Admitted(before, cache, mono, maxEntries) && cache.Size() < Ceiling(maxEntries)
  {}

  /** What has to make room was stored before anything that stays. */
  lemma {:induction false} AdmittedDropsOldest<V(!new)>(before: OrderedMap<Entry<V>>, after: OrderedMap<Entry<V>>,
      mono: real, maxEntries: int)
    requires before.Valid() && Ascending(before, Expiry) && after.Valid() && Admitted(before, after, mono, maxEntries)
    ensures DropsOldest(before, after)
  {
    if before.Size() >= maxEntries {
      forall gone, kept | gone in before.values && gone !in after.values && kept in after.values
        ensures before.values[gone].expiresMono <= before.values[kept].expiresMono {
        assert gone in before.keys && gone !in after.keys && kept in after.keys;
        SuffixIsLatest(before.keys, before.values, after.keys, Expiry, gone, kept);
      }
    }
  }

  /** The entry at its path, behind all the others, and the others as they were. */
  ghost predicate StandsAtBack<V(!new)>(before: OrderedMap<V>, after: OrderedMap<V>, path: Text, entry: V) {
    && after.keys == Without(before.keys, path) + [path]
    && after.values == before.values[path := entry]
  }

  function Stocked<V>(m: OrderedMap<V>, path: Text, entry: V): OrderedMap<V> {
    m.Delete(path).Put(path, entry)
  }

  lemma {:induction false} StockedStandsAtBack<V(!new)>(m: OrderedMap<V>, path: Text, entry: V)
    ensures StandsAtBack(m, Stocked(m, path, entry), path, entry)
  {
    assert (m.values - {path})[path := entry] == m.values[path := entry];
  }

  // -------- Lookups --------

  class LookupCache<V(!new)> {
    const ttlMs: real
    const maxCacheEntries: int
    var cache: OrderedMap<Entry<V>>
    var lastSweepMono: Option<real>
    var sweeps: nat
    /** The latest body stored at each path, evicted or not. */
    ghost var last: map<Text, Stored<V>>
    ghost var clock: real

    constructor (ttlMs: real, maxCacheEntries: int, ghost start: real)
      ensures Valid() && this.ttlMs == ttlMs && this.maxCacheEntries == maxCacheEntries
        && last == map[] && clock == start
    {
      this.ttlMs := ttlMs;
      this.maxCacheEntries := maxCacheEntries;
      cache := Empty();
      lastSweepMono := None;
      sweeps := 0;
      last := map[];
      clock := start;
    }

    ghost predicate Valid()
      reads this
    {
      Holds(cache, last, clock, ttlMs) && cache.Size() <= Ceiling(maxCacheEntries)
    }

    method SweepAt(mono: real)
      requires Valid()
      modifies `cache, `lastSweepMono, `sweeps
      ensures Valid() && Swept(old(cache), cache, mono) && lastSweepMono == Some(mono) && sweeps == old(sweeps) + 1
      ensures cache.Size() <= old(cache.Size())
    {
      cache := SweepEntries(cache, mono, last, clock, ttlMs);
      lastSweepMono := Some(mono);
      sweeps := sweeps + 1;
    }

    predicate SweepDue(mono: real)
      reads this
    {
      lastSweepMono.None? || mono - lastSweepMono.value >= ttlMs
    }

    /**
     * The cache path of `getJson`: a hit is the body last stored there, less than a TTL ago. Only what
     * is due ever goes, all of it once a TTL has passed since the last sweep.
     */
    method Lookup(path: Text, mono: real) returns (hit: Option<V>)
      requires Valid() && clock <= mono
      modifies `cache, `lastSweepMono, `sweeps, `clock
      ensures Valid() && clock == mono
      ensures hit.Some? ==> path in last && hit.value == last[path].value && mono < last[path].at + ttlMs
      ensures hit.Some? <==> path in old(cache.values) && mono < old(cache.values)[path].expiresMono
      ensures hit.None? ==> path !in cache.values
      ensures Restricts(old(cache), cache)
      ensures forall k :: k in old(cache.values) ==>
        (k in cache.values <==> (mono < old(cache.values)[k].expiresMono
          || (old(lastSweepMono).Some? && mono - old(lastSweepMono).value < ttlMs && k != path)))
    {
      clock := mono;
      RestrictsItself(cache);
      if SweepDue(mono) {
        SweepAt(mono);
      }
      if path !in cache.values {
        return None;
      }
      if mono < cache.values[path].expiresMono {
        return Some(cache.values[path].value);
      }
      DeleteHolds(cache, path, last, clock, ttlMs);
      RestrictsDelete(old(cache), cache, path);
      cache := cache.Delete(path);
      return None;
    }

    /** `sweepCouldFree`: the first entry falls due first, so it tells whether anything is due. */
    method SweepCouldFree(mono: real) returns (could: bool)
      requires Valid()
      ensures could <==> exists k :: k in cache.values && cache.values[k].expiresMono <= mono
    {
      if cache.keys == [] {
        assert forall k :: k in cache.values ==> k in cache.keys;
        return false;
      }
      OldestIsFirst(cache, Expiry);
      could := cache.values[cache.keys[0]].expiresMono <= mono;
    }

    /** Expiry first: a full cache keeps what is not due. */
    method SweepIfUseful(mono: real)
      requires Valid()
      modifies `cache, `lastSweepMono, `sweeps
      ensures Valid() && Swept(old(cache), cache, mono) && IsSuffix(cache.keys, old(cache.keys))
    {
      RestrictsItself(cache);
      var could := SweepCouldFree(mono);
      if could {
        SweepAt(mono);
        LiveIsSuffix(old(cache.keys), old(cache.values), cache.values, Expiry, mono);
      }
    }

    method EvictOldest()
      requires Valid() && cache.keys != []
      modifies `cache
      ensures Valid() && cache == old(cache).Delete(old(cache).keys[0]) && cache.Size() < old(cache.Size())
    {
      EvictionHolds(cache, last, clock, ttlMs);
      cache := cache.Delete(cache.keys[0]);
    }

    /** `admit`: expiry first, then the oldest live entries, until there is room or nothing left. */
    method Admit(mono: real)
      requires Valid()
      modifies `cache, `lastSweepMono, `sweeps
      ensures Valid() && cache.Size() < Ceiling(maxCacheEntries) && DropsOldest(old(cache), cache)
      ensures Admitted(old(cache), cache, mono, maxCacheEntries)
    {
      if cache.Size() < maxCacheEntries {
        return;
      }
      SweepIfUseful(mono);
      SweptMakesRoom(old(cache), cache, mono, maxCacheEntries);
      while cache.Size() >= maxCacheEntries
        invariant Valid() && MakingRoom(old(cache), cache, mono, maxCacheEntries)
        decreases cache.Size()
      {
        if cache.keys == [] {
          break;
        }
        EvictionMakesRoom(old(cache), cache, mono, maxCacheEntries);
        EvictOldest();
      }
      RoomIsMade(old(cache), cache, mono, maxCacheEntries);
      AdmittedDropsOldest(old(cache), cache, mono, maxCacheEntries);
    }

    /** The path leaves its old position, if it had one, and goes to the back. */
    method Replace(path: Text, value: V, insertedAt: real)
      requires Valid() && clock == insertedAt && cache.Size() < Ceiling(maxCacheEntries)
      modifies `cache, `last
      ensures Valid() && last == old(last)[path := Stored(value, insertedAt)]
      ensures cache == Stocked(old(cache), path, Entry(value, insertedAt + ttlMs))
    {
      ReplaceHolds(cache, path, value, insertedAt, last, ttlMs);
      cache := cache.Delete(path);
      cache := cache.Put(path, Entry(value, insertedAt + ttlMs));
      last := last[path := Stored(value, insertedAt)];
    }

    /** The end of a miss: room is made, and the body stored with a deadline counted from now, at the back. */
    method Store(path: Text, value: V, insertedAt: real) returns (ghost admitted: OrderedMap<Entry<V>>)
      requires Valid() && clock <= insertedAt
      modifies this
      ensures Valid() && clock == insertedAt && last == old(last)[path := Stored(value, insertedAt)]
      ensures Admitted(old(cache), admitted, insertedAt, maxCacheEntries) && DropsOldest(old(cache), admitted)
      ensures StandsAtBack(admitted, cache, path, Entry(value, insertedAt + ttlMs))
    {
      clock := insertedAt;
      Admit(insertedAt);
      admitted := cache;
      Replace(path, value, insertedAt);
      StockedStandsAtBack(admitted, path, Entry(value, insertedAt + ttlMs));
    }
  }
}
