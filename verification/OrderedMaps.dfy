/**
 * JavaScript's insertion-ordered `Map`, as its keys in order and a map, and the expiring maps built
 * on it. Keys are strings.
 */
module OrderedMaps {
  import opened Common

  datatype OrderedMap<V> = OrderedMap(keys: seq<Text>, values: map<Text, V>)
  {
    /** Every key stands at exactly one position. */
    ghost predicate Valid() {
      Once(keys) && forall k :: k in keys <==> k in values
    }

    function Size(): nat {
      |keys|
    }

    /** `map.set`: a key already present keeps its position. */
    function Put(key: Text, value: V): OrderedMap<V> {
      OrderedMap(if key in values then keys else keys + [key], values[key := value])
    }

    /** `map.delete`. */
    function Delete(key: Text): OrderedMap<V> {
      OrderedMap(Without(keys, key), values - {key})
    }
  }

  function Empty<V>(): OrderedMap<V> {
    OrderedMap([], map[])
  }

  ghost predicate Once(keys: seq<Text>) {
    keys == [] || (keys[0] !in keys[1..] && Once(keys[1..]))
  }

  /** No key comes before one that falls due earlier. */
  ghost predicate InDeadlineOrder<V>(keys: seq<Text>, values: map<Text, V>, due: V -> real)
    requires forall k :: k in keys ==> k in values
  {
    keys == [] ||
    ((forall k :: k in keys[1..] ==> due(values[keys[0]]) <= due(values[k])) && InDeadlineOrder(keys[1..], values, due))
  }

  /** Insertion order is deadline order. */
  ghost predicate Ascending<V>(m: OrderedMap<V>, due: V -> real)
    requires m.Valid()
  {
    InDeadlineOrder(m.keys, m.values, due)
  }

  function Without(keys: seq<Text>, key: Text): (r: seq<Text>)
    ensures forall k :: k in r <==> k in keys && k != key
  {
    if keys == [] then []
    else if keys[0] == key then Without(keys[1..], key)
    else [keys[0]] + Without(keys[1..], key)
  }

  lemma {:induction false} WithoutOnce(keys: seq<Text>, key: Text)
    requires Once(keys)
    ensures Once(Without(keys, key))
    ensures |Without(keys, key)| == if key in keys then |keys| - 1 else |keys|
  {
    if keys != [] {
      WithoutOnce(keys[1..], key);
      if keys[0] != key {
        assert Without(keys, key)[1..] == Without(keys[1..], key);
      }
    }
  }

  lemma {:induction false} WithoutInOrder<V>(keys: seq<Text>, key: Text, values: map<Text, V>, due: V -> real)
    requires forall k :: k in keys ==> k in values
    requires InDeadlineOrder(keys, values, due)
    ensures InDeadlineOrder(Without(keys, key), values - {key}, due)
  {
    if keys != [] {
      WithoutInOrder(keys[1..], key, values, due);
      if keys[0] != key {
        assert Without(keys, key)[1..] == Without(keys[1..], key);
      }
    }
  }

  lemma {:induction false} DeleteKeeps<V>(m: OrderedMap<V>, key: Text, due: V -> real)
    requires m.Valid() && Ascending(m, due)
    ensures m.Delete(key).Valid() && Ascending(m.Delete(key), due)
    ensures m.Delete(key).Size() == if key in m.values then m.Size() - 1 else m.Size()
  {
    WithoutOnce(m.keys, key);
    WithoutInOrder(m.keys, key, m.values, due);
  }

  lemma {:induction false} AppendOnce(keys: seq<Text>, key: Text)
    requires Once(keys) && key !in keys
    ensures Once(keys + [key])
  {
    if keys != [] {
      AppendOnce(keys[1..], key);
      assert (keys + [key])[1..] == keys[1..] + [key];
    }
  }

  lemma {:induction false} AppendInOrder<V>(keys: seq<Text>, key: Text, value: V, values: map<Text, V>, due: V -> real)
    requires key !in keys && forall k :: k in keys ==> k in values && due(values[k]) <= due(value)
    requires InDeadlineOrder(keys, values, due)
    ensures InDeadlineOrder(keys + [key], values[key := value], due)
  {
    if keys == [] {
      assert (keys + [key])[1..] == [] && InDeadlineOrder((keys + [key])[1..], values[key := value], due);
    } else {
      AppendInOrder(keys[1..], key, value, values, due);
      assert (keys + [key])[1..] == keys[1..] + [key];
    }
  }

  /** A new key goes to the back, where the latest deadline belongs. */
  lemma {:induction false} PutKeeps<V>(m: OrderedMap<V>, key: Text, value: V, due: V -> real)
    requires m.Valid() && Ascending(m, due) && key !in m.values
    requires forall k :: k in m.values ==> due(m.values[k]) <= due(value)
    ensures m.Put(key, value).Valid() && Ascending(m.Put(key, value), due)
    ensures m.Put(key, value).Size() == m.Size() + 1
  {
    AppendOnce(m.keys, key);
    AppendInOrder(m.keys, key, value, m.values, due);
  }

  // -------- Recency --------

  lemma {:induction false} PutValid<V>(m: OrderedMap<V>, key: Text, value: V)
    requires m.Valid() && key !in m.values
    ensures m.Put(key, value).Valid()
  {
    AppendOnce(m.keys, key);
  }

  lemma {:induction false} DeleteValid<V>(m: OrderedMap<V>, key: Text)
    requires m.Valid()
    ensures m.Delete(key).Valid() && key !in m.Delete(key).values
  {
    WithoutOnce(m.keys, key);
  }

  /** Deleting and setting again moves an entry to the back and changes nothing else. */
  function MovedToBack<V>(m: OrderedMap<V>, key: Text): OrderedMap<V>
    requires key in m.values
  {
    m.Delete(key).Put(key, m.values[key])
  }

  lemma {:induction false} MovedToBackValid<V>(m: OrderedMap<V>, key: Text)
    requires m.Valid() && key in m.values
    ensures MovedToBack(m, key).Valid()
  {
    DeleteValid(m, key);
    PutValid(m.Delete(key), key, m.values[key]);
  }

  lemma {:induction false} MovedToBackKeepsValues<V>(m: OrderedMap<V>, key: Text)
    requires m.Valid() && key in m.values
    ensures MovedToBack(m, key).values == m.values
  {
    assert (m.values - {key})[key := m.values[key]] == m.values;
  }

  lemma {:induction false} MovedToBackKeepsSize<V>(m: OrderedMap<V>, key: Text)
    requires m.Valid() && key in m.values
    ensures MovedToBack(m, key).Size() == m.Size()
  {
    WithoutOnce(m.keys, key);
  }

  method MoveToBack<V>(m: OrderedMap<V>, key: Text) returns (r: OrderedMap<V>)
    requires m.Valid() && key in m.values
    ensures r.Valid() && r == MovedToBack(m, key) && r.values == m.values && r.Size() == m.Size()
  {
    MovedToBackValid(m, key);
    MovedToBackKeepsValues(m, key);
    MovedToBackKeepsSize(m, key);
    r := m.Delete(key);
    r := r.Put(key, m.values[key]);
  }

  /** The first entry is the first to fall due. */
  lemma {:induction false} OldestIsFirst<V>(m: OrderedMap<V>, due: V -> real)
    requires m.Valid() && Ascending(m, due) && m.keys != []
    ensures m.keys[0] in m.values
    ensures forall k :: k in m.values ==> due(m.values[m.keys[0]]) <= due(m.values[k])
  {
    assert m.keys[0] in m.keys;
    assert forall k :: k in m.keys ==> k == m.keys[0] || k in m.keys[1..];
  }

  // -------- Sizes --------

  lemma {:induction false} OnceCounts(keys: seq<Text>)
    requires Once(keys)
    ensures |set k | k in keys| == |keys|
  {
    if keys != [] {
      OnceCounts(keys[1..]);
      assert (set k | k in keys) == {keys[0]} + (set k | k in keys[1..]);
    }
  }

  lemma {:induction false} SizeIsKeys<V>(m: OrderedMap<V>)
    requires m.Valid()
    ensures m.Size() == |m.values.Keys|
  {
    OnceCounts(m.keys);
    assert (set k | k in m.keys) == m.values.Keys;
  }

  /** A map with no more keys is no larger, and smaller if it lacks one. */
  lemma {:induction false} FewerKeys<V>(r: OrderedMap<V>, m: OrderedMap<V>)
    requires r.Valid() && m.Valid() && r.values.Keys <= m.values.Keys
    ensures r.Size() <= m.Size()
    ensures r.values.Keys != m.values.Keys ==> r.Size() < m.Size()
  {
    SizeIsKeys(r);
    SizeIsKeys(m);
    SubsetIsSmaller(r.values.Keys, m.values.Keys);
  }

  /** A map that evicts at its ceiling always has room for one entry. */
  function Ceiling(maxEntries: int): nat {
    if maxEntries < 1 then 1 else maxEntries
  }

  // -------- Expiry --------

  /** What a pass over some of the keys leaves: everything but the entries among them already due. */
  ghost predicate SweptOver<V>(m: OrderedMap<V>, r: OrderedMap<V>, passed: seq<Text>, due: V -> real, now: real) {
    && (forall k :: k in r.values <==> k in m.values && (k in passed ==> now < due(m.values[k])))
    && (forall k :: k in r.values ==> r.values[k] == m.values[k])
  }

  lemma {:induction false} SweepStep<V>(m: OrderedMap<V>, r: OrderedMap<V>, passed: seq<Text>, key: Text,
      due: V -> real, now: real)
    requires r.Valid() && Ascending(r, due) && key in m.values && SweptOver(m, r, passed, due, now)
    ensures var next := if due(m.values[key]) <= now then r.Delete(key) else r;
      next.Valid() && Ascending(next, due) && SweptOver(m, next, passed + [key], due, now)
  {
    DeleteKeeps(r, key, due);
  }

  /** The keys that are still in the map, in their old order. */
  function Kept<V>(keys: seq<Text>, values: map<Text, V>): (r: seq<Text>)
    ensures forall k :: k in r <==> k in keys && k in values
  {
    if keys == [] then []
    else if keys[0] in values then [keys[0]] + Kept(keys[1..], values)
    else Kept(keys[1..], values)
  }

  lemma {:induction false} KeptAll<V>(keys: seq<Text>, values: map<Text, V>)
    requires forall k :: k in keys ==> k in values
    ensures Kept(keys, values) == keys
  {
    if keys != [] { KeptAll(keys[1..], values); }
  }

  lemma {:induction false} KeptWithout<V>(keys: seq<Text>, values: map<Text, V>, key: Text)
    ensures Without(Kept(keys, values), key) == Kept(keys, values - {key})
  {
    if keys != [] {
      KeptWithout(keys[1..], values, key);
      if keys[0] in values {
        assert Kept(keys, values)[1..] == Kept(keys[1..], values);
      }
    }
  }

  /** What is left of a map whose entries were dropped one by one: the rest, in its old order. */
  ghost predicate Restricts<V(!new)>(before: OrderedMap<V>, after: OrderedMap<V>) {
    && after.keys == Kept(before.keys, after.values)
    && forall k :: k in after.values ==> k in before.values && after.values[k] == before.values[k]
  }

  lemma {:induction false} RestrictsDelete<V(!new)>(before: OrderedMap<V>, after: OrderedMap<V>, key: Text)
    requires Restricts(before, after)
    ensures Restricts(before, after.Delete(key))
  {
    KeptWithout(before.keys, after.values, key);
  }

  lemma {:induction false} RestrictsItself<V(!new)>(m: OrderedMap<V>)
    requires m.Valid()
    ensures Restricts(m, m)
  {
    KeptAll(m.keys, m.values);
  }

  ghost predicate IsSuffix(s: seq<Text>, t: seq<Text>) {
    |s| <= |t| && s == t[|t| - |s|..]
  }

  lemma {:induction false} SuffixOfSuffix(s: seq<Text>, t: seq<Text>, u: seq<Text>)
    requires IsSuffix(s, t) && IsSuffix(t, u)
    ensures IsSuffix(s, u)
  {}

  /** When what is due is dropped, what is left stood at the back. */
  lemma {:induction false} LiveIsSuffix<V>(keys: seq<Text>, values: map<Text, V>, live: map<Text, V>,
      due: V -> real, now: real)
    requires forall k :: k in keys ==> k in values
    requires InDeadlineOrder(keys, values, due)
    requires forall k :: k in keys ==> (k in live <==> now < due(values[k]))
    ensures IsSuffix(Kept(keys, live), keys)
  {
    if keys != [] {
      if keys[0] in live {
        KeptAll(keys, live);
      } else {
        LiveIsSuffix(keys[1..], values, live, due, now);
      }
    }
  }

  /** In deadline order, what stands before the back falls due no later than anything there. */
  lemma {:induction false} SuffixIsLatest<V>(keys: seq<Text>, values: map<Text, V>, back: seq<Text>, due: V -> real,
      gone: Text, kept: Text)
    requires forall k :: k in keys ==> k in values
    requires InDeadlineOrder(keys, values, due) && IsSuffix(back, keys)
    requires gone in keys && gone !in back && kept in back
    ensures due(values[gone]) <= due(values[kept])
  {
    assert |back| < |keys|;
    assert IsSuffix(back, keys[1..]);
    if gone != keys[0] {
      SuffixIsLatest(keys[1..], values, back, due, gone, kept);
    }
  }

  lemma {:induction false} FirstDropped(keys: seq<Text>)
    requires Once(keys) && keys != []
    ensures Without(keys, keys[0]) == keys[1..]
  {
    NotThere(keys[1..], keys[0]);
  }

  lemma {:induction false} NotThere(keys: seq<Text>, key: Text)
    requires key !in keys
    ensures Without(keys, key) == keys
  {
    if keys != [] { NotThere(keys[1..], key); }
  }

  /** Drops every entry whose deadline has come, in one pass over the map. */
  method Sweep<V(!new)>(m: OrderedMap<V>, due: V -> real, now: real) returns (r: OrderedMap<V>)
    requires m.Valid() && Ascending(m, due)
    ensures r.Valid() && Ascending(r, due) && SweptOver(m, r, m.keys, due, now) && Restricts(m, r)
  {
    r := m;
    RestrictsItself(m);
    for i := 0 to |m.keys|
      invariant r.Valid() && Ascending(r, due) && SweptOver(m, r, m.keys[..i], due, now) && Restricts(m, r)
    {
      var key := m.keys[i];
      assert key in m.keys && m.keys[..i + 1] == m.keys[..i] + [key];
      SweepStep(m, r, m.keys[..i], key, due, now);
      RestrictsDelete(m, r, key);
      if due(m.values[key]) <= now {
        r := r.Delete(key);
      }
    }
    assert m.keys[..|m.keys|] == m.keys;
  }
}
