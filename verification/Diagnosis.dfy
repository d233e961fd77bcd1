/**
 * `diagnoseAssignment` (packages/crypto/src/signature-set.ts:217-255): Kuhn's augmenting paths over
 * a complete member-by-key matrix, run only after the walk has rejected, to name the true cause.
 */
module Diagnosis {
  import opened Common
  import opened SignatureSets

  type Matrix = seq<seq<bool>>

  /** Member `m` verifies under key `k`. */
  predicate Edge(matrix: Matrix, m: nat, k: nat) {
    m < |matrix| && k < |matrix[m]| && matrix[m][k]
  }

  /** `f[m]` is the key given to member `m`: verifying, and no key given twice. */
  ghost predicate InjectiveAssignment(matrix: Matrix, f: seq<nat>) {
    && |f| == |matrix|
    && (forall m :: 0 <= m < |f| ==> Edge(matrix, m, f[m]))
    && (forall m, n :: 0 <= m < n < |f| ==> f[m] != f[n])
  }

  ghost predicate InjectivelyAssignable(matrix: Matrix) {
    exists f :: InjectiveAssignment(matrix, f)
  }

  ghost predicate RowVerifies(matrix: Matrix, m: nat) {
    exists k :: Edge(matrix, m, k)
  }

  ghost predicate EveryRowVerifies(matrix: Matrix) {
    forall m :: 0 <= m < |matrix| ==> RowVerifies(matrix, m)
  }

  /** A bound on the key indices of any row. */
  ghost function Width(matrix: Matrix): (w: nat)
    ensures forall m :: 0 <= m < |matrix| ==> |matrix[m]| <= w
  {
    if matrix == [] then 0
    else
      var rest := Width(matrix[1..]);
      var w := if |matrix[0]| > rest then |matrix[0]| else rest;
      assert forall m :: 0 < m < |matrix| ==> matrix[m] == matrix[1..][m - 1];
      w
  }

  ghost function Below(n: nat): (s: set<nat>)
    ensures forall k: nat :: k in s <==> k < n
  {
    if n == 0 then {} else Below(n - 1) + {n - 1}
  }

  // -------- Partial assignments (key -> member) --------

  type Holders = map<nat, nat>

  ghost predicate Verifies(matrix: Matrix, held: Holders) {
    forall k :: k in held ==> Edge(matrix, held[k], k)
  }

  /** No member holds two keys outside `seen`. */
  ghost predicate OneKeyEach(held: Holders, seen: set<nat>) {
    forall k, l :: k in held && l in held && k !in seen && l !in seen && held[k] == held[l] ==> k == l
  }

  /** Member `m` holds a key outside `seen`. */
  ghost predicate Holds(held: Holders, seen: set<nat>, m: nat) {
    exists k :: k in held && k !in seen && held[k] == m
  }

  /** A search that failed from `m` has seen every key `m` verifies under. */
  ghost predicate Exhausted(matrix: Matrix, seen: set<nat>, m: nat) {
    forall k :: Edge(matrix, m, k) ==> k in seen
  }

  /** Every key seen since `before` is held by a member that is exhausted too. */
  ghost predicate Closed(matrix: Matrix, held: Holders, before: set<nat>, seen: set<nat>) {
    forall k :: k in seen && k !in before ==> k in held && Exhausted(matrix, seen, held[k])
  }

  /** What a successful augmentation of `m` does to the keys outside `seen`. */
  ghost predicate Augmented(matrix: Matrix, was: Holders, now: Holders, seen: set<nat>, m: nat) {
    && Verifies(matrix, now)
    && was.Keys <= now.Keys
    && (forall k :: k in seen && k in now ==> k in was && now[k] == was[k])
    && OneKeyEach(now, seen)
    && (forall n :: Holds(now, seen, n) <==> n == m || Holds(was, seen, n))
  }

  /** Taking a free key augments. */
  lemma {:induction false} TakeFreeKey(matrix: Matrix, was: Holders, before: set<nat>, key: nat, m: nat)
    requires Verifies(matrix, was) && OneKeyEach(was, {}) && !Holds(was, before, m)
    requires key !in was && key !in before && Edge(matrix, m, key)
    ensures Augmented(matrix, was, was[key := m], before, m)
  {
    var now := was[key := m];
    assert key in now && key !in before && now[key] == m;
    forall n ensures Holds(now, before, n) <==> n == m || Holds(was, before, n) {
      if Holds(was, before, n) {
        var k :| k in was && k !in before && was[k] == n;
        assert k in now && now[k] == n;
      }
    }
  }

  /** Taking a key whose holder has found another one augments. */
  lemma {:induction false} TakeReleasedKey(matrix: Matrix, was: Holders, mid: Holders, before: set<nat>,
      seen: set<nat>, key: nat, m: nat)
    requires Verifies(matrix, was) && OneKeyEach(was, {}) && !Holds(was, before, m)
    requires before <= seen && key in seen && key !in before && key in was && Edge(matrix, m, key)
    requires forall k :: k in seen && k !in before && k != key ==> k in was
    requires Augmented(matrix, was, mid, seen, was[key])
    ensures Augmented(matrix, was, mid[key := m], before, m)
  {
    var now := mid[key := m];
    var h := was[key];
    assert m != h by { assert key in was && key !in before && was[key] == h; }
    assert now[key] == m && key in now && key !in before;
    assert OneKeyEach(now, before) by {
      forall k, l | k in now && l in now && k !in before && l !in before && now[k] == now[l] ensures k == l {
        ReleasedKeysApart(matrix, was, mid, before, seen, key, m, k, l);
      }
    }
    forall n ensures Holds(now, before, n) <==> n == m || Holds(was, before, n) {
      ReleasedHolders(matrix, was, mid, before, seen, key, m, n);
    }
  }

  lemma {:induction false} ReleasedKeysApart(matrix: Matrix, was: Holders, mid: Holders, before: set<nat>,
      seen: set<nat>, key: nat, m: nat, k: nat, l: nat)
    requires key in was && OneKeyEach(was, {}) && !Holds(was, before, m) && m != was[key]
    requires before <= seen && key in seen && key !in before
    requires Augmented(matrix, was, mid, seen, was[key])
    requires k in mid[key := m] && l in mid[key := m] && k !in before && l !in before
    requires mid[key := m][k] == mid[key := m][l]
    ensures k == l
  {
    if k != key { KeyOfMember(matrix, was, mid, before, seen, key, m, k); }
    if l != key { KeyOfMember(matrix, was, mid, before, seen, key, m, l); }
  }

  /** Where a member holds a key after the release, it is `m` itself only at `key`. */
  lemma {:induction false} KeyOfMember(matrix: Matrix, was: Holders, mid: Holders, before: set<nat>, seen: set<nat>,
      key: nat, m: nat, k: nat)
    requires key in was && OneKeyEach(was, {}) && !Holds(was, before, m) && m != was[key]
    requires before <= seen && key in seen && key !in before
    requires Augmented(matrix, was, mid, seen, was[key])
    requires k in mid && k !in before && k != key
    ensures mid[k] != m
    ensures k in seen ==> mid[k] == was[k] && k in was && mid[k] != was[key] && !Holds(mid, seen, mid[k])
    ensures k !in seen ==> Holds(mid, seen, mid[k])
  {
    if k in seen {
      assert k in was && mid[k] == was[k];
      assert forall j :: j in was && was[j] == was[k] ==> j == k;
      assert !Holds(was, seen, was[k]);
    } else {
      assert Holds(mid, seen, mid[k]);
      if mid[k] != was[key] {
        assert Holds(was, seen, mid[k]);
        var j :| j in was && j !in seen && was[j] == mid[k];
        assert Holds(was, before, mid[k]);
      }
    }
  }

  lemma {:induction false} ReleasedHolders(matrix: Matrix, was: Holders, mid: Holders, before: set<nat>,
      seen: set<nat>, key: nat, m: nat, n: nat)
    requires OneKeyEach(was, {}) && before <= seen && key in seen && key !in before && key in was
    requires forall k :: k in seen && k !in before && k != key ==> k in was
    requires Augmented(matrix, was, mid, seen, was[key])
    ensures Holds(mid[key := m], before, n) <==> n == m || Holds(was, before, n)
  {
    var now := mid[key := m];
    if Holds(now, before, n) {
      var k :| k in now && k !in before && now[k] == n;
      if k != key {
        if k in seen {
          assert k in was && was[k] == n;
        } else {
          assert Holds(mid, seen, n);
          if n == was[key] {
            assert key in was && key !in before && was[key] == n;
          } else {
            assert Holds(was, seen, n);
            var j :| j in was && j !in seen && was[j] == n;
            assert Holds(was, before, n);
          }
        }
      }
    }
    if n == m {
      assert key in now && key !in before && now[key] == n;
    } else if Holds(was, before, n) {
      var j :| j in was && j !in before && was[j] == n;
      if j in seen && j != key {
        assert j in mid && mid[j] == was[j];
        assert j in now && now[j] == n;
      } else {
        if j == key {
          assert n == was[key];
        } else {
          assert Holds(was, seen, n);
        }
        assert Holds(mid, seen, n);
        var k :| k in mid && k !in seen && mid[k] == n;
        assert k in now && k !in before && now[k] == n;
      }
    }
  }

  // -------- The search --------

  /** The source's closure over `assignedTo` and one `seen` set per outer search. */
  class AugmentingSearch {
    const matrix: Matrix
    ghost const keys: set<nat>
    var assignedTo: Holders
    var seen: set<nat>

    ghost predicate Valid()
      reads this
    {
      && (forall m, k :: Edge(matrix, m, k) ==> k in keys)
      && seen <= keys
      && Verifies(matrix, assignedTo)
    }

    constructor (matrix: Matrix)
      ensures Valid() && this.matrix == matrix && assignedTo == map[] && seen == {}
    {
      this.matrix := matrix;
      this.keys := Below(Width(matrix));
      assignedTo := map[];
      seen := {};
    }

    /** `augment`: gives `member` a key, re-seating holders along an alternating path if it must. */
    method Augment(member: nat) returns (found: bool)
      requires Valid() && member < |matrix|
      requires OneKeyEach(assignedTo, {}) && !Holds(assignedTo, seen, member)
      modifies this
      ensures Valid() && old(seen) <= seen
      ensures found ==> Augmented(matrix, old(assignedTo), assignedTo, old(seen), member)
      ensures !found ==> assignedTo == old(assignedTo) && Exhausted(matrix, seen, member)
      ensures !found ==> Closed(matrix, assignedTo, old(seen), seen)
      decreases keys - seen
    {
      var row := matrix[member];
      var key := 0;
      while key < |row|
        invariant key <= |row| && Valid() && old(seen) <= seen
        invariant assignedTo == old(assignedTo)
        invariant forall k :: 0 <= k < key && row[k] ==> k in seen
        invariant Closed(matrix, assignedTo, old(seen), seen)
      {
        if row[key] && key !in seen {
          assert Edge(matrix, member, key);
          seen := seen + {key};
          if key !in assignedTo {
            TakeFreeKey(matrix, assignedTo, old(seen), key, member);
            assignedTo := assignedTo[key := member];
            return true;
          }
          ghost var entered := seen;
          var holder := assignedTo[key];
          assert Edge(matrix, holder, key);
          var reseated := Augment(holder);
          if reseated {
            TakeReleasedKey(matrix, old(assignedTo), assignedTo, old(seen), entered, key, member);
            assignedTo := assignedTo[key := member];
            return true;
          }
        }
        key := key + 1;
      }
      found := false;
    }
  }

  // -------- Hall violators --------

  /** An injective image is as large as its domain. */
  lemma {:induction false} InjectiveImage(from: set<nat>, f: map<nat, nat>) returns (image: set<nat>)
    requires from <= f.Keys
    requires forall a, b :: a in from && b in from && f[a] == f[b] ==> a == b
    ensures |image| == |from| && forall y :: y in image <==> exists a :: a in from && f[a] == y
  {
    if from == {} {
      image := {};
    } else {
      var a :| a in from;
      var rest := InjectiveImage(from - {a}, f);
      image := rest + {f[a]};
      forall y ensures y in image <==> exists b :: b in from && f[b] == y {
        if exists b :: b in from && f[b] == y {
          var b :| b in from && f[b] == y;
          if b != a { assert b in from - {a}; }
        }
      }
    }
  }

  /** More members than the keys they are all given from: two of them share a key. */
  lemma {:induction false} Pigeonhole(members: set<nat>, keys: set<nat>, f: map<nat, nat>) returns (a: nat, b: nat)
    requires members <= f.Keys && (forall n :: n in members ==> f[n] in keys) && |members| > |keys|
    ensures a in members && b in members && a != b && f[a] == f[b]
  {
    if forall a, b :: a in members && b in members && f[a] == f[b] ==> a == b {
      var image := InjectiveImage(members, f);
      SubsetIsSmaller(image, keys);
    }
    a, b :| a in members && b in members && a != b && f[a] == f[b];
  }

  /**
   * A failed search from an unseated member yields a Hall violator: that member and the holders of
   * the keys it saw are one more member than all the keys any of them verifies under.
   */
  lemma {:induction false} HallViolator(matrix: Matrix, held: Holders, seen: set<nat>, member: nat)
      returns (violators: set<nat>)
    requires member < |matrix| && Verifies(matrix, held) && OneKeyEach(held, {}) && !Holds(held, {}, member)
    requires Exhausted(matrix, seen, member) && Closed(matrix, held, {}, seen)
    ensures |violators| == |seen| + 1
    ensures forall n :: n in violators ==> n < |matrix| && Exhausted(matrix, seen, n)
  {
    var holders := InjectiveImage(seen, held);
    forall k | k in seen ensures held[k] != member {
      assert k in held && k !in {};
    }
    violators := holders + {member};
    forall n | n in violators ensures n < |matrix| && Exhausted(matrix, seen, n) {
      if n in holders {
        var k :| k in seen && held[k] == n;
        assert Edge(matrix, n, k);
      }
    }
  }

  /** A Hall violator leaves no injective assignment. */
  lemma {:induction false} ViolatorRefutes(matrix: Matrix, violators: set<nat>, seen: set<nat>, f: seq<nat>)
    requires |violators| > |seen| && forall n :: n in violators ==> n < |matrix| && Exhausted(matrix, seen, n)
    ensures !InjectiveAssignment(matrix, f)
  {
    if |f| == |matrix| && forall m :: 0 <= m < |f| ==> Edge(matrix, m, f[m]) {
      var a, b := Pigeonhole(violators, seen, map n | n in violators :: f[n]);
    }
  }

  /** Members 0..n-1, and nobody else, are seated. */
  ghost predicate Seated(held: Holders, n: nat) {
    forall m: nat :: Holds(held, {}, m) <==> m < n
  }

  /** When every member is seated, its keys are an injective assignment. */
  lemma {:induction false} SeatedIsAssignment(matrix: Matrix, held: Holders) returns (f: seq<nat>)
    requires Verifies(matrix, held) && OneKeyEach(held, {}) && Seated(held, |matrix|)
    ensures InjectiveAssignment(matrix, f)
  {
    f := [];
    while |f| < |matrix|
      invariant |f| <= |matrix|
      invariant forall m :: 0 <= m < |f| ==> f[m] in held && held[f[m]] == m
    {
      assert Holds(held, {}, |f|);
      var k :| k in held && held[k] == |f|;
      f := f + [k];
    }
  }

  /**
   * `diagnoseAssignment`: totality fails exactly when some row is empty, injectivity exactly when
   * every row has a true entry and no injective assignment exists, and order is what is left.
   */
  method DiagnoseAssignment(matrix: Matrix) returns (cause: Cause)
    ensures cause.MemberVerifiesUnderNoListedKey? <==> !EveryRowVerifies(matrix)
    ensures cause.MembersNotInjectivelyAssignable? <==> EveryRowVerifies(matrix) && !InjectivelyAssignable(matrix)
    ensures cause.MembersOutOfKeyOrder? <==> EveryRowVerifies(matrix) && InjectivelyAssignable(matrix)
  {
    var m := 0;
    while m < |matrix|
      invariant m <= |matrix| && forall n :: 0 <= n < m ==> RowVerifies(matrix, n)
    {
      var some := false;
      var k := 0;
      while k < |matrix[m]|
        invariant k <= |matrix[m]|
        invariant some <==> exists j :: 0 <= j < k && matrix[m][j]
      {
        some := some || matrix[m][k];
        k := k + 1;
      }
      if !some {
        assert forall j: nat :: !Edge(matrix, m, j);
        assert !RowVerifies(matrix, m);
        return MemberVerifiesUnderNoListedKey;
      }
      ghost var j :| 0 <= j < |matrix[m]| && matrix[m][j];
      assert Edge(matrix, m, j);
      m := m + 1;
    }
    var search := new AugmentingSearch(matrix);
    var member := 0;
    while member < |matrix|
      invariant member <= |matrix| && search.Valid() && search.matrix == matrix
      invariant OneKeyEach(search.assignedTo, {}) && Seated(search.assignedTo, member)
      invariant fresh(search)
    {
      search.seen := {};
      var found := search.Augment(member);
      if !found {
        ghost var violators := HallViolator(matrix, search.assignedTo, search.seen, member);
        forall f ensures !InjectiveAssignment(matrix, f) {
          ViolatorRefutes(matrix, violators, search.seen, f);
        }
        return MembersNotInjectivelyAssignable;
      }
      member := member + 1;
    }
    ghost var f := SeatedIsAssignment(matrix, search.assignedTo);
    cause := MembersOutOfKeyOrder;
  }
}
