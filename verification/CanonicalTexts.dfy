/**
 * What canonical text is (RFC 8785, packages/crypto/src/jcs.ts): a JSON text without whitespace whose
 * members are in name order, and which denotes the value it was printed from.
 */
module CanonicalTexts {
  import opened Common
  import opened JsonStrings
  import opened Jcs
  import J = JsonTexts

  // -------- What a parsed text denotes --------

  /** The token is the decimal of the number, without a leading zero. */
  ghost predicate Numeral(token: Text, n: int) {
    exists whole ::
      && J.DigitRun(whole) && (whole[0] == ZERO ==> |whole| == 1)
      && token == (if n < 0 then [MINUS] else []) + whole
      && DigitsValue(whole) == if n < 0 then -n else n
  }

  /** The parsed text is the value, undefined members aside. */
  ghost predicate Denotes(p: J.Parsed, v: Value)
    decreases v
  {
    match (p, v)
    case (PWord(word), Null) => word == Ascii("null")
    case (PWord(word), Bool(b)) => word == Ascii(if b then "true" else "false")
    case (PNumber(token), Num(n)) => Numeral(token, n)
    case (PString(decoded), Str(s)) => decoded == s
    case (PArray(parts), Arr(items)) =>
      |parts| == |items| && forall i :: 0 <= i < |items| ==> Denotes(parts[i], items[i])
    case (PObject(parts), Obj(ms)) =>
      && (forall i :: 0 <= i < |ms| && ms[i].value != Undefined ==>
            ms[i].name in parts && Denotes(parts[ms[i].name], ms[i].value))
      && (forall name :: name in parts ==> exists i :: 0 <= i < |ms| && ms[i].name == name && ms[i].value != Undefined)
    case _ => false
  }

  // -------- Canonical form --------

  /** No whitespace, strings as they are quoted, and every object's names in strictly ascending order. */
  ghost predicate InCanonicalForm(j: J.Json)
    requires J.WellFormed(j)
    decreases j
  {
    match j
    case String(literal) => literal == Quote(J.Decoded(literal))
    case Array(space, items) => space == [] && forall i :: 0 <= i < |items| ==>
      items[i].before == [] && items[i].after == [] && InCanonicalForm(items[i].value)
    case Object(space, members) =>
      && space == []
      && (forall i :: 0 <= i < |members| ==> CompactPair(members[i]) && InCanonicalForm(members[i].element.value))
      && (forall i, k :: 0 <= i < k < |members| ==> NamesInOrder(members[i], members[k]))
    case _ => true
  }

  ghost predicate CompactPair(p: J.Pair)
    requires J.WellNamed(p)
  {
    && p.before == [] && p.between == [] && p.element.before == [] && p.element.after == []
    && p.name == Quote(J.Decoded(p.name))
  }

  ghost predicate NamesInOrder(p: J.Pair, q: J.Pair)
    requires J.WellNamed(p) && J.WellNamed(q)
  {
    exists k: nat :: DiffersAt(J.Decoded(p.name), J.Decoded(q.name), k)
  }

  /** A derivation of the text in canonical form that denotes the value. */
  ghost predicate Derives(j: J.Json, v: Value, text: Text) {
    J.WellFormed(j) && InCanonicalForm(j) && J.Render(j) == text
      && Denotes(J.Resolve(j, J.FirstWins), v) && Denotes(J.Resolve(j, J.LastWins), v)
  }

  // -------- Scalars --------

  lemma {:induction false} QuoteIsLiteral(s: Text)
    ensures J.IsLiteral(Quote(s)) && J.Decoded(Quote(s)) == s
  {
    ReadBodyOfEscaped(s, [QUOTE], []);
    assert Quote(s)[1..] == EscapeAll(s) + [QUOTE];
  }

  lemma {:induction false} DecimalIsNumeral(n: int)
    ensures var whole := Decimal(if n < 0 then -n else n);
      && J.DigitRun(whole) && (whole[0] == ZERO ==> |whole| == 1)
      && Numeral((if n < 0 then [MINUS] else []) + whole, n)
  {
    DecimalRoundTrip(if n < 0 then -n else n);
    DecimalHasNoLeadingZero(if n < 0 then -n else n);
  }

  lemma {:induction false} DeriveNumber(n: SafeInt) returns (j: J.Json)
    ensures Derives(j, Num(n), PrintNumber(n))
  {
    var whole := Decimal(if n < 0 then -n else n);
    j := J.Number(n < 0, whole, [], []);
    DecimalIsNumeral(n);
    assert J.Render(j) == (if n < 0 then [MINUS] else []) + whole == PrintNumber(n);
  }

  lemma {:induction false} DecimalHasNoLeadingZero(n: nat)
    ensures Decimal(n)[0] == ZERO ==> |Decimal(n)| == 1
  {}

  lemma {:induction false} DeriveString(s: Text) returns (j: J.Json)
    ensures Derives(j, Str(s), Quote(s))
  {
    j := J.String(Quote(s));
    QuoteIsLiteral(s);
  }

  // -------- Arrays and objects --------

  ghost predicate DerivesItem(e: J.Element, v: Value, text: Text) {
    e.before == [] && e.after == [] && Derives(e.value, v, text)
  }

  lemma {:induction false} RenderedItems(es: seq<J.Element>, items: seq<Value>, texts: seq<Text>)
    requires |es| == |items| == |texts| && forall i :: 0 <= i < |es| ==> DerivesItem(es[i], items[i], texts[i])
    ensures J.RenderItems(es) == JoinItems(texts)
    ensures J.GoodItems(es)
  {
    if es != [] {
      RenderedItems(es[1..], items[1..], texts[1..]);
      assert J.RenderElement(es[0]) == texts[0];
    }
  }

  lemma {:induction false} ResolvedItems(es: seq<J.Element>, rule: J.Rule)
    requires J.GoodItems(es)
    ensures |J.ResolveItems(es, rule)| == |es|
    ensures forall i :: 0 <= i < |es| ==> J.ResolveItems(es, rule)[i] == J.Resolve(es[i].value, rule)
  {
    if es != [] {
      ResolvedItems(es[1..], rule);
    }
  }

  lemma {:induction false} DeriveArray(items: seq<Value>, texts: seq<Text>) returns (j: J.Json)
    requires |texts| == |items| && forall i :: 0 <= i < |items| ==> WellFormed(items[i])
    requires forall i :: 0 <= i < |items| ==> Canonicalize(items[i]) == Some(texts[i])
    ensures Derives(j, Arr(items), [OPEN_BRACKET] + JoinItems(texts) + [CLOSE_BRACKET])
    decreases items, 0
  {
    var es: seq<J.Element> := [];
    while |es| < |items|
      invariant |es| <= |items| && forall i :: 0 <= i < |es| ==> DerivesItem(es[i], items[i], texts[i])
    {
      var part := DeriveText(items[|es|], texts[|es|]);
      es := es + [J.Element([], part, [])];
    }
    j := J.Array([], es);
    ArrayDerived(es, items, texts);
  }

  lemma {:induction false} ArrayDerived(es: seq<J.Element>, items: seq<Value>, texts: seq<Text>)
    requires |es| == |items| == |texts| && forall i :: 0 <= i < |es| ==> DerivesItem(es[i], items[i], texts[i])
    ensures Derives(J.Array([], es), Arr(items), [OPEN_BRACKET] + JoinItems(texts) + [CLOSE_BRACKET])
  {
    RenderedItems(es, items, texts);
    ResolvedItems(es, J.FirstWins);
    ResolvedItems(es, J.LastWins);
  }

  /** A pair for a printed member. */
  ghost predicate DerivesPair(p: J.Pair, m: Member, e: Entry) {
    && Prints(m, e) && J.WellNamed(p) && CompactPair(p) && p.name == Quote(e.name)
    && Derives(p.element.value, m.value, e.text)
  }

  lemma {:induction false} PairRenders(p: J.Pair, m: Member, e: Entry)
    requires DerivesPair(p, m, e)
    ensures J.RenderPair(p) == Quote(e.name) + [COLON] + e.text && J.Decoded(p.name) == e.name == m.name
  {
    QuoteIsLiteral(e.name);
  }

  ghost predicate DerivesPairs(ps: seq<J.Pair>, ms: seq<Member>, es: seq<Entry>) {
    |ps| == |ms| == |es| && forall i :: 0 <= i < |es| ==> DerivesPair(ps[i], ms[i], es[i])
  }

  lemma {:induction false} RenderedPairs(ps: seq<J.Pair>, ms: seq<Member>, es: seq<Entry>)
    requires DerivesPairs(ps, ms, es)
    ensures J.RenderPairs(ps) == JoinEntries(es) && J.GoodPairs(ps)
  {
    if ps != [] {
      RenderedPairs(ps[1..], ms[1..], es[1..]);
      PairRenders(ps[0], ms[0], es[0]);
    }
  }

  ghost predicate NamedApart(ps: seq<J.Pair>)
    requires J.GoodPairs(ps)
  {
    forall i, k :: 0 <= i < k < |ps| ==> J.Decoded(ps[i].name) != J.Decoded(ps[k].name)
  }

  lemma {:induction false} NamesAre(ps: seq<J.Pair>, i: nat)
    requires J.GoodPairs(ps) && i < |ps|
    ensures J.Names(ps)[i] == J.Decoded(ps[i].name)
  {
    if i > 0 { NamesAre(ps[1..], i - 1); }
  }

  /** With names apart, each name leads to its own pair's value. */
  lemma {:induction false} ResolvedAt(ps: seq<J.Pair>, rule: J.Rule, i: nat)
    requires J.GoodPairs(ps) && NamedApart(ps) && i < |ps|
    ensures var parts, name := J.ResolvePairs(ps, rule), J.Decoded(ps[i].name);
      name in parts && parts[name] == J.Resolve(ps[i].element.value, rule)
  {
    var tail := ps[1..];
    assert forall k :: 0 <= k < |tail| ==> tail[k] == ps[k + 1];
    if i == 0 {
      J.ResolvedNames(tail, rule, J.Decoded(ps[0].name));
      forall k | 0 <= k < |tail| ensures J.Names(tail)[k] != J.Decoded(ps[0].name) {
        NamesAre(tail, k);
      }
    } else {
      ResolvedAt(tail, rule, i - 1);
    }
  }

  lemma {:induction false} DerivePair(ms: seq<Member>, e: Entry) returns (p: J.Pair, m: Member)
    requires (forall i :: 0 <= i < |ms| ==> WellFormed(ms[i].value)) && PrintedIn(ms, e)
    ensures DerivesPair(p, m, e) && m in ms
    decreases ms, 0
  {
    m :| m in ms && Prints(m, e);
    var part := DeriveText(m.value, e.text);
    QuoteIsLiteral(e.name);
    p := J.Pair([], Quote(e.name), [], J.Element([], part, []));
  }

  /** A pair for every entry, in the entries' order. */
  lemma {:induction false} DerivePairs(ms: seq<Member>, es: seq<Entry>) returns (ps: seq<J.Pair>, chosen: seq<Member>)
    requires forall i :: 0 <= i < |ms| ==> WellFormed(ms[i].value)
    requires forall e :: e in es ==> PrintedIn(ms, e)
    ensures DerivesPairs(ps, chosen, es) && forall m :: m in chosen ==> m in ms
    decreases ms, 1
  {
    ps, chosen := [], [];
    while |ps| < |es|
      invariant |ps| == |chosen| <= |es|
      invariant forall i :: 0 <= i < |ps| ==> chosen[i] in ms && DerivesPair(ps[i], chosen[i], es[i])
    {
      var p, m := DerivePair(ms, es[|ps|]);
      ps, chosen := ps + [p], chosen + [m];
    }
  }

  lemma {:induction false} PairsApart(ps: seq<J.Pair>, ms: seq<Member>, es: seq<Entry>)
    requires DerivesPairs(ps, ms, es) && J.GoodPairs(ps) && DistinctEntryNames(es)
    ensures NamedApart(ps)
  {
    forall i, k | 0 <= i < k < |ps| ensures J.Decoded(ps[i].name) != J.Decoded(ps[k].name) {
      PairRenders(ps[i], ms[i], es[i]);
      PairRenders(ps[k], ms[k], es[k]);
    }
  }

  /** A defined member is found under its name, and denoted. */
  lemma {:induction false} MemberDenoted(ms: seq<Member>, chosen: seq<Member>, ps: seq<J.Pair>, es: seq<Entry>,
      rule: J.Rule, m: Member)
    requires DistinctNames(ms) && PrintsAll(ms, es) && DerivesPairs(ps, chosen, es) && J.GoodPairs(ps)
    requires NamedApart(ps) && (forall n :: n in chosen ==> n in ms) && m in ms && m.value != Undefined
    ensures var parts := J.ResolvePairs(ps, rule); m.name in parts && Denotes(parts[m.name], m.value)
  {
    assert Appears(m, es);
    var e :| e in es && Prints(m, e);
    var k :| 0 <= k < |es| && es[k] == e;
    PairRenders(ps[k], chosen[k], es[k]);
    NamesAMember(ms, m, chosen[k]);
    ResolvedAt(ps, rule, k);
    assert rule == J.FirstWins || rule == J.LastWins;
  }

  /** A name that is found is a defined member's. */
  lemma {:induction false} NameIsMembers(ms: seq<Member>, chosen: seq<Member>, ps: seq<J.Pair>, es: seq<Entry>,
      rule: J.Rule, name: Text)
    requires DerivesPairs(ps, chosen, es) && J.GoodPairs(ps) && (forall n :: n in chosen ==> n in ms)
    requires name in J.ResolvePairs(ps, rule)
    ensures exists i :: 0 <= i < |ms| && ms[i].name == name && ms[i].value != Undefined
  {
    J.ResolvedNames(ps, rule, name);
    var k :| 0 <= k < |J.Names(ps)| && J.Names(ps)[k] == name;
    NamesAre(ps, k);
    PairRenders(ps[k], chosen[k], es[k]);
    assert chosen[k] in ms;
  }

  lemma {:induction false} ObjectDenotes(ms: seq<Member>, chosen: seq<Member>, ps: seq<J.Pair>, es: seq<Entry>,
      rule: J.Rule)
    requires DistinctNames(ms) && PrintsAll(ms, es) && DistinctEntryNames(es)
    requires DerivesPairs(ps, chosen, es) && J.GoodPairs(ps) && forall m :: m in chosen ==> m in ms
    ensures Denotes(J.PObject(J.ResolvePairs(ps, rule)), Obj(ms))
  {
    var parts := J.ResolvePairs(ps, rule);
    PairsApart(ps, chosen, es);
    forall i | 0 <= i < |ms| && ms[i].value != Undefined
      ensures ms[i].name in parts && Denotes(parts[ms[i].name], ms[i].value) {
      MemberDenoted(ms, chosen, ps, es, rule, ms[i]);
    }
    forall name | name in parts ensures exists i :: 0 <= i < |ms| && ms[i].name == name && ms[i].value != Undefined {
      NameIsMembers(ms, chosen, ps, es, rule, name);
    }
  }

  lemma {:induction false} PairsAscend(ps: seq<J.Pair>, ms: seq<Member>, es: seq<Entry>)
    requires DerivesPairs(ps, ms, es) && Ascending(es)
    ensures forall i, k :: 0 <= i < k < |ps| ==> NamesInOrder(ps[i], ps[k])
  {
    forall i, k | 0 <= i < k < |ps| ensures NamesInOrder(ps[i], ps[k]) {
      PairRenders(ps[i], ms[i], es[i]);
      PairRenders(ps[k], ms[k], es[k]);
      LessAtFirstDifference(es[i].name, es[k].name);
    }
  }

  lemma {:induction false} SortedPrinted(ms: seq<Member>, es: seq<Entry>)
    requires DistinctNames(ms) && CanonicalizeMembers(ms) == Some(es)
    ensures var sorted := SortEntries(es);
      PrintsAll(ms, sorted) && DistinctEntryNames(sorted) && Ascending(sorted)
  {
    MembersPrinted(ms, es);
    SortSorts(es);
    var sorted := SortEntries(es);
    SortedDistinct(sorted);
    forall m | m in ms && m.value != Undefined ensures Appears(m, sorted) {
      assert Appears(m, es);
    }
  }

  lemma {:induction false} DeriveObject(ms: seq<Member>, es: seq<Entry>) returns (j: J.Json)
    requires DistinctNames(ms) && forall i :: 0 <= i < |ms| ==> WellFormed(ms[i].value)
    requires CanonicalizeMembers(ms) == Some(es)
    ensures Derives(j, Obj(ms), [OPEN_BRACE] + JoinEntries(SortEntries(es)) + [CLOSE_BRACE])
    decreases ms, 2
  {
    SortedPrinted(ms, es);
    var sorted := SortEntries(es);
    var ps, chosen := DerivePairs(ms, sorted);
    j := J.Object([], ps);
    ObjectDerived(ms, chosen, ps, sorted);
  }

  lemma {:induction false} ObjectDerived(ms: seq<Member>, chosen: seq<Member>, ps: seq<J.Pair>, es: seq<Entry>)
    requires DistinctNames(ms) && PrintsAll(ms, es) && DistinctEntryNames(es) && Ascending(es)
    requires DerivesPairs(ps, chosen, es) && forall m :: m in chosen ==> m in ms
    ensures Derives(J.Object([], ps), Obj(ms), [OPEN_BRACE] + JoinEntries(es) + [CLOSE_BRACE])
  {
    ObjectInForm(ps, chosen, es);
    ObjectDenotes(ms, chosen, ps, es, J.FirstWins);
    ObjectDenotes(ms, chosen, ps, es, J.LastWins);
  }

  lemma {:induction false} ObjectInForm(ps: seq<J.Pair>, chosen: seq<Member>, es: seq<Entry>)
    requires DerivesPairs(ps, chosen, es) && Ascending(es)
    ensures var j := J.Object([], ps);
      && J.WellFormed(j) && J.GoodPairs(ps) && InCanonicalForm(j)
      && J.Render(j) == [OPEN_BRACE] + JoinEntries(es) + [CLOSE_BRACE]
  {
    RenderedPairs(ps, chosen, es);
    PairsAscend(ps, chosen, es);
    forall i | 0 <= i < |ps|
      ensures J.WellFormed(ps[i].element.value) && CompactPair(ps[i]) && InCanonicalForm(ps[i].element.value) {
      assert DerivesPair(ps[i], chosen[i], es[i]);
    }
  }

  lemma {:induction false} SortedDistinct(es: seq<Entry>)
    requires Ascending(es)
    ensures DistinctEntryNames(es)
  {
    forall i, j | 0 <= i < j < |es| ensures es[i].name != es[j].name {
      LessIrreflexive(es[i].name);
    }
  }

  // -------- Every canonical text --------

  /**
   * Canonical text is JSON in canonical form, and any parser that reads it back, whichever of
   * repeated members it lets win, gets the value it was printed from.
   */
  lemma {:induction false} DeriveText(v: Value, text: Text) returns (j: J.Json)
    requires WellFormed(v) && Canonicalize(v) == Some(text)
    ensures Derives(j, v, text)
    decreases v, 2
  {
    match v
    case Null => j := J.Word(NULL_TEXT);
    case Bool(b) => j := J.Word(text);
    case Num(n) => j := DeriveNumber(n);
    case Str(s) => j := DeriveString(s);
    case Arr(items) =>
      AllPrinted(items, CanonicalizeAll(items).value);
      j := DeriveArray(items, CanonicalizeAll(items).value);
    case Obj(ms) => j := DeriveObject(ms, CanonicalizeMembers(ms).value);
  }
}
