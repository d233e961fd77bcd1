/**
 * The canonical text every digest and signature rests on (RFC 8785, packages/crypto/src/jcs.ts).
 *
 * Numbers are JavaScript's safe integers, the only ones `assertSignableNumbers` lets a record
 * carry; a value `canonicalize` throws on (a non-finite number, a function, a bigint) is
 * `Unserializable`. An object's members are in insertion order and have distinct names, as
 * `Object.entries` gives them.
 */
module Jcs {
  import opened Common
  import opened JsonStrings

  datatype Value =
    | Null
    | Bool(b: bool)
    | Num(n: SafeInt)
    | Str(s: Text)
    | Arr(items: seq<Value>)
    | Obj(members: seq<Member>)
    | Undefined
    | Unserializable

  datatype Member = Member(name: Text, value: Value)

  /** A printed object member: its name and the canonical text of its value. */
  datatype Entry = Entry(name: Text, text: Text)

  const NULL_TEXT: Text := [0x6E, 0x75, 0x6C, 0x6C]
  const TRUE_TEXT: Text := [0x74, 0x72, 0x75, 0x65]
  const FALSE_TEXT: Text := [0x66, 0x61, 0x6C, 0x73, 0x65]

  ghost predicate DistinctNames(ms: seq<Member>) {
    forall i, j :: 0 <= i < j < |ms| ==> ms[i].name != ms[j].name
  }

  /** Every object inside the value has distinct member names. */
  ghost predicate WellFormed(v: Value) {
    match v
    case Arr(items) => forall i :: 0 <= i < |items| ==> WellFormed(items[i])
    case Obj(ms) => DistinctNames(ms) && forall i :: 0 <= i < |ms| ==> WellFormed(ms[i].value)
    case _ => true
  }

  // -------- Name order --------

  /** JavaScript's `a < b` on strings: lexicographic by code unit. */
  predicate Less(a: Text, b: Text) {
    if b == [] then false
    else if a == [] then true
    else a[0] < b[0] || (a[0] == b[0] && Less(a[1..], b[1..]))
  }

  /** Up to `k` the texts agree; there the first ends, or has the smaller unit. */
  ghost predicate DiffersAt(a: Text, b: Text, k: nat) {
    k <= |a| && k < |b| && a[..k] == b[..k] && (k == |a| || a[k] < b[k])
  }

  /** At the first unit in which two texts differ the smaller comes first, and a prefix before what it starts. */
  lemma {:induction false} LessAtFirstDifference(a: Text, b: Text)
    ensures Less(a, b) <==> exists k: nat :: DiffersAt(a, b, k)
  {
    if a == [] || b == [] || a[0] != b[0] {
      if Less(a, b) {
        assert DiffersAt(a, b, 0);
      }
    } else {
      LessAtFirstDifference(a[1..], b[1..]);
      if k: nat :| DiffersAt(a[1..], b[1..], k) {
        assert a[..k + 1] == [a[0]] + a[1..][..k] && b[..k + 1] == [b[0]] + b[1..][..k];
        assert DiffersAt(a, b, k + 1);
      }
      if k: nat :| DiffersAt(a, b, k) {
        assert a[..k][1..] == a[1..][..k - 1] && b[..k][1..] == b[1..][..k - 1];
        assert DiffersAt(a[1..], b[1..], k - 1);
      }
    }
  }

  lemma {:induction false} LessIrreflexive(a: Text)
    ensures !Less(a, a)
  {
    if a != [] { LessIrreflexive(a[1..]); }
  }

  lemma {:induction false} LessTotal(a: Text, b: Text)
    ensures Less(a, b) || Less(b, a) || a == b
  {
    if a != [] && b != [] && a[0] == b[0] {
      LessTotal(a[1..], b[1..]);
      assert a == [a[0]] + a[1..] && b == [b[0]] + b[1..];
    }
  }

  lemma {:induction false} LessTransitive(a: Text, b: Text, c: Text)
    requires Less(a, b) && Less(b, c)
    ensures Less(a, c)
  {
    if a != [] && a[0] == b[0] == c[0] { LessTransitive(a[1..], b[1..], c[1..]); }
  }

  ghost predicate Ascending(es: seq<Entry>) {
    forall i, j :: 0 <= i < j < |es| ==> Less(es[i].name, es[j].name)
  }

  function Insert(e: Entry, es: seq<Entry>): seq<Entry> {
    if es == [] then [e]
    else if Less(e.name, es[0].name) then [e] + es
    else [es[0]] + Insert(e, es[1..])
  }

  /** The entries in member-name order. */
  function SortEntries(es: seq<Entry>): seq<Entry> {
    if es == [] then [] else Insert(es[0], SortEntries(es[1..]))
  }

  // -------- Printing --------

  function PrintNumber(n: SafeInt): (t: Text)
    ensures t != [] && (if n < 0 then t[0] == MINUS else IsDigit(t[0]))
  {
    if n < 0 then [MINUS] + Decimal(-n) else Decimal(n)
  }

  /** `"name":text`, joined by commas. */
  function JoinEntries(es: seq<Entry>): Text {
    if es == [] then []
    else Quote(es[0].name) + [COLON] + es[0].text + (if |es| == 1 then [] else [COMMA] + JoinEntries(es[1..]))
  }

  function JoinItems(texts: seq<Text>): Text {
    if texts == [] then []
    else texts[0] + (if |texts| == 1 then [] else [COMMA] + JoinItems(texts[1..]))
  }

  /** `canonicalize`; None where it throws. */
  function Canonicalize(v: Value): Option<Text>
    decreases v, 1
  {
    match v
    case Undefined => None
    case Unserializable => None
    case Null => Some(NULL_TEXT)
    case Bool(b) => Some(if b then TRUE_TEXT else FALSE_TEXT)
    case Num(n) => Some(PrintNumber(n))
    case Str(s) => Some(Quote(s))
    case Arr(items) =>
      (match CanonicalizeAll(items)
       case None => None
       case Some(texts) => Some([OPEN_BRACKET] + JoinItems(texts) + [CLOSE_BRACKET]))
    case Obj(ms) =>
      (match CanonicalizeMembers(ms)
       case None => None
       case Some(es) => Some([OPEN_BRACE] + JoinEntries(SortEntries(es)) + [CLOSE_BRACE]))
  }

  function CanonicalizeAll(items: seq<Value>): (r: Option<seq<Text>>)
    ensures r.Some? ==> |r.value| == |items|
    decreases items, 0
  {
    if items == [] then Some([])
    else match (Canonicalize(items[0]), CanonicalizeAll(items[1..]))
      case (Some(text), Some(rest)) => Some([text] + rest)
      case _ => None
  }

  /** The defined members, each with its value printed; an undefined member is skipped. */
  function CanonicalizeMembers(ms: seq<Member>): Option<seq<Entry>>
    decreases ms, 0
  {
    if ms == [] then Some([])
    else if ms[0].value == Undefined then CanonicalizeMembers(ms[1..])
    else match (Canonicalize(ms[0].value), CanonicalizeMembers(ms[1..]))
      case (Some(text), Some(rest)) => Some([Entry(ms[0].name, text)] + rest)
      case _ => None
  }

  /** A member whose value is undefined leaves no trace. */
  lemma {:induction false} UndefinedIsLeftOut(before: seq<Member>, m: Member, after: seq<Member>)
    requires m.value == Undefined
    ensures Canonicalize(Obj(before + [m] + after)) == Canonicalize(Obj(before + after))
  {
    MembersLeaveOut(before, m, after);
  }

  lemma {:induction false} MembersLeaveOut(before: seq<Member>, m: Member, after: seq<Member>)
    requires m.value == Undefined
    ensures CanonicalizeMembers(before + [m] + after) == CanonicalizeMembers(before + after)
  {
    if before == [] {
      assert ([m] + after)[1..] == after && [] + [m] + after == [m] + after && [] + after == after;
    } else {
      var whole, rest := before + [m] + after, before + after;
      assert whole[1..] == before[1..] + [m] + after && rest[1..] == before[1..] + after;
      MembersLeaveOut(before[1..], m, after);
    }
  }

  // -------- What "the same value" means --------

  /** Equality up to the order of object members and to undefined-valued members. */
  ghost predicate Same(v: Value, w: Value)
    decreases v
  {
    match (v, w)
    case (Arr(a), Arr(b)) => |a| == |b| && forall i :: 0 <= i < |a| ==> Same(a[i], b[i])
    case (Obj(a), Obj(b)) =>
      && (forall m :: m in a && m.value != Undefined ==> exists n :: n in b && Agree(m, n))
      && (forall n :: n in b && n.value != Undefined ==> exists m :: m in a && Agree(m, n))
    case _ => v == w
  }

  ghost predicate Agree(m: Member, n: Member)
    decreases m
  {
    m.name == n.name && m.value != Undefined && n.value != Undefined && Same(m.value, n.value)
  }

  // -------- Sorting --------

  lemma {:induction false} InsertSorts(e: Entry, es: seq<Entry>)
    requires Ascending(es)
    requires forall x :: x in es ==> x.name != e.name
    ensures Ascending(Insert(e, es))
    ensures forall x :: x in Insert(e, es) <==> x == e || x in es
    ensures |Insert(e, es)| == |es| + 1
  {
    if es != [] {
      var r := Insert(e, es);
      if Less(e.name, es[0].name) {
        forall i, j | 0 <= i < j < |r| ensures Less(r[i].name, r[j].name) {
          if i == 0 && j > 1 { LessTransitive(e.name, es[0].name, es[j - 1].name); }
        }
      } else {
        InsertSorts(e, es[1..]);
        LessTotal(e.name, es[0].name);
        var tail := Insert(e, es[1..]);
        forall i, j | 0 <= i < j < |r| ensures Less(r[i].name, r[j].name) {
          if i == 0 {
            assert tail[j - 1] in tail;
            assert tail[j - 1] == e || tail[j - 1] in es[1..];
          }
        }
        assert es == [es[0]] + es[1..];
      }
    }
  }

  ghost predicate DistinctEntryNames(es: seq<Entry>) {
    forall i, j :: 0 <= i < j < |es| ==> es[i].name != es[j].name
  }

  lemma {:induction false} SortSorts(es: seq<Entry>)
    requires DistinctEntryNames(es)
    ensures Ascending(SortEntries(es))
    ensures forall x :: x in SortEntries(es) <==> x in es
    ensures |SortEntries(es)| == |es|
  {
    if es != [] {
      SortSorts(es[1..]);
      InsertSorts(es[0], SortEntries(es[1..]));
      assert es == [es[0]] + es[1..];
    }
  }

  /** Two ascending lists with the same entries are the same list. */
  lemma {:induction false} AscendingUnique(a: seq<Entry>, b: seq<Entry>)
    requires Ascending(a) && Ascending(b)
    requires forall x :: x in a <==> x in b
    ensures a == b
  {
    if b != [] { assert b[0] in b; }
    if a != [] {
      assert a[0] in a;
      var i :| 0 <= i < |a| && a[i] == b[0];
      var j :| 0 <= j < |b| && b[j] == a[0];
      if i > 0 && j > 0 {
        LessTransitive(a[0].name, b[0].name, a[0].name);
        LessIrreflexive(a[0].name);
      }
      assert a[0] == b[0];
      forall x ensures x in a[1..] <==> x in b[1..] {
        LessIrreflexive(a[0].name);
        assert x in a <==> x == a[0] || x in a[1..];
        assert x in b <==> x == b[0] || x in b[1..];
      }
      AscendingUnique(a[1..], b[1..]);
      assert a == [a[0]] + a[1..] && b == [b[0]] + b[1..];
    }
  }

  // -------- The printed members of an object --------

  /** Entry `e` is member `m`, printed. */
  ghost predicate Prints(m: Member, e: Entry) {
    m.value != Undefined && m.name == e.name && Canonicalize(m.value) == Some(e.text)
  }

  ghost predicate PrintedIn(ms: seq<Member>, e: Entry) {
    exists m :: m in ms && Prints(m, e)
  }

  ghost predicate Appears(m: Member, es: seq<Entry>) {
    exists e :: e in es && Prints(m, e)
  }

  ghost predicate PrintsAll(ms: seq<Member>, es: seq<Entry>) {
    && (forall e :: e in es ==> PrintedIn(ms, e))
    && (forall m :: m in ms && m.value != Undefined ==> Appears(m, es))
  }

  lemma {:induction false} NamesAMember(ms: seq<Member>, m: Member, n: Member)
    requires DistinctNames(ms) && m in ms && n in ms && m.name == n.name
    ensures m == n
  {}

  lemma {:induction false} MembersPrinted(ms: seq<Member>, es: seq<Entry>)
    requires DistinctNames(ms) && CanonicalizeMembers(ms) == Some(es)
    ensures PrintsAll(ms, es) && DistinctEntryNames(es)
  {
    if ms != [] {
      assert ms == [ms[0]] + ms[1..];
      if ms[0].value == Undefined {
        MembersPrinted(ms[1..], es);
        MembersPrintedSkip(ms, es);
      } else {
        MembersPrinted(ms[1..], es[1..]);
        MembersPrintedCons(ms, es);
      }
    }
  }

  lemma {:induction false} MembersPrintedSkip(ms: seq<Member>, es: seq<Entry>)
    requires ms != [] && ms[0].value == Undefined && PrintsAll(ms[1..], es)
    ensures PrintsAll(ms, es)
  {
    forall e | e in es ensures PrintedIn(ms, e) {
      assert PrintedIn(ms[1..], e);
    }
    forall m | m in ms && m.value != Undefined ensures Appears(m, es) {
      assert m in ms[1..];
    }
  }

  lemma {:induction false} MembersPrintedCons(ms: seq<Member>, es: seq<Entry>)
    requires ms != [] && es != [] && DistinctNames(ms)
    requires Prints(ms[0], es[0]) && PrintsAll(ms[1..], es[1..]) && DistinctEntryNames(es[1..])
    ensures PrintsAll(ms, es) && DistinctEntryNames(es)
  {
    forall e | e in es ensures PrintedIn(ms, e) {
      if e in es[1..] {
        assert PrintedIn(ms[1..], e);
      } else {
        assert ms[0] in ms && e == es[0];
      }
    }
    forall m | m in ms && m.value != Undefined ensures Appears(m, es) {
      if m in ms[1..] {
        assert Appears(m, es[1..]);
      } else {
        assert es[0] in es && m == ms[0];
      }
    }
    forall j, k | 0 <= j < k < |es| ensures es[j].name != es[k].name {
      assert es[k] == es[1..][k - 1] && es[k] in es[1..];
      assert PrintedIn(ms[1..], es[k]);
      if j > 0 { assert es[j] == es[1..][j - 1]; }
    }
  }

  // -------- Prefix freedom: canonical text followed by a delimiter is read one way --------

  /** What may follow a printed value: the end, or a character no number continues with. */
  predicate Stops(rest: Text) {
    rest == [] || !IsDigit(rest[0])
  }

  /** A run of digits followed by a delimiter is no longer than another reading of the same text. */
  lemma {:induction false} DigitsNotLonger(d1: Text, d2: Text, r1: Text, r2: Text)
    requires d1 + r1 == d2 + r2 && Stops(r1)
    requires forall i :: 0 <= i < |d2| ==> IsDigit(d2[i])
    ensures |d2| <= |d1|
  {
    var t := d1 + r1;
    assert t[..|d2|] == d2 by { assert t == d2 + r2; }
    if |d1| < |t| { assert t[|d1|] == r1[0]; }
  }

  lemma {:induction false} DigitsPrefixFree(d1: Text, d2: Text, r1: Text, r2: Text)
    requires d1 + r1 == d2 + r2 && Stops(r1) && Stops(r2)
    requires forall i :: 0 <= i < |d1| ==> IsDigit(d1[i])
    requires forall i :: 0 <= i < |d2| ==> IsDigit(d2[i])
    ensures d1 == d2 && r1 == r2
  {
    DigitsNotLonger(d1, d2, r1, r2);
    DigitsNotLonger(d2, d1, r2, r1);
    var t := d1 + r1;
    assert d1 == t[..|d1|] && d2 == t[..|d1|];
    assert r1 == t[|d1|..] && r2 == t[|d1|..];
  }

  lemma {:induction false} CancelPrefix(p: Text, a: Text, b: Text)
    requires p + a == p + b
    ensures a == b
  {
    assert a == (p + a)[|p|..];
    assert b == (p + b)[|p|..];
  }

  lemma {:induction false} NumberPrefixFree(m: SafeInt, n: SafeInt, r1: Text, r2: Text)
    requires PrintNumber(m) + r1 == PrintNumber(n) + r2 && Stops(r1) && Stops(r2)
    ensures m == n && r1 == r2
  {
    assert (PrintNumber(m) + r1)[0] == PrintNumber(m)[0];
    assert (PrintNumber(n) + r2)[0] == PrintNumber(n)[0];
    if m < 0 {
      ConcatAssociative([MINUS], Decimal(-m), r1);
      ConcatAssociative([MINUS], Decimal(-n), r2);
      CancelPrefix([MINUS], Decimal(-m) + r1, Decimal(-n) + r2);
      DigitsPrefixFree(Decimal(-m), Decimal(-n), r1, r2);
      DecimalInjective(-m, -n);
    } else {
      DigitsPrefixFree(Decimal(m), Decimal(n), r1, r2);
      DecimalInjective(m, n);
    }
  }

  /** The first character of a printed value tells which kind of value it is. */
  lemma {:induction false} FirstCharacter(v: Value, t: Text)
    requires Canonicalize(v) == Some(t)
    ensures t != []
    ensures v.Null? <==> t[0] == LOWER_N
    ensures v == Bool(true) <==> t[0] == LOWER_T
    ensures v == Bool(false) <==> t[0] == LOWER_F
    ensures v.Num? <==> IsDigit(t[0]) || t[0] == MINUS
    ensures v.Str? <==> t[0] == QUOTE
    ensures v.Arr? <==> t[0] == OPEN_BRACKET
    ensures v.Obj? <==> t[0] == OPEN_BRACE
    ensures t[0] != CLOSE_BRACKET && t[0] != CLOSE_BRACE
  {}

  ghost predicate PrintsItems(items: seq<Value>, texts: seq<Text>) {
    |items| == |texts| && forall i :: 0 <= i < |items| ==> Canonicalize(items[i]) == Some(texts[i])
  }

  lemma {:induction false} AllPrinted(items: seq<Value>, texts: seq<Text>)
    requires CanonicalizeAll(items) == Some(texts)
    ensures PrintsItems(items, texts)
  {
    if items != [] {
      AllPrinted(items[1..], texts[1..]);
      forall i | 0 <= i < |items| ensures Canonicalize(items[i]) == Some(texts[i]) {
        if i > 0 { assert items[i] == items[1..][i - 1] && texts[i] == texts[1..][i - 1]; }
      }
    }
  }

  /** What follows item `texts[0]` inside a bracketed list ended by `close`. */
  function AfterItem(texts: seq<Text>, end: Text): Text
    requires texts != []
  {
    if |texts| == 1 then end else [COMMA] + (JoinItems(texts[1..]) + end)
  }

  lemma {:induction false} JoinItemsStep(texts: seq<Text>, end: Text)
    requires texts != []
    ensures JoinItems(texts) + end == texts[0] + AfterItem(texts, end)
  {
    if |texts| > 1 {
      ConcatAssociative(texts[0], [COMMA] + JoinItems(texts[1..]), end);
      ConcatAssociative([COMMA], JoinItems(texts[1..]), end);
    } else {
      ConcatAssociative(texts[0], [], end);
      assert [] + end == end;
    }
  }

  function AfterEntry(es: seq<Entry>, end: Text): Text
    requires es != []
  {
    if |es| == 1 then end else [COMMA] + (JoinEntries(es[1..]) + end)
  }

  lemma {:induction false} JoinEntriesStep(es: seq<Entry>, end: Text)
    requires es != []
    ensures JoinEntries(es) + end == Quote(es[0].name) + ([COLON] + (es[0].text + AfterEntry(es, end)))
  {
    var tail := if |es| == 1 then [] else [COMMA] + JoinEntries(es[1..]);
    assert AfterEntry(es, end) == tail + end;
    var name, text := Quote(es[0].name), es[0].text;
    assert JoinEntries(es) == name + [COLON] + text + tail;
    Concat5(name, [COLON], text, tail, end);
  }

  lemma {:induction false} Concat5(a: Text, b: Text, c: Text, d: Text, e: Text)
    ensures a + b + c + d + e == a + (b + (c + (d + e)))
  {}

  lemma {:induction false} PrefixFree(v: Value, w: Value, t1: Text, t2: Text, r1: Text, r2: Text)
    requires WellFormed(v) && WellFormed(w)
    requires Canonicalize(v) == Some(t1) && Canonicalize(w) == Some(t2)
    requires t1 + r1 == t2 + r2 && Stops(r1) && Stops(r2)
    ensures Same(v, w) && t1 == t2 && r1 == r2
    decreases v, 1
  {
    FirstCharacter(v, t1);
    FirstCharacter(w, t2);
    assert (t1 + r1)[0] == t1[0] && (t2 + r2)[0] == t2[0];
    match v {
      case Null => CancelPrefix(t1, r1, r2);
      case Bool(_) => CancelPrefix(t1, r1, r2);
      case Num(n) => NumberPrefixFree(n, w.n, r1, r2);
      case Str(s) => QuotePrefixFree(s, w.s, r1, r2);
      case Arr(items) =>
        var a, b := CanonicalizeAll(items).value, CanonicalizeAll(w.items).value;
        AllPrinted(items, a);
        AllPrinted(w.items, b);
        BracketRegroup(OPEN_BRACKET, JoinItems(a), JoinItems(b), CLOSE_BRACKET, r1, r2);
        ItemsPrefixFree(items, w.items, a, b, r1, r2);
      case Obj(ms) =>
        ObjectPrefixFree(ms, w.members, r1, r2);
    }
  }

  lemma {:induction false} BracketRegroup(open: CodeUnit, a: Text, b: Text, close: CodeUnit, r1: Text, r2: Text)
    requires [open] + a + [close] + r1 == [open] + b + [close] + r2
    ensures a + ([close] + r1) == b + ([close] + r2)
  {
    assert [open] + a + [close] + r1 == [open] + (a + ([close] + r1));
    assert [open] + b + [close] + r2 == [open] + (b + ([close] + r2));
    CancelPrefix([open], a + ([close] + r1), b + ([close] + r2));
  }

  lemma {:induction false} ItemsPrefixFree(x: seq<Value>, y: seq<Value>, a: seq<Text>, b: seq<Text>, r1: Text, r2: Text)
    requires (forall i :: 0 <= i < |x| ==> WellFormed(x[i])) && (forall i :: 0 <= i < |y| ==> WellFormed(y[i]))
    requires PrintsItems(x, a) && PrintsItems(y, b)
    requires JoinItems(a) + ([CLOSE_BRACKET] + r1) == JoinItems(b) + ([CLOSE_BRACKET] + r2)
    ensures |x| == |y| && a == b && r1 == r2
    ensures forall i :: 0 <= i < |x| ==> Same(x[i], y[i])
    decreases x, 0
  {
    var end1, end2 := [CLOSE_BRACKET] + r1, [CLOSE_BRACKET] + r2;
    if x == [] || y == [] {
      EmptyItems(x, y, a, b, r1, r2);
    } else {
      JoinItemsStep(a, end1);
      JoinItemsStep(b, end2);
      PrefixFree(x[0], y[0], a[0], b[0], AfterItem(a, end1), AfterItem(b, end2));
      assert AfterItem(a, end1)[0] == (if |a| == 1 then CLOSE_BRACKET else COMMA);
      assert AfterItem(b, end2)[0] == (if |b| == 1 then CLOSE_BRACKET else COMMA);
      if |a| == 1 {
        CancelPrefix([CLOSE_BRACKET], r1, r2);
        assert a == b;
      } else {
        CancelPrefix([COMMA], JoinItems(a[1..]) + end1, JoinItems(b[1..]) + end2);
        ItemsPrefixFree(x[1..], y[1..], a[1..], b[1..], r1, r2);
        assert a == [a[0]] + a[1..] && b == [b[0]] + b[1..];
        forall i | 0 <= i < |x| ensures Same(x[i], y[i]) {
          if i > 0 { assert x[i] == x[1..][i - 1] && y[i] == y[1..][i - 1]; }
        }
      }
    }
  }

  /** A bracketed list opens with its close bracket exactly when it is empty. */
  lemma {:induction false} ItemsStart(x: seq<Value>, a: seq<Text>, rest: Text)
    requires PrintsItems(x, a)
    ensures var t := JoinItems(a) + ([CLOSE_BRACKET] + rest); t[0] == CLOSE_BRACKET <==> x == []
    ensures x == [] ==> JoinItems(a) + ([CLOSE_BRACKET] + rest) == [CLOSE_BRACKET] + rest
  {
    if x != [] {
      FirstCharacter(x[0], a[0]);
      JoinItemsStep(a, [CLOSE_BRACKET] + rest);
    }
  }

  lemma {:induction false} EmptyItems(x: seq<Value>, y: seq<Value>, a: seq<Text>, b: seq<Text>, r1: Text, r2: Text)
    requires PrintsItems(x, a) && PrintsItems(y, b) && (x == [] || y == [])
    requires JoinItems(a) + ([CLOSE_BRACKET] + r1) == JoinItems(b) + ([CLOSE_BRACKET] + r2)
    ensures x == [] && y == [] && r1 == r2
  {
    ItemsStart(x, a, r1);
    ItemsStart(y, b, r2);
    CancelPrefix([CLOSE_BRACKET], r1, r2);
  }

  lemma {:induction false} ObjectPrefixFree(x: seq<Member>, y: seq<Member>, r1: Text, r2: Text)
    requires WellFormed(Obj(x)) && WellFormed(Obj(y))
    requires Canonicalize(Obj(x)).Some? && Canonicalize(Obj(y)).Some?
    requires Canonicalize(Obj(x)).value + r1 == Canonicalize(Obj(y)).value + r2
    ensures Same(Obj(x), Obj(y)) && Canonicalize(Obj(x)) == Canonicalize(Obj(y)) && r1 == r2
    decreases x, 1
  {
    var a, b := CanonicalizeMembers(x).value, CanonicalizeMembers(y).value;
    MembersPrinted(x, a);
    MembersPrinted(y, b);
    SortSorts(a);
    SortSorts(b);
    var sa, sb := SortEntries(a), SortEntries(b);
    BracketRegroup(OPEN_BRACE, JoinEntries(sa), JoinEntries(sb), CLOSE_BRACE, r1, r2);
    EntriesPrefixFree(x, y, sa, sb, r1, r2);
    SameFromEntries(x, y, a, b);
  }

  /** Some member of each object prints as `e`, and their values are the same. */
  ghost predicate Paired(x: seq<Member>, y: seq<Member>, e: Entry) {
    exists m, n :: m in x && n in y && Prints(m, e) && Prints(n, e) && Agree(m, n)
  }

  lemma {:induction false} SameFromEntries(x: seq<Member>, y: seq<Member>, a: seq<Entry>, b: seq<Entry>)
    requires DistinctNames(x) && DistinctNames(y) && PrintsAll(x, a) && PrintsAll(y, b)
    requires forall e :: e in a ==> Paired(x, y, e)
    requires forall e :: e in b ==> Paired(x, y, e)
    ensures Same(Obj(x), Obj(y))
  {
    forall m | m in x && m.value != Undefined ensures exists n :: n in y && Agree(m, n) {
      assert Appears(m, a);
      var e :| e in a && Prints(m, e);
      assert Paired(x, y, e);
      var m', n :| m' in x && n in y && Prints(m', e) && Prints(n, e) && Agree(m', n);
      NamesAMember(x, m, m');
    }
    forall n | n in y && n.value != Undefined ensures exists m :: m in x && Agree(m, n) {
      assert Appears(n, b);
      var e :| e in b && Prints(n, e);
      assert Paired(x, y, e);
      var m, n' :| m in x && n' in y && Prints(m, e) && Prints(n', e) && Agree(m, n');
      NamesAMember(y, n, n');
    }
  }

  /** Two printed lists that agree name the same first member, and agree after the name. */
  lemma {:induction false} FirstEntryAgrees(a: seq<Entry>, b: seq<Entry>, end1: Text, end2: Text)
    requires a != [] && b != [] && JoinEntries(a) + end1 == JoinEntries(b) + end2
    ensures a[0].name == b[0].name
    ensures a[0].text + AfterEntry(a, end1) == b[0].text + AfterEntry(b, end2)
  {
    var after1, after2 := a[0].text + AfterEntry(a, end1), b[0].text + AfterEntry(b, end2);
    JoinEntriesStep(a, end1);
    JoinEntriesStep(b, end2);
    QuotePrefixFree(a[0].name, b[0].name, [COLON] + after1, [COLON] + after2);
    CancelPrefix([COLON], after1, after2);
  }

  lemma {:induction false} RestOfEntriesAgrees(a: seq<Entry>, b: seq<Entry>, r1: Text, r2: Text)
    requires a != [] && b != []
    requires AfterEntry(a, [CLOSE_BRACE] + r1) == AfterEntry(b, [CLOSE_BRACE] + r2)
    ensures JoinEntries(a[1..]) + ([CLOSE_BRACE] + r1) == JoinEntries(b[1..]) + ([CLOSE_BRACE] + r2)
  {
    var end1, end2 := [CLOSE_BRACE] + r1, [CLOSE_BRACE] + r2;
    assert AfterEntry(a, end1)[0] == (if |a| == 1 then CLOSE_BRACE else COMMA);
    assert AfterEntry(b, end2)[0] == (if |b| == 1 then CLOSE_BRACE else COMMA);
    if |a| == 1 {
      assert a[1..] == [] && b[1..] == [];
    } else {
      CancelPrefix([COMMA], JoinEntries(a[1..]) + end1, JoinEntries(b[1..]) + end2);
    }
  }

  lemma {:induction false} EntriesPrefixFree(x: seq<Member>, y: seq<Member>, a: seq<Entry>,
      b: seq<Entry>, r1: Text, r2: Text)
    requires (forall i :: 0 <= i < |x| ==> WellFormed(x[i].value))
      && (forall i :: 0 <= i < |y| ==> WellFormed(y[i].value))
    requires forall e :: e in a ==> PrintedIn(x, e)
    requires forall e :: e in b ==> PrintedIn(y, e)
    requires JoinEntries(a) + ([CLOSE_BRACE] + r1) == JoinEntries(b) + ([CLOSE_BRACE] + r2)
    ensures a == b && r1 == r2
    ensures forall e :: e in a ==> Paired(x, y, e)
    decreases x, 0, |a|
  {
    var end1, end2 := [CLOSE_BRACE] + r1, [CLOSE_BRACE] + r2;
    if a == [] || b == [] {
      EmptyEntries(a, b, r1, r2);
    } else {
      assert a == [a[0]] + a[1..] && b == [b[0]] + b[1..];
      assert PrintedIn(x, a[0]) && PrintedIn(y, b[0]);
      var m :| m in x && Prints(m, a[0]);
      var n :| n in y && Prints(n, b[0]);
      FirstEntryAgrees(a, b, end1, end2);
      PrefixFree(m.value, n.value, a[0].text, b[0].text, AfterEntry(a, end1), AfterEntry(b, end2));
      assert Agree(m, n) && Paired(x, y, a[0]);
      RestOfEntriesAgrees(a, b, r1, r2);
      EntriesPrefixFree(x, y, a[1..], b[1..], r1, r2);
    }
  }

  lemma {:induction false} EntriesStart(a: seq<Entry>, rest: Text)
    ensures var t := JoinEntries(a) + ([CLOSE_BRACE] + rest); t[0] == CLOSE_BRACE <==> a == []
    ensures a == [] ==> JoinEntries(a) + ([CLOSE_BRACE] + rest) == [CLOSE_BRACE] + rest
  {
    if a != [] { JoinEntriesStep(a, [CLOSE_BRACE] + rest); }
  }

  lemma {:induction false} EmptyEntries(a: seq<Entry>, b: seq<Entry>, r1: Text, r2: Text)
    requires a == [] || b == []
    requires JoinEntries(a) + ([CLOSE_BRACE] + r1) == JoinEntries(b) + ([CLOSE_BRACE] + r2)
    ensures a == [] && b == [] && r1 == r2
  {
    EntriesStart(a, r1);
    EntriesStart(b, r2);
    CancelPrefix([CLOSE_BRACE], r1, r2);
  }

  // -------- The converse: values that are the same print the same --------

  /** Members of the same name whose values have the same text. */
  ghost predicate Twins(m: Member, n: Member) {
    m.name == n.name && n.value != Undefined && Canonicalize(m.value) == Canonicalize(n.value)
  }

  ghost predicate HasTwin(m: Member, ms: seq<Member>) {
    exists n :: n in ms && Twins(m, n)
  }

  lemma {:induction false} EntriesIncluded(x: seq<Member>, y: seq<Member>, a: seq<Entry>, b: seq<Entry>)
    requires PrintsAll(x, a) && PrintsAll(y, b)
    requires forall m :: m in x && m.value != Undefined ==> HasTwin(m, y)
    ensures forall e :: e in a ==> e in b
  {
    forall e | e in a ensures e in b {
      assert PrintedIn(x, e);
      var m :| m in x && Prints(m, e);
      assert HasTwin(m, y);
      var n :| n in y && Twins(m, n);
      assert Appears(n, b);
      var e' :| e' in b && Prints(n, e');
      assert e == e';
    }
  }

  /** Values that are the same print the same. */
  lemma {:induction false} SamePrints(v: Value, w: Value)
    requires WellFormed(v) && WellFormed(w) && Same(v, w)
    requires Canonicalize(v).Some? && Canonicalize(w).Some?
    ensures Canonicalize(v) == Canonicalize(w)
    decreases v
  {
    match v {
      case Arr(items) =>
        var a, b := CanonicalizeAll(items).value, CanonicalizeAll(w.items).value;
        AllPrinted(items, a);
        AllPrinted(w.items, b);
        forall i | 0 <= i < |items| ensures a[i] == b[i] {
          SamePrints(items[i], w.items[i]);
        }
        assert a == b;
      case Obj(x) =>
        var y := w.members;
        var a, b := CanonicalizeMembers(x).value, CanonicalizeMembers(y).value;
        MembersPrinted(x, a);
        MembersPrinted(y, b);
        forall m | m in x && m.value != Undefined ensures HasTwin(m, y) {
          var n :| n in y && Agree(m, n);
          assert Appears(m, a) && Appears(n, b);
          SamePrints(m.value, n.value);
          assert Twins(m, n);
        }
        forall n | n in y && n.value != Undefined ensures HasTwin(n, x) {
          var m :| m in x && Agree(m, n);
          assert Appears(m, a) && Appears(n, b);
          SamePrints(m.value, n.value);
          assert Twins(n, m);
        }
        EntriesIncluded(x, y, a, b);
        EntriesIncluded(y, x, b, a);
        SortSorts(a);
        SortSorts(b);
        AscendingUnique(SortEntries(a), SortEntries(b));
      case _ =>
    }
  }

  /**
   * Canonicalization is injective and order-blind: two values it can print have the same text
   * exactly when they are equal up to member order and undefined-valued members.
   */
  lemma {:induction false} CanonicalTextIffSame(v: Value, w: Value)
    requires WellFormed(v) && WellFormed(w)
    requires Canonicalize(v).Some? && Canonicalize(w).Some?
    ensures Canonicalize(v) == Canonicalize(w) <==> Same(v, w)
  {
    if Canonicalize(v) == Canonicalize(w) {
      PrefixFree(v, w, Canonicalize(v).value, Canonicalize(w).value, [], []);
    }
    if Same(v, w) {
      SamePrints(v, w);
    }
  }

  /** Nothing `canonicalize` refuses is hidden inside: no undefined array item, no unserializable part. */
  ghost predicate Printable(v: Value)
    decreases v
  {
    match v
    case Undefined => false
    case Unserializable => false
    case Arr(items) => forall i :: 0 <= i < |items| ==> Printable(items[i])
    case Obj(ms) => forall i :: 0 <= i < |ms| ==> ms[i].value == Undefined || Printable(ms[i].value)
    case _ => true
  }

  /** `canonicalize` throws exactly on values with an unprintable part in a printed position. */
  lemma {:induction false} ThrowsIffUnprintable(v: Value)
    ensures Canonicalize(v).Some? <==> Printable(v)
    decreases v, 1
  {
    match v {
      case Arr(items) => AllThrowsIff(items);
      case Obj(ms) => MembersThrowIff(ms);
      case _ =>
    }
  }

  lemma {:induction false} AllThrowsIff(items: seq<Value>)
    ensures CanonicalizeAll(items).Some? <==> forall i :: 0 <= i < |items| ==> Printable(items[i])
    decreases items, 0
  {
    if items != [] {
      ThrowsIffUnprintable(items[0]);
      AllThrowsIff(items[1..]);
      assert forall i :: 0 < i < |items| ==> items[i] == items[1..][i - 1];
      assert (forall i :: 0 <= i < |items[1..]| ==> Printable(items[1..][i])) ==>
        forall i :: 0 < i < |items| ==> Printable(items[i]);
    }
  }

  lemma {:induction false} MembersThrowIff(ms: seq<Member>)
    ensures CanonicalizeMembers(ms).Some? <==>
      forall i :: 0 <= i < |ms| ==> ms[i].value == Undefined || Printable(ms[i].value)
    decreases ms, 0
  {
    if ms != [] {
      if ms[0].value != Undefined { ThrowsIffUnprintable(ms[0].value); }
      MembersThrowIff(ms[1..]);
      assert forall i :: 0 < i < |ms| ==> ms[i] == ms[1..][i - 1];
      assert (forall i :: 0 <= i < |ms[1..]| ==> ms[1..][i].value == Undefined || Printable(ms[1..][i].value))
          ==> forall i :: 0 < i < |ms| ==> ms[i].value == Undefined || Printable(ms[i].value);
    }
  }
}
