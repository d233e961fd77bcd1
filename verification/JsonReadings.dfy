/**
 * A JSON text has one reading: however the grammar derives it, it denotes the same value
 * (packages/protocol/src/index.ts:1005-1009).
 */
module JsonReadings {
  import opened Common
  import opened JsonTexts
  import opened JsonScanner

  // -------- Where each stretch ends --------

  /** What may follow an element: the end, or a comma or a closing bracket. */
  predicate Closes(rest: Text) {
    rest == [] || rest[0] == COMMA || rest[0] == CLOSE_BRACKET || rest[0] == CLOSE_BRACE
  }

  /** What may follow a value: the same, after whitespace. */
  predicate Delimits(rest: Text) {
    Closes(rest) || IsSpace(rest[0])
  }

  predicate StartsDark(t: Text) {
    t == [] || !IsSpace(t[0])
  }

  /** A stretch of one kind is no longer than another, where what follows it is not of that kind. */
  lemma {:induction false} NotLonger(t1: Text, t2: Text, r1: Text, r2: Text, kind: CodeUnit -> bool)
    requires t1 + r1 == t2 + r2 && (r1 == [] || !kind(r1[0]))
    requires forall i :: 0 <= i < |t2| ==> kind(t2[i])
    ensures |t2| <= |t1|
  {
    var t := t1 + r1;
    assert t[..|t2|] == t2 by { assert t == t2 + r2; }
    if |t1| < |t| { assert t[|t1|] == r1[0]; }
  }

  lemma {:induction false} StretchEnds(t1: Text, t2: Text, r1: Text, r2: Text, kind: CodeUnit -> bool)
    requires t1 + r1 == t2 + r2 && (r1 == [] || !kind(r1[0])) && (r2 == [] || !kind(r2[0]))
    requires forall i :: 0 <= i < |t1| ==> kind(t1[i])
    requires forall i :: 0 <= i < |t2| ==> kind(t2[i])
    ensures t1 == t2 && r1 == r2
  {
    NotLonger(t1, t2, r1, r2, kind);
    NotLonger(t2, t1, r2, r1, kind);
    var t := t1 + r1;
    assert t1 == t[..|t1|] && t2 == t[..|t1|];
    assert r1 == t[|t1|..] && r2 == t[|t1|..];
  }

  /** Whitespace ends where something else begins. */
  lemma {:induction false} SpaceEnds(s1: Text, t1: Text, s2: Text, t2: Text)
    requires AllSpace(s1) && AllSpace(s2) && StartsDark(t1) && StartsDark(t2) && s1 + t1 == s2 + t2
    ensures s1 == s2 && t1 == t2
  {
    StretchEnds(s1, s2, t1, t2, (c: CodeUnit) => IsSpace(c));
  }

  predicate IsNumeric(c: CodeUnit) {
    IsDigit(c) || c == MINUS || c == PLUS || c == DOT || c == LOWER_E || c == UPPER_E
  }

  predicate AllNumeric(t: Text) {
    forall i :: 0 <= i < |t| ==> IsNumeric(t[i])
  }

  /** A number ends where it is delimited. */
  lemma {:induction false} NumberEnds(t1: Text, t2: Text, r1: Text, r2: Text)
    requires AllNumeric(t1) && AllNumeric(t2) && Delimits(r1) && Delimits(r2) && t1 + r1 == t2 + r2
    ensures t1 == t2 && r1 == r2
  {
    StretchEnds(t1, t2, r1, r2, (c: CodeUnit) => IsNumeric(c));
  }

  lemma {:induction false} NumberIsNumeric(minus: bool, whole: Text, fraction: Text, exponent: Text)
    requires DigitRun(whole) && IsFraction(fraction) && IsExponent(exponent)
    ensures AllNumeric((if minus then [MINUS] else []) + whole + fraction + exponent)
  {
    if exponent != [] {
      ExponentIsNumeric(exponent);
    }
    assert fraction != [] ==> fraction == [DOT] + fraction[1..];
  }

  lemma {:induction false} ExponentIsNumeric(exponent: Text)
    requires exponent != [] && IsExponent(exponent)
    ensures AllNumeric(exponent)
  {
    var signed := exponent[1] == PLUS || exponent[1] == MINUS;
    assert exponent == exponent[..if signed then 2 else 1] + (if signed then exponent[2..] else exponent[1..]);
  }

  /** A string ends at its closing quote. */
  lemma {:induction false} StringEnds(s1: Text, s2: Text, r1: Text, r2: Text)
    requires IsLiteral(s1) && IsLiteral(s2) && s1 + r1 == s2 + r2
    ensures s1 == s2 && r1 == r2
  {
    LiteralEnds(s1, r1);
    LiteralEnds(s2, r2);
  }

  // -------- Values --------

  /** The two are read alike, by either rule for repeated names. */
  ghost predicate ReadAlike(v: Json, w: Json)
    requires WellFormed(v) && WellFormed(w)
  {
    Resolve(v, FirstWins) == Resolve(w, FirstWins) && Resolve(v, LastWins) == Resolve(w, LastWins)
  }

  /** The first character tells the kind of value, and is no whitespace and closes nothing. */
  lemma {:induction false} FirstOf(v: Json)
    requires WellFormed(v)
    ensures var t := Render(v);
      && t != [] && !IsSpace(t[0]) && t[0] != CLOSE_BRACKET && t[0] != CLOSE_BRACE
      && (v.Word? <==> t[0] == LOWER_T || t[0] == LOWER_F || t[0] == LOWER_N)
      && (v.Number? <==> IsDigit(t[0]) || t[0] == MINUS)
      && (v.String? <==> t[0] == QUOTE)
      && (v.Array? <==> t[0] == OPEN_BRACKET)
      && (v.Object? <==> t[0] == OPEN_BRACE)
  {
    if v.Word? {
      assert Ascii("true")[0] == LOWER_T && Ascii("false")[0] == LOWER_F && Ascii("null")[0] == LOWER_N;
    }
  }

  lemma {:induction false} FirstStays(t: Text, rest: Text)
    requires t != []
    ensures (t + rest)[0] == t[0] && t + rest != []
  {}

  lemma {:induction false} Uncons(c: CodeUnit, t1: Text, t2: Text)
    requires [c] + t1 == [c] + t2
    ensures t1 == t2
  {
    assert t1 == ([c] + t1)[1..] && t2 == ([c] + t2)[1..];
  }

  lemma {:induction false} WordEnds(v: Json, w: Json, r1: Text, r2: Text)
    requires v.Word? && w.Word? && WellFormed(v) && WellFormed(w) && Render(v) + r1 == Render(w) + r2
    ensures v == w && r1 == r2
  {
    FirstStays(Render(v), r1);
    FirstStays(Render(w), r2);
    assert Ascii("true")[0] == LOWER_T && Ascii("false")[0] == LOWER_F && Ascii("null")[0] == LOWER_N;
    assert v.word == w.word;
    assert r1 == (v.word + r1)[|v.word|..] && r2 == (w.word + r2)[|w.word|..];
  }

  lemma {:induction false} Regroup(open: CodeUnit, a: Text, close: CodeUnit, rest: Text)
    ensures [open] + a + [close] + rest == [open] + (a + ([close] + rest))
  {}

  lemma {:induction false} Regroup3(a: Text, b: Text, c: Text, rest: Text)
    ensures a + b + c + rest == a + (b + (c + rest))
  {}

  /** What follows the first item of a list that ends in `end`. */
  function AfterFirst(tail: Text, more: bool, end: Text): Text {
    if more then [COMMA] + (tail + end) else end
  }

  lemma {:induction false} Listed(first: Text, tail: Text, more: bool, end: Text)
    ensures first + (if more then [COMMA] + tail else []) + end == first + AfterFirst(tail, more, end)
  {
    if more {
      assert first + ([COMMA] + tail) + end == first + ([COMMA] + (tail + end));
    } else {
      assert first + [] == first;
    }
  }

  lemma {:induction false} ItemsUnfold(items: seq<Element>, end: Text)
    requires items != []
    ensures RenderItems(items) + end == RenderElement(items[0]) + AfterFirst(RenderItems(items[1..]), |items| > 1, end)
  {
    Listed(RenderElement(items[0]), RenderItems(items[1..]), |items| > 1, end);
  }

  lemma {:induction false} PairsUnfold(members: seq<Pair>, end: Text)
    requires members != []
    ensures RenderPairs(members) + end ==
      RenderPair(members[0]) + AfterFirst(RenderPairs(members[1..]), |members| > 1, end)
  {
    Listed(RenderPair(members[0]), RenderPairs(members[1..]), |members| > 1, end);
  }

  lemma {:induction false} PairUnfold(p: Pair, end: Text)
    ensures RenderPair(p) + end == p.before + (p.name + (p.between + ([COLON] + (RenderElement(p.element) + end))))
  {}

  lemma {:induction false} NumbersEnd(v: Json, w: Json, r1: Text, r2: Text)
    requires v.Number? && w.Number? && WellFormed(v) && WellFormed(w)
    requires Delimits(r1) && Delimits(r2) && Render(v) + r1 == Render(w) + r2
    ensures ReadAlike(v, w) && r1 == r2
  {
    NumberIsNumeric(v.minus, v.whole, v.fraction, v.exponent);
    NumberIsNumeric(w.minus, w.whole, w.fraction, w.exponent);
    NumberEnds(Render(v), Render(w), r1, r2);
  }

  /** A value and what follows it are read off the text in one way. */
  lemma {:induction false} ValueEnds(v: Json, w: Json, r1: Text, r2: Text)
    requires WellFormed(v) && WellFormed(w) && Delimits(r1) && Delimits(r2) && Render(v) + r1 == Render(w) + r2
    ensures ReadAlike(v, w) && r1 == r2
    decreases v, 2
  {
    FirstOf(v);
    FirstOf(w);
    FirstStays(Render(v), r1);
    FirstStays(Render(w), r2);
    match v
    case Word(_) => WordEnds(v, w, r1, r2);
    case Number(_, _, _, _) => NumbersEnd(v, w, r1, r2);
    case String(literal) => StringEnds(literal, w.literal, r1, r2);
    case Array(_, _) => ArrayEnds(v, w, r1, r2);
    case Object(_, _) => ObjectEnds(v, w, r1, r2);
  }

  lemma {:induction false} ElementEnds(e: Element, f: Element, r1: Text, r2: Text)
    requires SpacedOut(e) && SpacedOut(f) && WellFormed(e.value) && WellFormed(f.value)
    requires Closes(r1) && Closes(r2) && RenderElement(e) + r1 == RenderElement(f) + r2
    ensures ReadAlike(e.value, f.value) && r1 == r2
    decreases e, 3
  {
    Regroup3(e.before, Render(e.value), e.after, r1);
    Regroup3(f.before, Render(f.value), f.after, r2);
    FirstOf(e.value);
    FirstOf(f.value);
    FirstStays(Render(e.value), e.after + r1);
    FirstStays(Render(f.value), f.after + r2);
    SpaceEnds(e.before, Render(e.value) + (e.after + r1), f.before, Render(f.value) + (f.after + r2));
    AfterDelimits(e.after, r1);
    AfterDelimits(f.after, r2);
    ValueEnds(e.value, f.value, e.after + r1, f.after + r2);
    SpaceEnds(e.after, r1, f.after, r2);
  }

  lemma {:induction false} AfterDelimits(after: Text, rest: Text)
    requires AllSpace(after) && Closes(rest)
    ensures Delimits(after + rest) && StartsDark(rest)
  {
    if after == [] {
      assert after + rest == rest;
    } else {
      FirstStays(after, rest);
    }
  }

  lemma {:induction false} FirstDark(e: Element, rest: Text) returns (t: Text)
    requires SpacedOut(e) && WellFormed(e.value)
    ensures RenderElement(e) + rest == e.before + t && t != [] && !IsSpace(t[0])
      && t[0] != CLOSE_BRACKET && t[0] != CLOSE_BRACE
  {
    Regroup3(e.before, Render(e.value), e.after, rest);
    t := Render(e.value) + (e.after + rest);
    FirstOf(e.value);
    FirstStays(Render(e.value), e.after + rest);
  }

  /** An empty list and one with an item are told apart by their first dark character. */
  lemma {:induction false} EmptyItemsDiffer(space: Text, items: seq<Element>, r1: Text, r2: Text)
    requires AllSpace(space) && GoodItems(items) && items != []
    ensures space + ([CLOSE_BRACKET] + r1) != RenderItems(items) + ([CLOSE_BRACKET] + r2)
  {
    var end := [CLOSE_BRACKET] + r2;
    ItemsUnfold(items, end);
    var t := FirstDark(items[0], AfterFirst(RenderItems(items[1..]), |items| > 1, end));
    if space + ([CLOSE_BRACKET] + r1) == items[0].before + t {
      SpaceEnds(space, [CLOSE_BRACKET] + r1, items[0].before, t);
    }
  }

  lemma {:induction false} ArrayEnds(v: Json, w: Json, r1: Text, r2: Text)
    requires v.Array? && w.Array? && WellFormed(v) && WellFormed(w) && Render(v) + r1 == Render(w) + r2
    ensures ReadAlike(v, w) && r1 == r2
    decreases v, 1
  {
    var inner1, inner2 := if v.items == [] then v.space else RenderItems(v.items), if w.items == [] then w.space
      else RenderItems(w.items);
    Regroup(OPEN_BRACKET, inner1, CLOSE_BRACKET, r1);
    Regroup(OPEN_BRACKET, inner2, CLOSE_BRACKET, r2);
    Uncons(OPEN_BRACKET, inner1 + ([CLOSE_BRACKET] + r1), inner2 + ([CLOSE_BRACKET] + r2));
    if v.items == [] && w.items == [] {
      SpaceEnds(v.space, [CLOSE_BRACKET] + r1, w.space, [CLOSE_BRACKET] + r2);
      Uncons(CLOSE_BRACKET, r1, r2);
    } else if v.items == [] {
      EmptyItemsDiffer(v.space, w.items, r1, r2);
    } else if w.items == [] {
      EmptyItemsDiffer(w.space, v.items, r2, r1);
    } else {
      ItemsEnd(v.items, w.items, r1, r2);
    }
  }

  ghost predicate ItemsAlike(x: seq<Element>, y: seq<Element>)
    requires GoodItems(x) && GoodItems(y)
  {
    ResolveItems(x, FirstWins) == ResolveItems(y, FirstWins) && ResolveItems(x, LastWins) == ResolveItems(y, LastWins)
  }

  lemma {:induction false} ItemsEnd(x: seq<Element>, y: seq<Element>, r1: Text, r2: Text)
    requires GoodItems(x) && GoodItems(y) && x != [] && y != []
    requires RenderItems(x) + ([CLOSE_BRACKET] + r1) == RenderItems(y) + ([CLOSE_BRACKET] + r2)
    ensures ItemsAlike(x, y) && r1 == r2
    decreases x, 0
  {
    var end1, end2 := [CLOSE_BRACKET] + r1, [CLOSE_BRACKET] + r2;
    var after1, after2 :=
      AfterFirst(RenderItems(x[1..]), |x| > 1, end1), AfterFirst(RenderItems(y[1..]), |y| > 1, end2);
    ItemsUnfold(x, end1);
    ItemsUnfold(y, end2);
    ElementEnds(x[0], y[0], after1, after2);
    if |x| > 1 {
      Uncons(COMMA, RenderItems(x[1..]) + end1, RenderItems(y[1..]) + end2);
      ItemsEnd(x[1..], y[1..], r1, r2);
    } else {
      Uncons(CLOSE_BRACKET, r1, r2);
    }
  }

  ghost predicate PairsAlike(x: seq<Pair>, y: seq<Pair>)
    requires GoodPairs(x) && GoodPairs(y)
  {
    ResolvePairs(x, FirstWins) == ResolvePairs(y, FirstWins) && ResolvePairs(x, LastWins) == ResolvePairs(y, LastWins)
  }

  lemma {:induction false} PairEnds(p: Pair, q: Pair, r1: Text, r2: Text)
    requires WellNamed(p) && WellNamed(q) && WellFormed(p.element.value) && WellFormed(q.element.value)
    requires Closes(r1) && Closes(r2) && RenderPair(p) + r1 == RenderPair(q) + r2
    ensures p.name == q.name && ReadAlike(p.element.value, q.element.value) && r1 == r2
    decreases p, 4
  {
    var c1, c2 := [COLON] + (RenderElement(p.element) + r1), [COLON] + (RenderElement(q.element) + r2);
    PairUnfold(p, r1);
    PairUnfold(q, r2);
    FirstStays(p.name, p.between + c1);
    FirstStays(q.name, q.between + c2);
    SpaceEnds(p.before, p.name + (p.between + c1), q.before, q.name + (q.between + c2));
    StringEnds(p.name, q.name, p.between + c1, q.between + c2);
    SpaceEnds(p.between, c1, q.between, c2);
    Uncons(COLON, RenderElement(p.element) + r1, RenderElement(q.element) + r2);
    ElementEnds(p.element, q.element, r1, r2);
  }

  lemma {:induction false} EmptyPairsDiffer(space: Text, members: seq<Pair>, r1: Text, r2: Text)
    requires AllSpace(space) && GoodPairs(members) && members != []
    ensures space + ([CLOSE_BRACE] + r1) != RenderPairs(members) + ([CLOSE_BRACE] + r2)
  {
    var p, end := members[0], [CLOSE_BRACE] + r2;
    var after := AfterFirst(RenderPairs(members[1..]), |members| > 1, end);
    var t := p.name + (p.between + ([COLON] + (RenderElement(p.element) + after)));
    PairsUnfold(members, end);
    PairUnfold(p, after);
    FirstStays(p.name, p.between + ([COLON] + (RenderElement(p.element) + after)));
    if space + ([CLOSE_BRACE] + r1) == p.before + t {
      SpaceEnds(space, [CLOSE_BRACE] + r1, p.before, t);
    }
  }

  lemma {:induction false} ObjectEnds(v: Json, w: Json, r1: Text, r2: Text)
    requires v.Object? && w.Object? && WellFormed(v) && WellFormed(w) && Render(v) + r1 == Render(w) + r2
    ensures ReadAlike(v, w) && r1 == r2
    decreases v, 1
  {
    var x, y := v.members, w.members;
    var inner1, inner2 := if x == [] then v.space else RenderPairs(x), if y == [] then w.space else RenderPairs(y);
    Regroup(OPEN_BRACE, inner1, CLOSE_BRACE, r1);
    Regroup(OPEN_BRACE, inner2, CLOSE_BRACE, r2);
    Uncons(OPEN_BRACE, inner1 + ([CLOSE_BRACE] + r1), inner2 + ([CLOSE_BRACE] + r2));
    if x == [] && y == [] {
      SpaceEnds(v.space, [CLOSE_BRACE] + r1, w.space, [CLOSE_BRACE] + r2);
      Uncons(CLOSE_BRACE, r1, r2);
    } else if x == [] {
      EmptyPairsDiffer(v.space, y, r1, r2);
    } else if y == [] {
      EmptyPairsDiffer(w.space, x, r2, r1);
    } else {
      PairsEnd(x, y, r1, r2);
    }
  }

  lemma {:induction false} PairsEnd(x: seq<Pair>, y: seq<Pair>, r1: Text, r2: Text)
    requires GoodPairs(x) && GoodPairs(y) && x != [] && y != []
    requires RenderPairs(x) + ([CLOSE_BRACE] + r1) == RenderPairs(y) + ([CLOSE_BRACE] + r2)
    ensures PairsAlike(x, y) && r1 == r2
    decreases x, 0
  {
    var end1, end2 := [CLOSE_BRACE] + r1, [CLOSE_BRACE] + r2;
    var after1, after2 :=
      AfterFirst(RenderPairs(x[1..]), |x| > 1, end1), AfterFirst(RenderPairs(y[1..]), |y| > 1, end2);
    PairsUnfold(x, end1);
    PairsUnfold(y, end2);
    PairEnds(x[0], y[0], after1, after2);
    if |x| > 1 {
      Uncons(COMMA, RenderPairs(x[1..]) + end1, RenderPairs(y[1..]) + end2);
      PairsEnd(x[1..], y[1..], r1, r2);
    } else {
      Uncons(CLOSE_BRACE, r1, r2);
    }
  }

  // -------- Whole texts --------

  /** Two derivations of one text denote one value, by either rule for repeated names. */
  lemma {:induction false} TextHasOneReading(e: Element, f: Element)
    requires SpacedOut(e) && SpacedOut(f) && WellFormed(e.value) && WellFormed(f.value) && Document(e) == Document(f)
    ensures ReadAlike(e.value, f.value)
  {
    assert RenderElement(e) + [] == RenderElement(e) && RenderElement(f) + [] == RenderElement(f);
    ElementEnds(e, f, [], []);
  }

  /**
   * So an accepted text denotes one value: whichever derivations two parsers find for it, and
   * whichever of repeated members each lets win, they read the same.
   */
  lemma {:induction false} AcceptedTextHasOneValue(e: Element, f: Element)
    requires SpacedOut(e) && SpacedOut(f) && WellFormed(e.value) && WellFormed(f.value) && Document(e) == Document(f)
    requires Scan(Document(e), []) == Clean
    ensures Resolve(e.value, FirstWins) == Resolve(f.value, LastWins)
  {
    TextHasOneReading(e, f);
    AcceptedTextsAreUnambiguous(f);
  }
}
