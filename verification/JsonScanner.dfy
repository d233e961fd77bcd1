/**
 * The strict parser's scan for repeated member names (packages/protocol/src/index.ts:1005-1070): a
 * string and stack automaton of its own, which must agree with the grammar it never consults.
 */
module JsonScanner {
  import opened Common
  import opened JsonStrings
  import opened JsonTexts

  datatype Frame = ObjectFrame(keys: set<Text>) | ArrayFrame

  /** The scan's outcome; `Unparsable` is `JSON.parse` refusing a key, which well-formed text never has. */
  datatype Scanned = Clean | DuplicateKey(key: Text) | Unparsable

  // -------- The automaton, over what is left of the text --------

  /** The inner loop: what follows the closing quote, an escape swallowing one character. */
  function AfterString(t: Text, escape: bool): (rest: Text)
    ensures |rest| <= |t|
  {
    if t == [] then []
    else if escape then AfterString(t[1..], false)
    else if t[0] == BACKSLASH then AfterString(t[1..], true)
    else if t[0] == QUOTE then t[1..]
    else AfterString(t[1..], false)
  }

  /** The next character that is not whitespace. */
  function Peek(t: Text): Option<CodeUnit> {
    if t == [] then None else if IsSpace(t[0]) then Peek(t[1..]) else Some(t[0])
  }

  /** `JSON.parse` of a string literal. */
  function ParseKey(literal: Text): Option<Text> {
    if IsLiteral(literal) then Some(Decoded(literal)) else None
  }

  predicate InObject(stack: seq<Frame>) {
    stack != [] && stack[|stack| - 1].ObjectFrame?
  }

  function Pop(stack: seq<Frame>): seq<Frame> {
    if stack == [] then [] else stack[..|stack| - 1]
  }

  /** The top frame remembers one more key. */
  function Remember(stack: seq<Frame>, key: Text): seq<Frame>
    requires InObject(stack)
  {
    stack[|stack| - 1 := ObjectFrame(stack[|stack| - 1].keys + {key})]
  }

  function Scan(t: Text, stack: seq<Frame>): Scanned
    decreases |t|
  {
    if t == [] then Clean
    else if t[0] == QUOTE then
      var rest := AfterString(t[1..], false);
      if Peek(rest) == Some(COLON) && InObject(stack) then
        match ParseKey(t[..|t| - |rest|])
        case None => Unparsable
        case Some(key) =>
          if key in stack[|stack| - 1].keys then DuplicateKey(key) else Scan(rest, Remember(stack, key))
      else Scan(rest, stack)
    else if t[0] == OPEN_BRACE then Scan(t[1..], stack + [ObjectFrame({})])
    else if t[0] == OPEN_BRACKET then Scan(t[1..], stack + [ArrayFrame])
    else if t[0] == CLOSE_BRACE || t[0] == CLOSE_BRACKET then Scan(t[1..], Pop(stack))
    else Scan(t[1..], stack)
  }

  // -------- What it does with each stretch of a well-formed text --------

  /** Characters the automaton steps over. */
  predicate Inert(t: Text) {
    forall i :: 0 <= i < |t| ==>
      t[i] != QUOTE && t[i] != OPEN_BRACE && t[i] != OPEN_BRACKET && t[i] != CLOSE_BRACE && t[i] != CLOSE_BRACKET
  }

  lemma {:induction false} ScanInert(t: Text, rest: Text, stack: seq<Frame>)
    requires Inert(t)
    ensures Scan(t + rest, stack) == Scan(rest, stack)
    decreases |t|
  {
    if t == [] {
      assert t + rest == rest;
    } else {
      assert (t + rest)[1..] == t[1..] + rest;
      ScanInert(t[1..], rest, stack);
    }
  }

  lemma {:induction false} PeekPastSpace(space: Text, rest: Text)
    requires AllSpace(space)
    ensures Peek(space + rest) == Peek(rest)
    decreases |space|
  {
    if space == [] {
      assert space + rest == rest;
    } else {
      assert (space + rest)[1..] == space[1..] + rest;
      PeekPastSpace(space[1..], rest);
    }
  }

  /** The escape flag finds the very quote the decoder stops at. */
  lemma {:induction false} AfterStringIsRest(t: Text)
    requires ReadBody(t).Some?
    ensures AfterString(t, false) == ReadBody(t).value.rest
    decreases |t|
  {
    if t[0] == QUOTE {
    } else if t[0] == BACKSLASH {
      assert t[1..][1..] == t[2..];
      if t[1] == LOWER_U {
        HexNeverQuotes(t);
        AfterStringIsRest(t[6..]);
      } else {
        AfterStringIsRest(t[2..]);
      }
    } else {
      AfterStringIsRest(t[1..]);
    }
  }

  lemma {:induction false} HexNeverQuotes(t: Text)
    requires |t| >= 6 && ReadHex4(t[2..6]).Some?
    ensures AfterString(t[2..], false) == AfterString(t[6..], false)
  {
    assert t[2..6][0] == t[2] && t[2..6][1] == t[3] && t[2..6][2] == t[4] && t[2..6][3] == t[5];
    assert t[2..][1..] == t[3..] && t[3..][1..] == t[4..] && t[4..][1..] == t[5..] && t[5..][1..] == t[6..];
    assert AfterString(t[2..], false) == AfterString(t[3..], false);
    assert AfterString(t[3..], false) == AfterString(t[4..], false);
    assert AfterString(t[4..], false) == AfterString(t[5..], false);
  }

  /** Text after a literal does not change how it reads. */
  lemma {:induction false} ReadBodyExtends(t: Text, more: Text)
    requires ReadBody(t).Some?
    ensures ReadBody(t + more) == Some(Literal(ReadBody(t).value.decoded, ReadBody(t).value.rest + more))
    decreases |t|
  {
    var u := t + more;
    assert u[0] == t[0] && u[1..] == t[1..] + more;
    if t[0] == QUOTE {
    } else if t[0] == BACKSLASH {
      assert u[1] == t[1] && u[2..] == t[2..] + more;
      if t[1] == LOWER_U {
        assert u[2..6] == t[2..6] && u[6..] == t[6..] + more;
        ReadBodyExtends(t[6..], more);
      } else {
        ReadBodyExtends(t[2..], more);
      }
    } else {
      ReadBodyExtends(t[1..], more);
    }
  }

  lemma {:induction false} LiteralEnds(literal: Text, rest: Text)
    requires IsLiteral(literal)
    ensures var t := literal + rest;
      t[0] == QUOTE && AfterString(t[1..], false) == rest && t[..|t| - |rest|] == literal
  {
    var t := literal + rest;
    assert t[1..] == literal[1..] + rest;
    ReadBodyExtends(literal[1..], rest);
    AfterStringIsRest(t[1..]);
    assert [] + rest == rest;
  }

  /** A string that is a value is stepped over whole. */
  lemma {:induction false} ScanStringValue(literal: Text, rest: Text, stack: seq<Frame>)
    requires IsLiteral(literal) && Peek(rest) != Some(COLON)
    ensures Scan(literal + rest, stack) == Scan(rest, stack)
  {
    LiteralEnds(literal, rest);
  }

  /** A string that is a name is decoded and checked against the object it belongs to. */
  lemma {:induction false} ScanName(literal: Text, rest: Text, stack: seq<Frame>)
    requires IsLiteral(literal) && Peek(rest) == Some(COLON) && InObject(stack)
    ensures Scan(literal + rest, stack) ==
      if Decoded(literal) in stack[|stack| - 1].keys then DuplicateKey(Decoded(literal))
        else Scan(rest, Remember(stack, Decoded(literal)))
  {
    LiteralEnds(literal, rest);
  }

  lemma {:induction false} WordIsInert(word: Text)
    requires word == Ascii("true") || word == Ascii("false") || word == Ascii("null")
    ensures Inert(word)
  {}

  lemma {:induction false} SpaceIsInert(t: Text)
    requires AllSpace(t)
    ensures Inert(t)
  {}

  lemma {:induction false} DigitsAreInert(t: Text)
    requires DigitRun(t)
    ensures Inert(t)
  {}

  lemma {:induction false} NumberIsInert(minus: bool, whole: Text, fraction: Text, exponent: Text)
    requires DigitRun(whole) && IsFraction(fraction) && IsExponent(exponent)
    ensures Inert((if minus then [MINUS] else []) + whole + fraction + exponent)
  {
    DigitsAreInert(whole);
    if fraction != [] {
      DigitsAreInert(fraction[1..]);
      assert forall i :: 1 <= i < |fraction| ==> fraction[i] == fraction[1..][i - 1];
    }
    if exponent != [] {
      ExponentIsInert(exponent);
    }
  }

  lemma {:induction false} ExponentIsInert(exponent: Text)
    requires exponent != [] && IsExponent(exponent)
    ensures Inert(exponent)
  {
    if exponent[1] == PLUS || exponent[1] == MINUS {
      assert forall i :: 2 <= i < |exponent| ==> exponent[i] == exponent[2..][i - 2];
    } else {
      assert forall i :: 1 <= i < |exponent| ==> exponent[i] == exponent[1..][i - 1];
    }
  }

  // -------- Repeated names, list by list --------

  /** A repeated name among these members, given the names already seen, or inside one of them. */
  ghost predicate RepeatsFrom(members: seq<Pair>, seen: set<Text>)
    requires GoodPairs(members)
    decreases |members|
  {
    members != [] &&
    (Decoded(members[0].name) in seen || RepeatsName(members[0].element.value)
      || RepeatsFrom(members[1..], seen + {Decoded(members[0].name)}))
  }

  ghost predicate RepeatsInItems(items: seq<Element>)
    requires GoodItems(items)
    decreases |items|
  {
    items != [] && (RepeatsName(items[0].value) || RepeatsInItems(items[1..]))
  }

  lemma {:induction false} RepeatsInItemsIff(items: seq<Element>)
    requires GoodItems(items)
    ensures RepeatsInItems(items) <==> exists i :: 0 <= i < |items| && RepeatsName(items[i].value)
    decreases |items|
  {
    if items != [] {
      var tail := items[1..];
      RepeatsInItemsIff(tail);
      assert forall i :: 0 <= i < |tail| ==> tail[i] == items[i + 1];
      if i :| 0 <= i < |items| && RepeatsName(items[i].value) {
        assert i > 0 ==> tail[i - 1] == items[i];
      }
    }
  }

  /** Some name stands twice in the list, or was seen before it. */
  predicate Clash(names: seq<Text>, seen: set<Text>) {
    names != [] && (names[0] in seen || Clash(names[1..], seen + {names[0]}))
  }

  lemma {:induction false} ClashIff(names: seq<Text>, seen: set<Text>)
    ensures Clash(names, seen) <==> HasTwins(names) || exists i :: 0 <= i < |names| && names[i] in seen
  {
    if names != [] {
      var tail := names[1..];
      ClashIff(tail, seen + {names[0]});
      if i, j :| 0 <= i < j < |names| && names[i] == names[j] {
        assert tail[j - 1] == names[j];
        assert i > 0 ==> tail[i - 1] == names[i];
      }
      if i :| 0 <= i < |names| && names[i] in seen {
        assert i > 0 ==> tail[i - 1] == names[i];
      }
      if i, j :| 0 <= i < j < |tail| && tail[i] == tail[j] {
        assert names[i + 1] == names[j + 1];
      }
      if i :| 0 <= i < |tail| && tail[i] in seen + {names[0]} {
        assert names[i + 1] == tail[i];
      }
    }
  }

  /** A repeated name inside one of the members. */
  ghost predicate RepeatsInside(members: seq<Pair>)
    requires GoodPairs(members)
    decreases |members|
  {
    members != [] && (RepeatsName(members[0].element.value) || RepeatsInside(members[1..]))
  }

  lemma {:induction false} RepeatsInsideIff(members: seq<Pair>)
    requires GoodPairs(members)
    ensures RepeatsInside(members) <==> exists i :: 0 <= i < |members| && RepeatsName(members[i].element.value)
    decreases |members|
  {
    if members != [] {
      var tail := members[1..];
      RepeatsInsideIff(tail);
      assert forall i :: 0 <= i < |tail| ==> tail[i] == members[i + 1];
      if i :| 0 <= i < |members| && RepeatsName(members[i].element.value) {
        assert i > 0 ==> tail[i - 1] == members[i];
      }
    }
  }

  lemma {:induction false} RepeatsFromIff(members: seq<Pair>, seen: set<Text>)
    requires GoodPairs(members)
    ensures RepeatsFrom(members, seen) <==> Clash(Names(members), seen) || RepeatsInside(members)
    decreases |members|
  {
    if members != [] {
      RepeatsFromIff(members[1..], seen + {Decoded(members[0].name)});
      assert Names(members)[1..] == Names(members[1..]);
    }
  }

  /** For an object the two readings of "repeats a name" are one. */
  lemma {:induction false} ObjectRepeatsIff(space: Text, members: seq<Pair>)
    requires AllSpace(space) && GoodPairs(members)
    ensures RepeatsName(Object(space, members)) <==> RepeatsFrom(members, {})
  {
    RepeatsFromIff(members, {});
    RepeatsInsideIff(members);
    ClashIff(Names(members), {});
  }

  // -------- The theorem --------

  /** The scan of a stretch: a refusal if it repeats a name, and otherwise on with the rest as if it were not there. */
  ghost predicate Passes(scanned: Scanned, repeats: bool, onward: Scanned) {
    if repeats then scanned.DuplicateKey? else scanned == onward
  }

  /** What follows a value is never a colon. */
  predicate AfterValue(rest: Text) {
    Peek(rest) != Some(COLON)
  }

  lemma {:induction false} ScanValue(v: Json, rest: Text, stack: seq<Frame>)
    requires WellFormed(v) && AfterValue(rest)
    ensures Passes(Scan(Render(v) + rest, stack), RepeatsName(v), Scan(rest, stack))
    decreases v, 2
  {
    match v {
      case Word(word) =>
        WordIsInert(word);
        ScanInert(word, rest, stack);
      case Number(minus, whole, fraction, exponent) =>
        NumberIsInert(minus, whole, fraction, exponent);
        ScanInert(Render(v), rest, stack);
      case String(literal) => ScanStringValue(literal, rest, stack);
      case Array(space, items) => ScanArray(space, items, rest, stack);
      case Object(space, members) => ScanObject(space, members, rest, stack);
    }
  }

  lemma {:induction false} ScanOpen(open: CodeUnit, frame: Frame, body: Text, stack: seq<Frame>)
    requires (open == OPEN_BRACE && frame == ObjectFrame({})) || (open == OPEN_BRACKET && frame == ArrayFrame)
    ensures Scan([open] + body, stack) == Scan(body, stack + [frame])
  {
    assert ([open] + body)[1..] == body;
  }

  lemma {:induction false} ScanClose(close: CodeUnit, frame: Frame, rest: Text, stack: seq<Frame>)
    requires close == CLOSE_BRACE || close == CLOSE_BRACKET
    ensures Scan([close] + rest, stack + [frame]) == Scan(rest, stack)
    ensures AfterValue([close] + rest)
  {
    assert ([close] + rest)[1..] == rest && (stack + [frame])[..|stack|] == stack;
  }

  lemma {:induction false} ScanArray(space: Text, items: seq<Element>, rest: Text, stack: seq<Frame>)
    requires AllSpace(space) && GoodItems(items)
    ensures WellFormed(Array(space, items))
    ensures Passes(Scan(Render(Array(space, items)) + rest, stack), RepeatsName(Array(space, items)), Scan(rest, stack))
    decreases Array(space, items), 1
  {
    var inner := if items == [] then space else RenderItems(items);
    var end := [CLOSE_BRACKET] + rest;
    Bracketed([OPEN_BRACKET], inner, [CLOSE_BRACKET], rest);
    ScanOpen(OPEN_BRACKET, ArrayFrame, inner + end, stack);
    ScanClose(CLOSE_BRACKET, ArrayFrame, rest, stack);
    RepeatsInItemsIff(items);
    if items == [] {
      SpaceIsInert(space);
      ScanInert(space, end, stack + [ArrayFrame]);
    } else {
      ScanItems(items, end, stack + [ArrayFrame]);
    }
  }

  lemma {:induction false} Bracketed(open: Text, inner: Text, close: Text, rest: Text)
    ensures open + inner + close + rest == open + (inner + (close + rest))
  {}

  lemma {:induction false} ScanElement(e: Element, rest: Text, stack: seq<Frame>)
    requires SpacedOut(e) && WellFormed(e.value) && AfterValue(rest)
    ensures Passes(Scan(RenderElement(e) + rest, stack), RepeatsName(e.value), Scan(rest, stack))
    decreases e, 3
  {
    Bracketed(e.before, Render(e.value), e.after, rest);
    SpaceIsInert(e.before);
    SpaceIsInert(e.after);
    ScanInert(e.before, Render(e.value) + (e.after + rest), stack);
    PeekPastSpace(e.after, rest);
    ScanValue(e.value, e.after + rest, stack);
    ScanInert(e.after, rest, stack);
  }

  lemma {:induction false} CommaIsInert(rest: Text, stack: seq<Frame>)
    ensures Scan([COMMA] + rest, stack) == Scan(rest, stack) && AfterValue([COMMA] + rest)
  {
    ScanInert([COMMA], rest, stack);
  }

  lemma {:induction false} ScanItems(items: seq<Element>, end: Text, stack: seq<Frame>)
    requires GoodItems(items) && items != [] && AfterValue(end)
    ensures Passes(Scan(RenderItems(items) + end, stack), RepeatsInItems(items), Scan(end, stack))
    decreases items, 0
  {
    if |items| == 1 {
      assert RenderItems(items) + end == RenderElement(items[0]) + end;
      assert items[1..] == [] && !RepeatsInItems(items[1..]);
      ScanElement(items[0], end, stack);
    } else {
      var more := RenderItems(items[1..]) + end;
      assert RenderItems(items) + end == RenderElement(items[0]) + ([COMMA] + more);
      CommaIsInert(more, stack);
      ScanElement(items[0], [COMMA] + more, stack);
      ScanItems(items[1..], end, stack);
    }
  }

  lemma {:induction false} ScanObject(space: Text, members: seq<Pair>, rest: Text, stack: seq<Frame>)
    requires AllSpace(space) && GoodPairs(members)
    ensures WellFormed(Object(space, members))
    ensures Passes(Scan(Render(Object(space, members)) + rest, stack),
      RepeatsName(Object(space, members)), Scan(rest, stack))
    decreases Object(space, members), 1
  {
    var inner := if members == [] then space else RenderPairs(members);
    var end := [CLOSE_BRACE] + rest;
    Bracketed([OPEN_BRACE], inner, [CLOSE_BRACE], rest);
    ScanOpen(OPEN_BRACE, ObjectFrame({}), inner + end, stack);
    ObjectRepeatsIff(space, members);
    if members == [] {
      SpaceIsInert(space);
      ScanInert(space, end, stack + [ObjectFrame({})]);
      ScanClose(CLOSE_BRACE, ObjectFrame({}), rest, stack);
    } else {
      ScanPairs(members, rest, stack, {});
    }
  }

  /** A name, its colon and its value, in the object whose names so far are `seen`. */
  lemma {:induction false} ScanPair(p: Pair, rest: Text, stack: seq<Frame>, seen: set<Text>)
    requires WellNamed(p) && WellFormed(p.element.value) && AfterValue(rest)
    ensures Passes(Scan(RenderPair(p) + rest, stack + [ObjectFrame(seen)]),
      Decoded(p.name) in seen
        || RepeatsName(p.element.value), Scan(rest, stack + [ObjectFrame(seen + {Decoded(p.name)})]))
    decreases p, 4
  {
    var now := stack + [ObjectFrame(seen)];
    var value := RenderElement(p.element) + rest;
    var fromColon := [COLON] + value;
    var fromName := p.name + (p.between + fromColon);
    assert RenderPair(p) + rest == p.before + fromName;
    SpaceIsInert(p.before);
    ScanInert(p.before, fromName, now);
    PeekPastSpace(p.between, fromColon);
    ScanName(p.name, p.between + fromColon, now);
    var named := stack + [ObjectFrame(seen + {Decoded(p.name)})];
    assert Remember(now, Decoded(p.name)) == named;
    SpaceIsInert(p.between);
    ScanInert(p.between, fromColon, named);
    ScanInert([COLON], value, named);
    ScanElement(p.element, rest, named);
  }

  lemma {:induction false} ScanPairs(members: seq<Pair>, rest: Text, stack: seq<Frame>, seen: set<Text>)
    requires GoodPairs(members) && members != []
    ensures Passes(Scan(RenderPairs(members) + ([CLOSE_BRACE] + rest), stack + [ObjectFrame(seen)]),
      RepeatsFrom(members, seen), Scan(rest, stack))
    decreases members, 0
  {
    var end := [CLOSE_BRACE] + rest;
    var after := seen + {Decoded(members[0].name)};
    if |members| == 1 {
      assert RenderPairs(members) + end == RenderPair(members[0]) + end;
      assert members[1..] == [] && !RepeatsFrom(members[1..], after);
      ScanClose(CLOSE_BRACE, ObjectFrame(after), rest, stack);
      ScanPair(members[0], end, stack, seen);
    } else {
      var more := RenderPairs(members[1..]) + end;
      assert RenderPairs(members) + end == RenderPair(members[0]) + ([COMMA] + more);
      CommaIsInert(more, stack + [ObjectFrame(after)]);
      ScanPair(members[0], [COMMA] + more, stack, seen);
      ScanPairs(members[1..], rest, stack, after);
    }
  }

  /** A whole text: a value between two stretches of whitespace. */
  function Document(e: Element): Text {
    RenderElement(e)
  }

  /**
   * For every well-formed text the scan refuses exactly when some object at some depth has two
   * members of one decoded name, and otherwise reaches the end clean.
   */
  lemma {:induction false} ScannerAgreesWithGrammar(e: Element)
    requires SpacedOut(e) && WellFormed(e.value)
    ensures RepeatsName(e.value) ==> Scan(Document(e), []).DuplicateKey?
    ensures !RepeatsName(e.value) ==> Scan(Document(e), []) == Clean
  {
    ScanElement(e, [], []);
    assert RenderElement(e) + [] == RenderElement(e);
  }

  /** So on every accepted text the first and the last of repeated members are the same member. */
  lemma {:induction false} AcceptedTextsAreUnambiguous(e: Element)
    requires SpacedOut(e) && WellFormed(e.value) && Scan(Document(e), []) == Clean
    ensures Resolve(e.value, FirstWins) == Resolve(e.value, LastWins)
  {
    ScannerAgreesWithGrammar(e);
    RulesAgree(e.value);
  }

  // -------- The loops --------

  lemma {:induction false} Tail(t: Text, i: nat)
    requires i < |t|
    ensures t[i..] != [] && t[i..][0] == t[i] && t[i..][1..] == t[i + 1..]
  {}

  /** To just past the closing quote of the literal that opens at `start`. */
  method SkipLiteral(raw: Text, start: nat) returns (index: nat)
    requires start < |raw|
    ensures start < index <= |raw| && raw[index..] == AfterString(raw[start + 1..], false)
  {
    index := start + 1;
    var escape := false;
    while index < |raw|
      invariant start < index <= |raw| && AfterString(raw[start + 1..], false) == AfterString(raw[index..], escape)
    {
      Tail(raw, index);
      var c := raw[index];
      if escape {
        escape := false;
      } else if c == BACKSLASH {
        escape := true;
      } else if c == QUOTE {
        index := index + 1;
        return;
      }
      index := index + 1;
    }
  }

  method NextNonSpace(raw: Text, index: nat) returns (c: Option<CodeUnit>)
    requires index <= |raw|
    ensures c == Peek(raw[index..])
  {
    var peek := index;
    while peek < |raw| && IsSpace(raw[peek])
      invariant index <= peek <= |raw| && Peek(raw[index..]) == Peek(raw[peek..])
    {
      Tail(raw, peek);
      peek := peek + 1;
    }
    if peek < |raw| {
      Tail(raw, peek);
      return Some(raw[peek]);
    }
    return None;
  }

  lemma {:induction false} LiteralSlice(raw: Text, start: nat, index: nat)
    requires start < index <= |raw|
    ensures raw[start..][..|raw[start..]| - |raw[index..]|] == raw[start..index]
  {}

  /** `assertNoDuplicateKeys`: `DuplicateKey` where it throws. */
  method AssertNoDuplicateKeys(raw: Text) returns (r: Scanned)
    ensures r == Scan(raw, [])
  {
    var stack: seq<Frame> := [];
    var index := 0;
    assert raw[0..] == raw;
    while index < |raw|
      invariant index <= |raw| && Scan(raw, []) == Scan(raw[index..], stack)
      decreases |raw| - index
    {
      Tail(raw, index);
      var ch := raw[index];
      if ch == QUOTE {
        var start := index;
        index := SkipLiteral(raw, start);
        LiteralSlice(raw, start, index);
        var peek := NextNonSpace(raw, index);
        if peek == Some(COLON) && InObject(stack) {
          var key := ParseKey(raw[start..index]);
          if key.None? {
            return Unparsable;
          }
          if key.value in stack[|stack| - 1].keys {
            return DuplicateKey(key.value);
          }
          stack := Remember(stack, key.value);
        }
      } else {
        if ch == OPEN_BRACE {
          stack := stack + [ObjectFrame({})];
        } else if ch == OPEN_BRACKET {
          stack := stack + [ArrayFrame];
        } else if ch == CLOSE_BRACE || ch == CLOSE_BRACKET {
          stack := Pop(stack);
        }
        index := index + 1;
      }
    }
    return Clean;
  }
}
