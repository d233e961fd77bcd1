/** Well-formed JSON texts with every character in place (RFC 8259), and the values they denote. */
module JsonTexts {
  import opened Common
  import opened JsonStrings

  const PLUS: CodeUnit := 0x2B
  const DOT: CodeUnit := 0x2E
  const LOWER_E: CodeUnit := 0x65
  const UPPER_E: CodeUnit := 0x45

  /**
   * A value as written. A string or a name is its whole literal, quotes and escapes included; every
   * stretch of whitespace is kept.
   */
  datatype Json =
    | Word(word: Text)
    | Number(minus: bool, whole: Text, fraction: Text, exponent: Text)
    | String(literal: Text)
    | Array(space: Text, items: seq<Element>)
    | Object(space: Text, members: seq<Pair>)

  datatype Element = Element(before: Text, value: Json, after: Text)

  datatype Pair = Pair(before: Text, name: Text, between: Text, element: Element)

  predicate IsSpace(c: CodeUnit) {
    c == SPACE || c == TAB || c == LINE_FEED || c == CARRIAGE_RETURN
  }

  predicate AllSpace(t: Text) {
    forall i :: 0 <= i < |t| ==> IsSpace(t[i])
  }

  predicate DigitRun(t: Text) {
    t != [] && AllDigits(t)
  }

  predicate IsFraction(t: Text) {
    t == [] || (t[0] == DOT && DigitRun(t[1..]))
  }

  predicate IsExponent(t: Text) {
    t == [] || ((t[0] == LOWER_E || t[0] == UPPER_E) && |t| > 1
      && DigitRun(if t[1] == PLUS || t[1] == MINUS then t[2..] else t[1..]))
  }

  /** An exponent part: the letter in either case, a sign or none, and digits. */
  ghost predicate ScaledBy(t: Text, letter: Text, sign: Text, digits: Text) {
    && t == letter + sign + digits && letter in {Ascii("e"), Ascii("E")}
    && sign in {[], Ascii("+"), Ascii("-")} && DigitRun(digits)
  }

  /** What may follow the whole part of a number. */
  lemma {:induction false} NumberParts(t: Text)
    ensures IsFraction(t) <==> t == [] || exists digits :: DigitRun(digits) && t == Ascii(".") + digits
    ensures IsExponent(t) <==> t == [] || exists letter, sign, digits :: ScaledBy(t, letter, sign, digits)
  {
    if t != [] && IsFraction(t) {
      assert DigitRun(t[1..]) && t == Ascii(".") + t[1..];
    }
    if t != [] && IsExponent(t) {
      ExponentSplits(t);
    }
  }

  lemma {:induction false} ExponentSplits(t: Text)
    requires t != [] && IsExponent(t)
    ensures exists letter, sign, digits :: ScaledBy(t, letter, sign, digits)
  {
    assert Ascii("e") == [LOWER_E] && Ascii("E") == [UPPER_E] && Ascii("+") == [PLUS] && Ascii("-") == [MINUS];
    if t[1] == PLUS || t[1] == MINUS {
      assert t == [t[0]] + [t[1]] + t[2..];
      assert ScaledBy(t, [t[0]], [t[1]], t[2..]);
    } else {
      assert t == [t[0]] + [] + t[1..];
      assert ScaledBy(t, [t[0]], [], t[1..]);
    }
  }

  /** The body of a string literal, closing quote included, decodes whole. */
  predicate IsLiteral(t: Text) {
    |t| >= 2 && t[0] == QUOTE && ReadBody(t[1..]).Some? && ReadBody(t[1..]).value.rest == []
  }

  /** The string a literal denotes. */
  function Decoded(t: Text): Text
    requires IsLiteral(t)
  {
    ReadBody(t[1..]).value.decoded
  }

  predicate SpacedOut(e: Element) {
    AllSpace(e.before) && AllSpace(e.after)
  }

  predicate WellNamed(p: Pair) {
    AllSpace(p.before) && IsLiteral(p.name) && AllSpace(p.between) && SpacedOut(p.element)
  }

  /** The grammar of RFC 8259. */
  ghost predicate WellFormed(v: Json)
    decreases v
  {
    match v
    case Word(word) => word == Ascii("true") || word == Ascii("false") || word == Ascii("null")
    case Number(_, whole, fraction, exponent) =>
      DigitRun(whole) && (whole[0] == ZERO ==> |whole| == 1) && IsFraction(fraction) && IsExponent(exponent)
    case String(literal) => IsLiteral(literal)
    case Array(space, items) => AllSpace(space) && forall i :: 0 <= i < |items| ==>
      SpacedOut(items[i]) && WellFormed(items[i].value)
    case Object(space, members) =>
      AllSpace(space) && forall i :: 0 <= i < |members| ==>
        WellNamed(members[i]) && WellFormed(members[i].element.value)
  }

  ghost predicate GoodItems(items: seq<Element>) {
    forall i :: 0 <= i < |items| ==> SpacedOut(items[i]) && WellFormed(items[i].value)
  }

  ghost predicate GoodPairs(members: seq<Pair>) {
    forall i :: 0 <= i < |members| ==> WellNamed(members[i]) && WellFormed(members[i].element.value)
  }

  // -------- The text --------

  function Render(v: Json): Text
    decreases v, 1
  {
    match v
    case Word(word) => word
    case Number(minus, whole, fraction, exponent) => (if minus then [MINUS] else []) + whole + fraction + exponent
    case String(literal) => literal
    case Array(space, items) => [OPEN_BRACKET] + (if items == [] then space else RenderItems(items)) + [CLOSE_BRACKET]
    case Object(space, members) =>
      [OPEN_BRACE] + (if members == [] then space else RenderPairs(members)) + [CLOSE_BRACE]
  }

  function RenderElement(e: Element): Text
    decreases e, 1
  {
    e.before + Render(e.value) + e.after
  }

  function RenderItems(items: seq<Element>): Text
    decreases items, 0
  {
    if items == [] then []
    else RenderElement(items[0]) + (if |items| == 1 then [] else [COMMA] + RenderItems(items[1..]))
  }

  function RenderPair(p: Pair): Text
    decreases p, 1
  {
    p.before + p.name + p.between + [COLON] + RenderElement(p.element)
  }

  function RenderPairs(members: seq<Pair>): Text
    decreases members, 0
  {
    if members == [] then []
    else RenderPair(members[0]) + (if |members| == 1 then [] else [COMMA] + RenderPairs(members[1..]))
  }

  // -------- Repeated names --------

  /** The decoded names of an object's members, in order. */
  ghost function Names(members: seq<Pair>): (names: seq<Text>)
    requires GoodPairs(members)
    ensures |names| == |members|
  {
    if members == [] then [] else [Decoded(members[0].name)] + Names(members[1..])
  }

  predicate HasTwins(names: seq<Text>) {
    exists i, j :: 0 <= i < j < |names| && names[i] == names[j]
  }

  /** Some object, at some depth, has two members of one decoded name. */
  ghost predicate RepeatsName(v: Json)
    requires WellFormed(v)
    decreases v
  {
    match v
    case Array(_, items) => exists i :: 0 <= i < |items| && RepeatsName(items[i].value)
    case Object(_, members) =>
      || HasTwins(Names(members))
      || (exists i :: 0 <= i < |members| && RepeatsName(members[i].element.value))
    case _ => false
  }

  // -------- What a text denotes, by either rule for repeated names --------

  datatype Parsed =
    | PWord(word: Text)
    | PNumber(token: Text)
    | PString(decoded: Text)
    | PArray(items: seq<Parsed>)
    | PObject(members: map<Text, Parsed>)

  datatype Rule = FirstWins | LastWins

  ghost function Resolve(v: Json, rule: Rule): Parsed
    requires WellFormed(v)
    decreases v, 1
  {
    match v
    case Word(word) => PWord(word)
    case Number(_, _, _, _) => PNumber(Render(v))
    case String(literal) => PString(Decoded(literal))
    case Array(_, items) => PArray(ResolveItems(items, rule))
    case Object(_, members) => PObject(ResolvePairs(members, rule))
  }

  ghost function ResolveItems(items: seq<Element>, rule: Rule): seq<Parsed>
    requires GoodItems(items)
    decreases items, 0
  {
    if items == [] then []
    else [Resolve(items[0].value, rule)] + ResolveItems(items[1..], rule)
  }

  ghost function ResolvePairs(members: seq<Pair>, rule: Rule): map<Text, Parsed>
    requires GoodPairs(members)
    decreases members, 0
  {
    if members == [] then map[]
    else
      var rest := ResolvePairs(members[1..], rule);
      var name := Decoded(members[0].name);
      if rule.LastWins? && name in rest then rest else rest[name := Resolve(members[0].element.value, rule)]
  }

  lemma {:induction false} ResolvedNames(members: seq<Pair>, rule: Rule, name: Text)
    requires GoodPairs(members)
    ensures name in ResolvePairs(members, rule) <==> name in Names(members)
  {
    if members != [] {
      ResolvedNames(members[1..], rule, name);
    }
  }

  lemma {:induction false} TwinsOfTail(names: seq<Text>)
    requires names != [] && !HasTwins(names)
    ensures !HasTwins(names[1..]) && names[0] !in names[1..]
  {
    var tail := names[1..];
    forall i, j | 0 <= i < j < |tail| ensures tail[i] != tail[j] {
      assert tail[i] == names[i + 1] && tail[j] == names[j + 1];
    }
    forall i | 0 <= i < |tail| ensures tail[i] != names[0] {
      assert tail[i] == names[i + 1];
    }
  }

  /** Without a repeated name anywhere the two rules give the same value. */
  lemma {:induction false} RulesAgree(v: Json)
    requires WellFormed(v) && !RepeatsName(v)
    ensures Resolve(v, FirstWins) == Resolve(v, LastWins)
    decreases v, 1
  {
    match v {
      case Array(_, items) => ItemsAgree(items);
      case Object(_, members) => PairsAgree(members);
      case _ =>
    }
  }

  lemma {:induction false} ItemsAgree(items: seq<Element>)
    requires GoodItems(items) && forall i :: 0 <= i < |items| ==> !RepeatsName(items[i].value)
    ensures ResolveItems(items, FirstWins) == ResolveItems(items, LastWins)
    decreases items, 0
  {
    if items != [] {
      RulesAgree(items[0].value);
      ItemsAgree(items[1..]);
    }
  }

  lemma {:induction false} PairsAgree(members: seq<Pair>)
    requires GoodPairs(members) && forall i :: 0 <= i < |members| ==> !RepeatsName(members[i].element.value)
    requires !HasTwins(Names(members))
    ensures ResolvePairs(members, FirstWins) == ResolvePairs(members, LastWins)
    decreases members, 0
  {
    if members != [] {
      RulesAgree(members[0].element.value);
      var tail := members[1..];
      assert forall i :: 0 <= i < |tail| ==> tail[i] == members[i + 1];
      TwinsOfTail(Names(members));
      assert Names(members)[1..] == Names(tail);
      PairsAgree(tail);
      ResolvedNames(tail, LastWins, Decoded(members[0].name));
    }
  }
}
