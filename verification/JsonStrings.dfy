/**
 * JSON string literals over UTF-16 code units: what `JSON.stringify` writes for a string (the
 * well-formed form of ECMAScript, which RFC 8785 section 3.2.2.2 adopts) and what `JSON.parse`
 * reads back.
 */
module JsonStrings {
  import opened Common

  /** A string body read up to its closing quote: the decoded units and the text that follows. */
  datatype Literal = Literal(decoded: Text, rest: Text)

  predicate IsHighSurrogate(c: CodeUnit) { 0xD800 <= c < 0xDC00 }

  predicate IsLowSurrogate(c: CodeUnit) { 0xDC00 <= c < 0xE000 }

  function HexDigit(d: nat): CodeUnit
    requires d < 16
  {
    if d < 10 then ZERO + d else 0x61 + (d - 10)
  }

  function HexValue(c: CodeUnit): Option<nat> {
    if IsDigit(c) then Some(c - ZERO)
    else if 0x61 <= c <= 0x66 then Some(c - 0x61 + 10)
    else if 0x41 <= c <= 0x46 then Some(c - 0x41 + 10)
    else None
  }

  function Hex4(c: CodeUnit): (t: Text)
    ensures |t| == 4
  {
    [HexDigit(c / 4096), HexDigit(c / 256 % 16), HexDigit(c / 16 % 16), HexDigit(c % 16)]
  }

  /** `\uXXXX` with lower-case digits. */
  function UnicodeEscape(c: CodeUnit): Text {
    [BACKSLASH, LOWER_U] + Hex4(c)
  }

  /** The letter of a two-character escape, if the unit has one on output. */
  function ShortEscape(c: CodeUnit): Option<CodeUnit> {
    if c == QUOTE || c == BACKSLASH then Some(c)
    else if c == 0x08 then Some(LOWER_B)
    else if c == 0x0C then Some(LOWER_F)
    else if c == LINE_FEED then Some(LOWER_N)
    else if c == CARRIAGE_RETURN then Some(LOWER_R)
    else if c == TAB then Some(LOWER_T)
    else None
  }

  /** The unit a two-character escape denotes (`\/` is read but never written). */
  function ShortUnescape(letter: CodeUnit): Option<CodeUnit> {
    if letter == QUOTE || letter == BACKSLASH || letter == SLASH then Some(letter)
    else if letter == LOWER_B then Some(0x08)
    else if letter == LOWER_F then Some(0x0C)
    else if letter == LOWER_N then Some(LINE_FEED)
    else if letter == LOWER_R then Some(CARRIAGE_RETURN)
    else if letter == LOWER_T then Some(TAB)
    else None
  }

  /** One unit on output; a surrogate that reaches here is unpaired and is escaped. */
  function EscapeUnit(c: CodeUnit): (t: Text)
    ensures t != []
  {
    match ShortEscape(c)
    case Some(letter) => [BACKSLASH, letter]
    case None =>
      if c < 0x20 || IsHighSurrogate(c) || IsLowSurrogate(c) then UnicodeEscape(c) else [c]
  }

  function EscapeAll(s: Text): Text {
    if s == [] then []
    else if |s| >= 2 && IsHighSurrogate(s[0]) && IsLowSurrogate(s[1]) then s[..2] + EscapeAll(s[2..])
    else EscapeUnit(s[0]) + EscapeAll(s[1..])
  }

  /** `JSON.stringify` of a string. */
  function Quote(s: Text): Text {
    [QUOTE] + EscapeAll(s) + [QUOTE]
  }

  /** The four digits after `\u`, if they are hexadecimal. */
  function ReadHex4(t: Text): Option<CodeUnit>
    requires |t| >= 4
  {
    match (HexValue(t[0]), HexValue(t[1]), HexValue(t[2]), HexValue(t[3]))
    case (Some(a), Some(b), Some(c), Some(d)) =>
      if a < 16 && b < 16 && c < 16 && d < 16 then Some(a * 4096 + b * 256 + c * 16 + d) else None
    case _ => None
  }

  function Prepend(c: CodeUnit, read: Option<Literal>): Option<Literal> {
    match read
    case None => None
    case Some(l) => Some(Literal([c] + l.decoded, l.rest))
  }

  /** Reads a string body, the opening quote already consumed; None when it is not one. */
  function ReadBody(t: Text): (r: Option<Literal>)
    ensures r.Some? ==> |r.value.rest| < |t|
  {
    if t == [] then None
    else if t[0] == QUOTE then Some(Literal([], t[1..]))
    else if t[0] == BACKSLASH then
      if |t| < 2 then None
      else if t[1] == LOWER_U then
        if |t| < 6 then None
        else match ReadHex4(t[2..6])
          case None => None
          case Some(c) => Prepend(c, ReadBody(t[6..]))
      else match ShortUnescape(t[1])
        case None => None
        case Some(c) => Prepend(c, ReadBody(t[2..]))
    else if t[0] < 0x20 then None
    else Prepend(t[0], ReadBody(t[1..]))
  }

  lemma {:induction false} HexDigitRoundTrip(d: nat)
    requires d < 16
    ensures HexValue(HexDigit(d)) == Some(d)
  {}

  lemma {:induction false} HexPlaces(c: CodeUnit)
    ensures c == c / 4096 * 4096 + c / 256 % 16 * 256 + c / 16 % 16 * 16 + c % 16
  {
    assert c / 256 / 16 == c / 4096 && c / 16 / 16 == c / 256;
  }

  lemma {:induction false} Hex4RoundTrip(c: CodeUnit)
    ensures ReadHex4(Hex4(c)) == Some(c)
  {
    HexDigitRoundTrip(c / 4096);
    HexDigitRoundTrip(c / 256 % 16);
    HexDigitRoundTrip(c / 16 % 16);
    HexDigitRoundTrip(c % 16);
    HexPlaces(c);
  }

  lemma {:induction false} ReadsHexEscape(digits: Text, c: CodeUnit, rest: Text)
    requires |digits| == 4 && ReadHex4(digits) == Some(c)
    ensures ReadBody([BACKSLASH, LOWER_U] + digits + rest) == Prepend(c, ReadBody(rest))
  {
    var t := [BACKSLASH, LOWER_U] + digits + rest;
    assert t[2..6] == digits;
    assert t[6..] == rest;
  }

  lemma {:induction false} ReadsUnicodeEscape(c: CodeUnit, rest: Text)
    ensures ReadBody(UnicodeEscape(c) + rest) == Prepend(c, ReadBody(rest))
  {
    Hex4RoundTrip(c);
    ReadsHexEscape(Hex4(c), c, rest);
  }

  lemma {:induction false} ShortEscapeRoundTrip(c: CodeUnit)
    requires ShortEscape(c).Some?
    ensures ShortUnescape(ShortEscape(c).value) == Some(c) && ShortEscape(c).value != LOWER_U
  {}

  lemma {:induction false} ReadsPlain(c: CodeUnit, rest: Text)
    requires c != QUOTE && c != BACKSLASH && c >= 0x20
    ensures ReadBody([c] + rest) == Prepend(c, ReadBody(rest))
  {
    assert ([c] + rest)[1..] == rest;
  }

  lemma {:induction false} ReadsShort(c: CodeUnit, rest: Text)
    requires ShortEscape(c).Some?
    ensures ReadBody([BACKSLASH, ShortEscape(c).value] + rest) == Prepend(c, ReadBody(rest))
  {
    ShortEscapeRoundTrip(c);
    assert ([BACKSLASH, ShortEscape(c).value] + rest)[2..] == rest;
  }

  lemma {:induction false} ReadsUnit(c: CodeUnit, rest: Text)
    ensures ReadBody(EscapeUnit(c) + rest) == Prepend(c, ReadBody(rest))
  {
    if ShortEscape(c).Some? {
      ReadsShort(c, rest);
    } else if c < 0x20 || IsHighSurrogate(c) || IsLowSurrogate(c) {
      ReadsUnicodeEscape(c, rest);
    } else {
      ReadsPlain(c, rest);
    }
  }

  lemma {:induction false} ReadsPair(high: CodeUnit, low: CodeUnit, decoded: Text, tail: Text, rest: Text)
    requires IsHighSurrogate(high) && IsLowSurrogate(low)
    requires ReadBody(tail) == Some(Literal(decoded, rest))
    ensures ReadBody([high] + ([low] + tail)) == Some(Literal([high] + ([low] + decoded), rest))
  {
    ReadsPlain(low, tail);
    ReadsPlain(high, [low] + tail);
  }

  lemma {:induction false} PairConcat(pair: Text, t: Text)
    requires |pair| == 2
    ensures pair + t == [pair[0]] + ([pair[1]] + t)
  {}

  /** How many units `EscapeAll` consumes at once. */
  function Span(s: Text): (n: nat)
    requires s != []
    ensures 1 <= n <= |s|
  {
    if |s| >= 2 && IsHighSurrogate(s[0]) && IsLowSurrogate(s[1]) then 2 else 1
  }

  lemma {:induction false} EscapeAllStep(s: Text)
    requires s != []
    ensures EscapeAll(s) == (if Span(s) == 2 then s[..2] else EscapeUnit(s[0])) + EscapeAll(s[Span(s)..])
  {}

  lemma {:induction false} ReadsSpan(s: Text, decoded: Text, tail: Text, rest: Text)
    requires s != [] && ReadBody(tail) == Some(Literal(decoded, rest))
    ensures ReadBody((if Span(s) == 2 then s[..2] else EscapeUnit(s[0])) + tail)
         == Some(Literal(s[..Span(s)] + decoded, rest))
  {
    if Span(s) == 2 {
      ReadsPair(s[0], s[1], decoded, tail, rest);
      PairConcat(s[..2], tail);
      PairConcat(s[..2], decoded);
    } else {
      ReadsUnit(s[0], tail);
      assert s[..1] == [s[0]];
    }
  }

  /** Reading what was written gives the string back and stops where the string ends. */
  lemma {:induction false} ReadBodyOfEscaped(s: Text, end: Text, rest: Text)
    requires ReadBody(end) == Some(Literal([], rest))
    ensures ReadBody(EscapeAll(s) + end) == Some(Literal(s, rest))
  {
    if s == [] {
      assert EscapeAll(s) + end == end;
    } else {
      var n := Span(s);
      ReadBodyOfEscaped(s[n..], end, rest);
      ReadsSpan(s, s[n..], EscapeAll(s[n..]) + end, rest);
      EscapeAllStep(s);
      ConcatAssociative(if n == 2 then s[..2] else EscapeUnit(s[0]), EscapeAll(s[n..]), end);
      SplitAt(s, n);
    }
  }

  /** Quoted strings are prefix-free: the text determines the string and what follows it. */
  lemma {:induction false} QuotePrefixFree(s1: Text, s2: Text, rest1: Text, rest2: Text)
    requires Quote(s1) + rest1 == Quote(s2) + rest2
    ensures s1 == s2 && rest1 == rest2
  {
    var t1, t2 := EscapeAll(s1) + ([QUOTE] + rest1), EscapeAll(s2) + ([QUOTE] + rest2);
    assert Quote(s1) + rest1 == [QUOTE] + t1;
    assert Quote(s2) + rest2 == [QUOTE] + t2;
    assert t1 == ([QUOTE] + t1)[1..] == ([QUOTE] + t2)[1..] == t2;
    assert ([QUOTE] + rest1)[1..] == rest1 && ([QUOTE] + rest2)[1..] == rest2;
    ReadBodyOfEscaped(s1, [QUOTE] + rest1, rest1);
    ReadBodyOfEscaped(s2, [QUOTE] + rest2, rest2);
  }

  // -------- Which units are escaped, and how --------

  /** Either case of a hexadecimal digit is read, and nothing else. */
  lemma {:induction false} HexDigitsOfEitherCase(c: CodeUnit, d: nat)
    ensures HexValue(c) == Some(d) <==>
      d < 16 && (c == Ascii("0123456789abcdef")[d] || c == Ascii("0123456789ABCDEF")[d])
  {}

  /** Four digits are read from the first, which counts most. */
  lemma {:induction false} FourDigitsInOrder(t: Text, a: nat, b: nat, c: nat, d: nat)
    requires |t| == 4 && HexValue(t[0]) == Some(a) && HexValue(t[1]) == Some(b)
    requires HexValue(t[2]) == Some(c) && HexValue(t[3]) == Some(d)
    ensures ReadHex4(t) == Some(((a * 16 + b) * 16 + c) * 16 + d)
  {
    HexDigitsOfEitherCase(t[0], a);
    HexDigitsOfEitherCase(t[1], b);
    HexDigitsOfEitherCase(t[2], c);
    HexDigitsOfEitherCase(t[3], d);
  }

  /** The eight letters an escape may have besides `u`, and what they stand for. */
  lemma {:induction false} EscapeLetters(letter: CodeUnit, c: CodeUnit)
    ensures ShortUnescape(letter) == Some(c) <==>
      || (c == letter && letter in Ascii("\"\\/"))
      || (letter == Ascii("b")[0] && c == 8) || (letter == Ascii("t")[0] && c == 9)
      || (letter == Ascii("n")[0] && c == 10) || (letter == Ascii("f")[0] && c == 12)
      || (letter == Ascii("r")[0] && c == 13)
  {
    var table := Ascii("\"\\/");
    assert table[0] == QUOTE && table[1] == BACKSLASH && table[2] == SLASH;
  }

  predicate IsSurrogate(c: CodeUnit) {
    0xD800 <= c <= 0xDFFF
  }

  /** A unit on its own is escaped only where it must be, in two characters where there is a letter for it. */
  lemma {:induction false} EscapesAreShortest(c: CodeUnit)
    ensures EscapeUnit(c) == [c] <==> c >= 0x20 && c != 0x22 && c != 0x5C && !IsSurrogate(c)
    ensures |EscapeUnit(c)| == 2 <==> c in {0x22, 0x5C, 8, 9, 10, 12, 13}
    ensures |EscapeUnit(c)| in {1, 2, 6}
    ensures |EscapeUnit(c)| == 6 ==> forall i :: 2 <= i < 6 ==> EscapeUnit(c)[i] in Ascii("0123456789abcdef")
  {
    if |EscapeUnit(c)| == 6 {
      forall i | 2 <= i < 6 ensures EscapeUnit(c)[i] in Ascii("0123456789abcdef") {
        LowerHex(c / 4096);
        LowerHex(c / 256 % 16);
        LowerHex(c / 16 % 16);
        LowerHex(c % 16);
      }
    }
  }

  lemma {:induction false} LowerHex(d: nat)
    requires d < 16
    ensures HexDigit(d) in Ascii("0123456789abcdef")
  {
    assert Ascii("0123456789abcdef")[d] == HexDigit(d);
  }

  ghost predicate PairedAt(s: Text, i: nat)
    requires i < |s|
  {
    && (0xD800 <= s[i] <= 0xDBFF ==> i + 1 < |s| && 0xDC00 <= s[i + 1] <= 0xDFFF)
    && (0xDC00 <= s[i] <= 0xDFFF ==> i > 0 && 0xD800 <= s[i - 1] <= 0xDBFF)
  }

  /** Every high surrogate is followed by a low one, and every low one follows a high one. */
  ghost predicate WellPaired(s: Text) {
    forall i :: 0 <= i < |s| ==> PairedAt(s, i)
  }

  /** How many units stand together at the front: a pair, or one. */
  function Front(s: Text): nat
    requires s != []
  {
    if IsSurrogate(s[0]) then 2 else 1
  }

  lemma {:induction false} TailIsPaired(s: Text)
    requires s != [] && WellPaired(s)
    ensures Front(s) <= |s| && WellPaired(s[Front(s)..])
  {
    assert PairedAt(s, 0);
    if Front(s) == 2 { assert PairedAt(s, 1); }
    var n, tail := Front(s), s[Front(s)..];
    forall i | 0 <= i < |tail| ensures PairedAt(tail, i) {
      assert PairedAt(s, i + n) && tail[i] == s[i + n];
    }
  }

  lemma {:induction false} FrontIsKept(s: Text)
    requires s != [] && WellPaired(s) && s[0] >= 0x20 && s[0] != 0x22 && s[0] != 0x5C
    ensures Front(s) <= |s| && EscapeAll(s) == s[..Front(s)] + EscapeAll(s[Front(s)..])
  {
    EscapesAreShortest(s[0]);
    assert PairedAt(s, 0);
    assert Span(s) == Front(s);
    assert Front(s) == 1 ==> s[..1] == [s[0]];
  }

  /** A text that needs no escapes is quoted as it is, its surrogate pairs included. */
  lemma {:induction false} PlainTextIsKept(s: Text)
    requires WellPaired(s) && forall i :: 0 <= i < |s| ==> s[i] >= 0x20 && s[i] != 0x22 && s[i] != 0x5C
    ensures EscapeAll(s) == s
  {
    if s != [] {
      TailIsPaired(s);
      FrontIsKept(s);
      PlainTextIsKept(s[Front(s)..]);
      SplitAt(s, Front(s));
    }
  }
}
