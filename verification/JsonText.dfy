/**
 JSON string literals as JSON.stringify prints them, on UTF-16 code units:
 well-formed surrogate pairs stay raw, lone surrogates and control characters
 are escaped. Reading the literal back gives the string and the text after it.
 */
module JsonText {
  import opened Common

  const QUOTE: CodeUnit := 34
  const BACKSLASH: CodeUnit := 92
  const LOWER_U: CodeUnit := 117

  predicate HighSurrogate(u: CodeUnit) {
    0xd800 <= u <= 0xdbff
  }

  predicate LowSurrogate(u: CodeUnit) {
    0xdc00 <= u <= 0xdfff
  }

  predicate StartsWithPair(s: JsString) {
    |s| >= 2 && HighSurrogate(s[0]) && LowSurrogate(s[1])
  }

  function HexDigit(d: int): CodeUnit
    requires 0 <= d < 16
  {
    if d < 10 then 48 + d else 87 + d
  }

  function HexValue(c: CodeUnit): int {
    if 48 <= c <= 57 then c - 48 else if 97 <= c <= 102 then c - 87 else 0
  }

  function HexEscape(u: CodeUnit): JsString {
    [BACKSLASH, LOWER_U, HexDigit(u / 4096), HexDigit(u / 256 % 16), HexDigit(u / 16 % 16), HexDigit(u % 16)]
  }

  /** The letter after the backslash of a short escape. */
  function ShortEscape(u: CodeUnit): Option<CodeUnit> {
    if u == QUOTE then Some(QUOTE)
    else if u == BACKSLASH then Some(BACKSLASH)
    else if u == 8 then Some(98)
    else if u == 9 then Some(116)
    else if u == 10 then Some(110)
    else if u == 12 then Some(102)
    else if u == 13 then Some(114)
    else None
  }

  function ReadShortEscape(c: CodeUnit): CodeUnit {
    if c == 98 then 8 else if c == 116 then 9 else if c == 110 then 10 else if c == 102 then 12 else if c == 114 then 13 else c
  }

  function EscapeUnit(u: CodeUnit): (t: JsString)
    ensures t != [] && t[0] != QUOTE
  {
    if ShortEscape(u).Some? then [BACKSLASH, ShortEscape(u).value]
    else if u < 0x20 || HighSurrogate(u) || LowSurrogate(u) then HexEscape(u)
    else [u]
  }

  function Escape(s: JsString): JsString {
    if s == [] then []
    else if StartsWithPair(s) then s[..2] + Escape(s[2..])
    else EscapeUnit(s[0]) + Escape(s[1..])
  }

  /** `JSON.stringify` of a string. */
  function Quote(s: JsString): JsString {
    [QUOTE] + Escape(s) + [QUOTE]
  }

  /** One escaped or raw code unit at the front of a literal body, and what follows. */
  function ReadUnit(t: JsString): Option<(CodeUnit, JsString)> {
    if t == [] || t[0] == QUOTE then None
    else if t[0] != BACKSLASH then Some((t[0], t[1..]))
    else if |t| < 2 then None
    else if t[1] != LOWER_U then Some((ReadShortEscape(t[1]), t[2..]))
    else if |t| < 6 then None
    else
      var u := HexValue(t[2]) * 4096 + HexValue(t[3]) * 256 + HexValue(t[4]) * 16 + HexValue(t[5]);
      Some((u, t[6..]))
  }

  /** The string up to the closing quote, and the text after that quote. */
  function Unescape(t: JsString): Option<(JsString, JsString)>
    decreases |t|
  {
    if t != [] && t[0] == QUOTE then Some(([], t[1..]))
    else
      match ReadUnit(t)
      case None => None
      case Some((u, rest)) =>
        match Unescape(rest)
        case None => None
        case Some((s, after)) => Some(([u] + s, after))
  }

  lemma HexRoundTrip(u: CodeUnit)
    ensures HexValue(HexDigit(u / 4096)) == u / 4096 && HexValue(HexDigit(u / 256 % 16)) == u / 256 % 16
    ensures HexValue(HexDigit(u / 16 % 16)) == u / 16 % 16 && HexValue(HexDigit(u % 16)) == u % 16
    ensures u / 4096 * 4096 + u / 256 % 16 * 256 + u / 16 % 16 * 16 + u % 16 == u
  {
    assert u / 4096 == u / 256 / 16 && u / 256 == u / 16 / 16;
  }

  lemma ReadEscapedUnit(u: CodeUnit, rest: JsString)
    ensures ReadUnit(EscapeUnit(u) + rest) == Some((u, rest))
  {
    var e := EscapeUnit(u);
    var t := e + rest;
    assert t[|e|..] == rest;
    if |e| == 6 {
      HexRoundTrip(u);
      hide HexDigit;
      hide HexValue;
      assert t[2] == e[2] && t[3] == e[3] && t[4] == e[4] && t[5] == e[5];
    }
  }

  lemma UnescapeStep(u: CodeUnit, t: JsString, rest: JsString)
    requires ReadUnit(t) == Some((u, rest)) && Unescape(rest).Some?
    ensures Unescape(t) == Some(([u] + Unescape(rest).value.0, Unescape(rest).value.1))
  {
  }

  lemma RawUnit(u: CodeUnit, rest: JsString)
    requires u != QUOTE && u != BACKSLASH
    ensures ReadUnit([u] + rest) == Some((u, rest))
  {
    assert ([u] + rest)[1..] == rest;
  }

  /** Prepending one token to a body that reads back reads back. */
  lemma UnescapeToken(token: JsString, u: CodeUnit, s: JsString, body: JsString, after: JsString)
    requires ReadUnit(token + body) == Some((u, body)) && Unescape(body) == Some((s, after))
    ensures Unescape(token + body) == Some(([u] + s, after))
  {
    hide ReadUnit;
    UnescapeStep(u, token + body, body);
  }

  predicate LowerHex(c: CodeUnit) {
    48 <= c <= 57 || 97 <= c <= 102
  }

  /** What JSON.stringify prints for one code unit: a short escape for seven of them, four hexadecimal digits for the other controls and lone surrogates, the unit itself otherwise. */
  lemma EscapeUnitExact(u: CodeUnit)
    ensures EscapeUnit(34) + EscapeUnit(92) + EscapeUnit(8) + EscapeUnit(12) + EscapeUnit(10) + EscapeUnit(13) + EscapeUnit(9) == Ascii("\\\"\\\\\\b\\f\\n\\r\\t")
    ensures u !in {34, 92, 8, 12, 10, 13, 9} && (u < 0x20 || 0xd800 <= u <= 0xdfff) ==>
              var e := EscapeUnit(u);
              && |e| == 6 && e[..2] == Ascii("\\u") && LowerHex(e[2]) && LowerHex(e[3]) && LowerHex(e[4]) && LowerHex(e[5])
              && HexValue(e[2]) * 4096 + HexValue(e[3]) * 256 + HexValue(e[4]) * 16 + HexValue(e[5]) == u
    ensures u !in {34, 92} && u >= 0x20 && !(0xd800 <= u <= 0xdfff) ==> EscapeUnit(u) == [u]
  {
    HexRoundTrip(u);
    HexDigits(u);
  }

  lemma HexDigits(u: CodeUnit)
    ensures forall i :: 2 <= i < 6 ==> LowerHex(HexEscape(u)[i])
  {
  }

  lemma {:induction false} UnescapeInvertsEscape(s: JsString, after: JsString)
    ensures Unescape(Escape(s) + ([QUOTE] + after)) == Some((s, after))
    decreases |s|
  {
    hide ReadUnit;
    hide EscapeUnit;
    var tail := [QUOTE] + after;
    if s == [] {
      assert Escape(s) + tail == tail;
      assert tail[1..] == after;
    } else if StartsWithPair(s) {
      hide Unescape;
      UnescapeInvertsEscape(s[2..], after);
      var body := Escape(s[2..]) + tail;
      RawUnit(s[1], body);
      UnescapeToken([s[1]], s[1], s[2..], body, after);
      RawUnit(s[0], [s[1]] + body);
      UnescapeToken([s[0]], s[0], [s[1]] + s[2..], [s[1]] + body, after);
      assert s[..2] == [s[0]] + [s[1]];
      Assoc(s[..2], Escape(s[2..]), tail);
      Assoc([s[0]], [s[1]], body);
      Assoc([s[0]], [s[1]], s[2..]);
      assert s == s[..2] + s[2..];
    } else {
      hide Unescape;
      UnescapeInvertsEscape(s[1..], after);
      var body := Escape(s[1..]) + tail;
      ReadEscapedUnit(s[0], body);
      UnescapeToken(EscapeUnit(s[0]), s[0], s[1..], body, after);
      Assoc(EscapeUnit(s[0]), Escape(s[1..]), tail);
      Head(s);
    }
  }

  /** A quoted string at the front of a text determines the string and the rest of the text. */
  lemma QuotePrefixInjective(a: JsString, b: JsString, after: JsString, behind: JsString)
    requires Quote(a) + after == Quote(b) + behind
    ensures a == b && after == behind
  {
    hide Escape;
    hide Unescape;
    UnescapeInvertsEscape(a, after);
    UnescapeInvertsEscape(b, behind);
    QuoteTail(a, after);
    QuoteTail(b, behind);
  }

  lemma QuoteTail(a: JsString, after: JsString)
    ensures (Quote(a) + after)[0] == QUOTE && (Quote(a) + after)[1..] == Escape(a) + ([QUOTE] + after)
  {
    hide Escape;
    Assoc([QUOTE], Escape(a), [QUOTE]);
    Assoc([QUOTE], Escape(a) + [QUOTE], after);
    Assoc(Escape(a), [QUOTE], after);
    TailOfCons(QUOTE, Escape(a) + ([QUOTE] + after));
  }
}
