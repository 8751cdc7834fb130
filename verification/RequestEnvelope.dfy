/**
 The envelope and the bindings of src/RequestState.ts: which plaintexts are read back
 as an envelope, and the additional data that ties a token to a principal and a purpose.
 */
module RequestEnvelope {
  import opened Common
  import Base64
  import Decimal
  import JsonText
  import Utf8

  const VERSION: Byte := 1
  const NONCE_BYTES := 16
  const MAX_STATE_BYTES := 8_192
  const MAX_BINDING_BYTES := 256
  const MAX_SAFE: int := 0x1F_FFFF_FFFF_FFFF

  datatype Envelope = Envelope(iat: nat, exp: nat, n: JsString, state: JsString)

  /** The fixed parts of the envelope text. */
  const OPENING: JsString := Ascii("{\"v\":1,\"iat\":")
  const EXP: JsString := Ascii(",\"exp\":")
  const NONCE: JsString := Ascii(",\"n\":")
  const STATE: JsString := Ascii(",\"state\":")
  const CLOSING: JsString := Ascii("}")

  /** The UTF-8 byte order mark, which the decoder drops. */
  const MARK: Bytes := [0xef, 0xbb, 0xbf]

  /** `JSON.stringify({ v: 1, iat, exp, n, state })`. */
  function Text(e: Envelope): JsString {
    OPENING + (Decimal.Print(e.iat) + (EXP + (Decimal.Print(e.exp) + (NONCE + (JsonText.Quote(e.n) + (STATE + (JsonText.Quote(e.state) + CLOSING)))))))
  }

  predicate StateAllowed(state: JsString) {
    Utf8.WellFormed(state) && |Utf8.Encode(state)| <= MAX_STATE_BYTES
  }

  predicate NonceText(n: JsString) {
    match Base64.Decode(true, n)
    case None => false
    case Some(bytes) => |bytes| == NONCE_BYTES
  }

  /** What `parseEnvelope` demands of the fields. */
  predicate Valid(e: Envelope) {
    e.iat < e.exp <= MAX_SAFE && NonceText(e.n) && StateAllowed(e.state)
  }

  // ----- reading -----

  function Expect(t: JsString, literal: JsString): Option<JsString> {
    if literal <= t then Some(t[|literal|..]) else None
  }

  /** How many digits a text starts with. */
  function DigitSpan(t: JsString): (k: nat)
    ensures k <= |t| && Decimal.AllDigits(t[..k])
  {
    if t == [] || !Decimal.IsDigit(t[0]) then 0
    else
      var k := DigitSpan(t[1..]);
      assert t[..k + 1] == [t[0]] + t[1..][..k];
      k + 1
  }

  /** A number after a literal, and the text behind it. */
  function Number(t: JsString, literal: JsString): Option<(nat, JsString)> {
    match Expect(t, literal)
    case None => None
    case Some(rest) => Some((Decimal.Nat(rest[..DigitSpan(rest)]), rest[DigitSpan(rest)..]))
  }

  /** A string after a literal, and the text behind it. */
  function Quoted(t: JsString, literal: JsString): Option<(JsString, JsString)> {
    match Expect(t, literal + [JsonText.QUOTE])
    case None => None
    case Some(rest) => JsonText.Unescape(rest)
  }

  /** The fields of a text laid out as `JSON.stringify` lays it out. Any other layout fails the comparison in `Parse` anyway. */
  function Read(t: JsString): Option<Envelope> {
    match Number(t, OPENING)
    case None => None
    case Some((iat, t1)) =>
      match Number(t1, EXP)
      case None => None
      case Some((exp, t2)) =>
        match Quoted(t2, NONCE)
        case None => None
        case Some((n, t3)) =>
          match Quoted(t3, STATE)
          case None => None
          case Some((state, _)) => Some(Envelope(iat, exp, n, state))
  }

  /** The fatal decoder of the source, which drops one leading byte order mark. */
  function DecodeText(bytes: Bytes): Option<JsString> {
    Utf8.Decode(if MARK <= bytes then bytes[3..] else bytes)
  }

  /** `parseEnvelope`: valid fields that print back as the very text. */
  function Parse(bytes: Bytes): Option<Envelope> {
    match DecodeText(bytes)
    case None => None
    case Some(t) =>
      match Read(t)
      case None => None
      case Some(e) => if Valid(e) && Text(e) == t then Some(e) else None
  }

  lemma NumberReads(n: nat, literal: JsString, rest: JsString)
    requires rest != [] && !Decimal.IsDigit(rest[0])
    ensures Number(literal + (Decimal.Print(n) + rest), literal) == Some((n, rest))
  {
    var d := Decimal.Print(n);
    var t := literal + (d + rest);
    assert t[|literal|..] == d + rest;
    SpanOfDigits(d, rest);
    assert (d + rest)[..|d|] == d && (d + rest)[|d|..] == rest;
  }

  lemma {:induction false} SpanOfDigits(d: JsString, rest: JsString)
    requires Decimal.AllDigits(d) && rest != [] && !Decimal.IsDigit(rest[0])
    ensures DigitSpan(d + rest) == |d|
  {
    if d == [] {
      assert d + rest == rest;
    } else {
      assert (d + rest)[1..] == d[1..] + rest;
      SpanOfDigits(d[1..], rest);
    }
  }

  lemma QuotedReads(s: JsString, literal: JsString, rest: JsString)
    ensures Quoted(literal + (JsonText.Quote(s) + rest), literal) == Some((s, rest))
  {
    hide JsonText.Unescape;
    hide JsonText.Escape;
    var q: JsString := [JsonText.QUOTE];
    var body := JsonText.Escape(s) + (q + rest);
    var t := literal + (JsonText.Quote(s) + rest);
    assert t == (literal + q) + body;
    assert t[|literal + q|..] == body;
    JsonText.UnescapeInvertsEscape(s, rest);
  }

  lemma ReadInvertsText(e: Envelope)
    ensures Read(Text(e)) == Some(e)
  {
    hide Number;
    hide Quoted;
    hide JsonText.Quote;
    var t4 := CLOSING;
    var t3 := STATE + (JsonText.Quote(e.state) + t4);
    var t2 := NONCE + (JsonText.Quote(e.n) + t3);
    var t1 := EXP + (Decimal.Print(e.exp) + t2);
    QuotedReads(e.state, STATE, t4);
    QuotedReads(e.n, NONCE, t3);
    NumberReads(e.exp, EXP, t2);
    NumberReads(e.iat, OPENING, t1);
  }

  /** A printed envelope starts with an ASCII brace, so the decoder finds no mark to drop. */
  lemma NoMark(e: Envelope)
    ensures !(MARK <= Utf8.Encode(Text(e)))
  {
    var t := Text(e);
    assert t[0] == 123;
    assert Utf8.Encode(t) == Utf8.EncodeScalar(123) + Utf8.Encode(t[1..]);
    assert Utf8.Encode(t)[0] == 123;
  }

  lemma PrintWellFormed(n: nat, rest: JsString)
    requires Utf8.WellFormed(rest)
    ensures Utf8.WellFormed(Decimal.Print(n) + rest)
  {
    AsciiWellFormed(Decimal.Print(n), rest);
  }

  lemma {:induction false} AsciiWellFormed(a: JsString, rest: JsString)
    requires Utf8.WellFormed(rest) && forall i :: 0 <= i < |a| ==> a[i] < 0x80
    ensures Utf8.WellFormed(a + rest)
  {
    if a == [] {
      assert a + rest == rest;
    } else {
      assert (a + rest)[1..] == a[1..] + rest;
      AsciiWellFormed(a[1..], rest);
    }
  }

  lemma {:induction false} EscapeWellFormed(s: JsString, rest: JsString)
    requires Utf8.WellFormed(rest)
    ensures Utf8.WellFormed(JsonText.Escape(s) + rest)
    decreases |s|
  {
    if s == [] {
      assert JsonText.Escape(s) + rest == rest;
    } else if JsonText.StartsWithPair(s) {
      EscapeWellFormed(s[2..], rest);
      var tail := JsonText.Escape(s[2..]) + rest;
      Assoc(s[..2], JsonText.Escape(s[2..]), rest);
      assert (s[..2] + tail)[2..] == tail;
    } else {
      EscapeWellFormed(s[1..], rest);
      var tail := JsonText.Escape(s[1..]) + rest;
      Assoc(JsonText.EscapeUnit(s[0]), JsonText.Escape(s[1..]), rest);
      UnitWellFormed(s[0], tail);
    }
  }

  lemma UnitWellFormed(u: CodeUnit, tail: JsString)
    requires Utf8.WellFormed(tail)
    ensures Utf8.WellFormed(JsonText.EscapeUnit(u) + tail)
  {
    if JsonText.ShortEscape(u).Some? || u < 0x20 || Utf8.Surrogate(u) {
      AsciiWellFormed(JsonText.EscapeUnit(u), tail);
    } else {
      TailOfCons(u, tail);
    }
  }

  lemma QuoteWellFormed(s: JsString, rest: JsString)
    requires Utf8.WellFormed(rest)
    ensures Utf8.WellFormed(JsonText.Quote(s) + rest)
  {
    var q: JsString := [JsonText.QUOTE];
    AsciiWellFormed(q, rest);
    EscapeWellFormed(s, q + rest);
    AsciiWellFormed(q, JsonText.Escape(s) + (q + rest));
    assert JsonText.Quote(s) + rest == q + (JsonText.Escape(s) + (q + rest));
  }

  lemma ClosingWellFormed()
    ensures Utf8.WellFormed(CLOSING)
  {
    assert CLOSING[1..] == [];
  }

  /** Whatever the state, the printed envelope has no lone surrogate. */
  lemma TextWellFormed(e: Envelope)
    ensures Utf8.WellFormed(Text(e))
  {
    hide JsonText.Quote;
    hide Utf8.WellFormed;
    var t4 := CLOSING;
    ClosingWellFormed();
    var t3 := JsonText.Quote(e.state) + t4;
    QuoteWellFormed(e.state, t4);
    AsciiWellFormed(STATE, t3);
    var t2 := JsonText.Quote(e.n) + (STATE + t3);
    QuoteWellFormed(e.n, STATE + t3);
    AsciiWellFormed(NONCE, t2);
    var t1 := Decimal.Print(e.exp) + (NONCE + t2);
    PrintWellFormed(e.exp, NONCE + t2);
    AsciiWellFormed(EXP, t1);
    PrintWellFormed(e.iat, EXP + t1);
    AsciiWellFormed(OPENING, Decimal.Print(e.iat) + (EXP + t1));
  }

  lemma {:induction false} DecodedWellFormed(bytes: Bytes, t: JsString)
    requires Utf8.Decode(bytes) == Some(t)
    ensures Utf8.Encode(t) == bytes
    decreases |bytes|
  {
    hide *;
    if bytes == [] {
      DecodedNothing(t);
    } else {
      DecodedFront(bytes, t);
      var (x, n) := Utf8.TakeScalar(bytes).value;
      TakenScalar(bytes);
      var rest := Utf8.Decode(bytes[n..]).value;
      DecodedWellFormed(bytes[n..], rest);
      EncodeUnits(x, rest, bytes[n..]);
      assert bytes == bytes[..n] + bytes[n..];
    }
  }

  lemma DecodedNothing(t: JsString)
    requires Utf8.Decode([]) == Some(t)
    ensures Utf8.Encode(t) == []
  {
  }

  lemma DecodedFront(bytes: Bytes, t: JsString)
    requires Utf8.Decode(bytes) == Some(t) && bytes != []
    ensures Utf8.TakeScalar(bytes).Some?
    ensures var (x, n) := Utf8.TakeScalar(bytes).value;
            n <= |bytes| && Utf8.Decode(bytes[n..]).Some? && t == Utf8.Units(x) + Utf8.Decode(bytes[n..]).value
  {
    TakenScalar(bytes);
    hide Utf8.TakeScalar;
    hide Utf8.Units;
  }

  lemma SixBitDigits(a: nat, b: nat)
    requires b < 64
    ensures (a * 64 + b) / 64 == a && (a * 64 + b) % 64 == b
  {
  }

  /** The digits of a number written in groups of six bits. */
  lemma Groups(a: nat, b: nat, c: nat, d: nat)
    requires b < 64 && c < 64 && d < 64
    ensures var x := ((a * 64 + b) * 64 + c) * 64 + d;
            x % 64 == d && x / 64 % 64 == c && x / 64 == (a * 64 + b) * 64 + c
            && x / 4096 % 64 == b && x / 4096 == a * 64 + b && x / 262144 == a
  {
    var x := ((a * 64 + b) * 64 + c) * 64 + d;
    SixBitDigits((a * 64 + b) * 64 + c, d);
    SixBitDigits(a * 64 + b, c);
    SixBitDigits(a, b);
    assert x / 4096 == x / 64 / 64 && x / 262144 == x / 4096 / 64;
  }

  lemma TakenThree(lead: Byte, b1: Byte, b2: Byte)
    requires 0xe0 <= lead < 0xf0 && 0x80 <= b1 < 0xc0 && 0x80 <= b2 < 0xc0
    ensures var x: int := (lead - 0xe0) * 4096 + (b1 - 0x80) * 64 + (b2 - 0x80);
            0x800 <= x && !(0xd800 <= x < 0xe000) ==> Utf8.EncodeScalar(x) == [lead, b1, b2]
  {
    Groups(0, lead - 0xe0, b1 - 0x80, b2 - 0x80);
  }

  lemma TakenFour(lead: Byte, b1: Byte, b2: Byte, b3: Byte)
    requires 0xf0 <= lead < 0xf5 && 0x80 <= b1 < 0xc0 && 0x80 <= b2 < 0xc0 && 0x80 <= b3 < 0xc0
    ensures var x: int := (lead - 0xf0) * 262144 + (b1 - 0x80) * 4096 + (b2 - 0x80) * 64 + (b3 - 0x80);
            0x1_0000 <= x < 0x11_0000 ==> Utf8.EncodeScalar(x) == [lead, b1, b2, b3]
  {
    Groups(lead - 0xf0, b1 - 0x80, b2 - 0x80, b3 - 0x80);
  }

  /** A scalar read at the front is the one whose encoding stands there. */
  lemma TakenScalar(b: Bytes)
    requires Utf8.TakeScalar(b).Some?
    ensures var (x, n) := Utf8.TakeScalar(b).value; 0 < n <= |b| && b[..n] == Utf8.EncodeScalar(x)
  {
    var (x, n) := Utf8.TakeScalar(b).value;
    var lead: int := b[0];
    if n == 1 {
      assert b[..1] == [lead];
    } else if n == 2 {
      assert |b| >= 2;
      SixBitDigits(lead - 0xc0, b[1] - 0x80);
      assert b[..2] == [lead, b[1]];
    } else if n == 3 {
      assert |b| >= 3;
      hide Utf8.EncodeScalar;
      TakenThree(lead, b[1], b[2]);
      assert b[..3] == [lead, b[1], b[2]];
    } else {
      assert |b| >= 4;
      hide Utf8.EncodeScalar;
      TakenFour(lead, b[1], b[2], b[3]);
      assert b[..4] == [lead, b[1], b[2], b[3]];
    }
  }

  lemma EncodeUnits(x: Utf8.Scalar, rest: JsString, tail: Bytes)
    requires Utf8.Encode(rest) == tail
    ensures Utf8.Encode(Utf8.Units(x) + rest) == Utf8.EncodeScalar(x) + tail
  {
    hide Utf8.EncodeScalar;
    var s := Utf8.Units(x) + rest;
    if x < 0x1_0000 {
      assert s[0] == x && s[1..] == rest;
    } else {
      assert s[2..] == rest;
    }
  }

  /** Exactly the printed envelopes with valid fields are read, with or without a leading byte order mark. */
  lemma ParseExact(bytes: Bytes, e: Envelope)
    ensures Parse(bytes) == Some(e) <==>
            Valid(e) && (bytes == Utf8.Encode(Text(e)) || bytes == MARK + Utf8.Encode(Text(e)))
  {
    hide Text;
    hide Valid;
    hide Read;
    hide Utf8.Decode;
    hide Utf8.Encode;
    var body := if MARK <= bytes then bytes[3..] else bytes;
    ReadInvertsText(e);
    TextWellFormed(e);
    Utf8.RoundTripExact(Text(e));
    NoMark(e);
    if Parse(bytes) == Some(e) {
      DecodedWellFormed(body, Text(e));
      if MARK <= bytes { assert bytes == MARK + body; }
    }
    if bytes == MARK + Utf8.Encode(Text(e)) {
      assert body == Utf8.Encode(Text(e));
    }
  }

  // ----- bindings -----

  /** `binding`, None for InvalidInput. */
  function Bound(value: JsString): Option<Bytes> {
    if value == [] || !Utf8.WellFormed(value) || |Utf8.Encode(value)| > MAX_BINDING_BYTES then None
    else Some(Utf8.Encode(value))
  }

  /** `setUint16`, big-endian. */
  function Uint16(n: nat): (b: Bytes)
    ensures |b| == 2
  {
    [n / 256 % 256, n % 256]
  }

  function AdditionalData(principal: Bytes, purpose: Bytes): Bytes {
    [VERSION] + Uint16(|principal|) + principal + Uint16(|purpose|) + purpose
  }

  /** The length prefixes keep (ab, c) apart from (a, bc): no two pairs of bindings share additional data. */
  lemma AdditionalDataInjective(p: Bytes, q: Bytes, r: Bytes, s: Bytes)
    requires |p| < 0x1_0000 && |r| < 0x1_0000
    requires AdditionalData(p, q) == AdditionalData(r, s)
    ensures p == r && q == s
  {
    var a := AdditionalData(p, q);
    SplitData(p, q);
    SplitData(r, s);
    hide AdditionalData;
    LengthsAgree(|p|, |r|);
    hide Uint16;
    assert a[3..3 + |p|] == p && a[5 + |p|..] == q;
  }

  lemma SplitData(p: Bytes, q: Bytes)
    ensures var a := AdditionalData(p, q);
            |a| == 5 + |p| + |q| && a[1..3] == Uint16(|p|) && a[3..3 + |p|] == p && a[5 + |p|..] == q
  {
    hide Uint16;
  }

  lemma LengthsAgree(m: nat, n: nat)
    requires m < 0x1_0000 && n < 0x1_0000 && Uint16(m) == Uint16(n)
    ensures m == n
  {
    assert Uint16(m)[0] == m / 256 && Uint16(n)[0] == n / 256;
    assert Uint16(m)[1] == m % 256 && Uint16(n)[1] == n % 256;
  }

  /** A principal and a purpose are determined by the additional data made of them. */
  lemma BindingsDetermined(principal: JsString, purpose: JsString, principal': JsString, purpose': JsString)
    requires Bound(principal).Some? && Bound(purpose).Some? && Bound(principal').Some? && Bound(purpose').Some?
    ensures AdditionalData(Bound(principal).value, Bound(purpose).value) == AdditionalData(Bound(principal').value, Bound(purpose').value)
       <==> principal == principal' && purpose == purpose'
  {
    hide AdditionalData;
    hide Utf8.Encode;
    hide Utf8.WellFormed;
    var p, q, r, s := Bound(principal).value, Bound(purpose).value, Bound(principal').value, Bound(purpose').value;
    if AdditionalData(p, q) == AdditionalData(r, s) {
      AdditionalDataInjective(p, q, r, s);
      Utf8.EncodeInjective(principal, principal');
      Utf8.EncodeInjective(purpose, purpose');
    }
  }

  /** `output.set(source, offset)`. */
  method Set(output: array<Byte>, offset: nat, source: Bytes)
    requires offset + |source| <= output.Length
    modifies output
    ensures output[..] == old(output[..offset]) + source + old(output[offset + |source|..])
  {
    for i := 0 to |source|
      invariant output[..offset] == old(output[..offset])
      invariant output[offset..offset + i] == source[..i]
      invariant output[offset + i..] == old(output[offset + i..])
    {
      output[offset + i] := source[i];
      assert output[offset..offset + i + 1] == output[offset..offset + i] + [source[i]];
    }
    assert output[..] == output[..offset] + output[offset..offset + |source|] + output[offset + |source|..];
  }

  /** `additionalData`: one buffer filled in place. */
  method FillAdditionalData(principal: Bytes, purpose: Bytes) returns (output: array<Byte>)
    ensures fresh(output) && output[..] == AdditionalData(principal, purpose)
  {
    hide Uint16;
    var n, m := |principal|, |purpose|;
    output := new Byte[5 + n + m](_ => 0);
    output[0] := VERSION;
    Set(output, 1, Uint16(n));
    assert output[..3] == [VERSION] + Uint16(n);
    Set(output, 3, principal);
    assert output[..3 + n] == [VERSION] + Uint16(n) + principal;
    Set(output, 3 + n, Uint16(m));
    assert output[..5 + n] == [VERSION] + Uint16(n) + principal + Uint16(m);
    Set(output, 5 + n, purpose);
    assert output[..] == [VERSION] + Uint16(n) + principal + Uint16(m) + purpose;
  }

  /** `isWellFormedString`: the index skips over each pair. */
  method IsWellFormedString(value: JsString) returns (wellFormed: bool)
    ensures wellFormed == Utf8.WellFormed(value)
  {
    var index := 0;
    assert value[0..] == value;
    while index < |value|
      invariant 0 <= index <= |value|
      invariant Utf8.WellFormed(value) == Utf8.WellFormed(value[index..])
      decreases |value| - index
    {
      var unit := value[index];
      var rest := value[index..];
      if 0xd800 <= unit <= 0xdbff {
        if index + 1 >= |value| {
          return false;
        }
        var next := value[index + 1];
        if next < 0xdc00 || next > 0xdfff {
          return false;
        }
        assert rest[2..] == value[index + 2..];
        index := index + 1;
      } else if 0xdc00 <= unit <= 0xdfff {
        return false;
      } else {
        assert rest[1..] == value[index + 1..];
      }
      index := index + 1;
    }
    assert value[index..] == [];
    return true;
  }
}
