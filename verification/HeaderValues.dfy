/**
 Header values of src/transport/HttpMetadata.ts: safe ASCII text travels as it is,
 anything else inside a base64 sentinel.
 */
module HeaderValues {
  import opened Common
  import Base64
  import Utf8

  const TAB: CodeUnit := 0x09
  const SPACE: CodeUnit := 0x20
  const EQUALS: CodeUnit := 0x3d

  const PREFIX: JsString := Ascii("=?base64?")
  const SUFFIX: JsString := Ascii("?=")

  predicate Blank(c: CodeUnit) {
    c == TAB || c == SPACE
  }

  predicate SafeUnit(c: CodeUnit) {
    c == TAB || 0x20 <= c <= 0x7e
  }

  /** `isPlainHeaderValue`. */
  predicate IsPlain(v: JsString) {
    v == [] || (!Blank(v[0]) && !Blank(v[|v| - 1]) && forall i :: 0 <= i < |v| ==> SafeUnit(v[i]))
  }

  predicate IsSentinel(v: JsString) {
    PREFIX <= v && |v| >= 2 && v[|v| - 2..] == SUFFIX
  }

  /** `bytesToBase64`: the standard alphabet with padding to a multiple of four. */
  function Pad(bytes: Bytes): JsString {
    Base64.Encode(false, bytes) + Padding(|bytes|)
  }

  function Padding(n: nat): JsString {
    if n % 3 == 1 then [EQUALS, EQUALS] else if n % 3 == 2 then [EQUALS] else []
  }

  function PaddingLength(p: JsString): nat {
    if |p| >= 2 && p[|p| - 1] == EQUALS && p[|p| - 2] == EQUALS then 2
    else if |p| >= 1 && p[|p| - 1] == EQUALS then 1
    else 0
  }

  /** The pattern test, `atob`, and the check that re-encoding gives the payload back. */
  function Unpad(p: JsString): Option<Bytes> {
    var digits := p[..|p| - PaddingLength(p)];
    if |p| % 4 != 0 || !Base64.AllDigits(false, digits) || |digits| % 4 == 1 then None
    else
      var bytes := Base64.DecodeDigits(false, digits);
      if Pad(bytes) == p then Some(bytes) else None
  }

  /** `encodeHeaderValue`. */
  function Encode(v: JsString): JsString {
    if IsPlain(v) && !IsSentinel(v) then v else PREFIX + Pad(Utf8.Encode(v)) + SUFFIX
  }

  /** `decodeHeaderValue`, None for a mismatch error. */
  function Decode(v: JsString): Option<JsString> {
    if !IsSentinel(v) then if IsPlain(v) then Some(v) else None
    else
      match Unpad(if |v| >= 11 then v[9..|v| - 2] else [])
      case None => None
      case Some(bytes) => Utf8.Decode(bytes)
  }

  lemma DigitIsNotEquals(t: JsString)
    requires Base64.AllDigits(false, t) && t != []
    ensures t[|t| - 1] != EQUALS
  {
  }

  /** A payload is accepted exactly when it is the padded encoding of some bytes, which are then the answer. */
  lemma UnpadExact(p: JsString, bytes: Bytes)
    ensures Unpad(p) == Some(bytes) <==> p == Pad(bytes)
  {
    if p == Pad(bytes) {
      UnpadInvertsPad(bytes);
    }
  }

  lemma PadShape(bytes: Bytes)
    ensures Base64.AllDigits(false, Base64.Encode(false, bytes))
    ensures |Base64.Encode(false, bytes)| % 4 != 1
    ensures |Pad(bytes)| % 4 == 0 && PaddingLength(Pad(bytes)) == |Padding(|bytes|)|
  {
    var e, n := Base64.Encode(false, bytes), |bytes|;
    Base64.EncodedShape(false, bytes);
    PaddedLength(n);
    hide Base64.Encode;
    hide Base64.AllDigits;
    hide PaddingLength;
    assert |e| > 0 || n == 0;
    PaddingFound(e, n);
    hide Padding;
    assert |Pad(bytes)| == |e| + |Padding(n)|;
  }

  lemma PaddingFound(e: JsString, n: nat)
    requires Base64.AllDigits(false, e) && (n % 3 == 0 || e != [])
    ensures PaddingLength(e + Padding(n)) == |Padding(n)|
  {
    var p := e + Padding(n);
    if e != [] { DigitIsNotEquals(e); }
    hide Base64.AllDigits;
    if n % 3 == 0 {
      assert p == e;
    } else if n % 3 == 1 {
      assert p[|p| - 1] == EQUALS && p[|p| - 2] == EQUALS;
    } else {
      assert p[|p| - 1] == EQUALS && p[|p| - 2] == e[|e| - 1];
    }
  }

  lemma PaddedLength(n: nat)
    ensures ((n * 4 + 2) / 3 + |Padding(n)|) % 4 == 0
    ensures n > 0 ==> (n * 4 + 2) / 3 >= 2
  {
    var k := n / 3;
    if n % 3 == 0 {
      assert n * 4 + 2 == 3 * (4 * k) + 2;
    } else if n % 3 == 1 {
      assert n * 4 + 2 == 3 * (4 * k + 2);
    } else {
      assert n * 4 + 2 == 3 * (4 * k + 3) + 1;
    }
  }

  lemma UnpadInvertsPad(bytes: Bytes)
    ensures Unpad(Pad(bytes)) == Some(bytes)
  {
    PadShape(bytes);
    Base64.DigitsInvertEncode(false, bytes);
    var e := Base64.Encode(false, bytes);
    assert Pad(bytes)[..|Pad(bytes)| - |Padding(|bytes|)|] == e;
  }

  lemma PlainIsWellFormed(v: JsString)
    requires forall i :: 0 <= i < |v| ==> SafeUnit(v[i])
    ensures Utf8.WellFormed(v)
  {
    if v != [] {
      PlainIsWellFormed(v[1..]);
    }
  }

  lemma SentinelRoundTrip(v: JsString)
    ensures var s := PREFIX + Pad(Utf8.Encode(v)) + SUFFIX;
            IsSentinel(s) && Decode(s) == Utf8.Decode(Utf8.Encode(v))
  {
    var payload := Pad(Utf8.Encode(v));
    var s := PREFIX + payload + SUFFIX;
    assert s[9..|s| - 2] == payload;
    assert s[|s| - 2..] == SUFFIX;
    assert s[..9] == PREFIX;
    UnpadInvertsPad(Utf8.Encode(v));
    hide Unpad;
    hide Pad;
  }

  /** Decoding undoes encoding, sentinel-looking values included, exactly for strings without a lone surrogate. */
  lemma RoundTripExact(v: JsString)
    ensures Decode(Encode(v)) == Some(v) <==> Utf8.WellFormed(v)
  {
    if IsPlain(v) && !IsSentinel(v) {
      PlainIsWellFormed(v);
    } else {
      SentinelRoundTrip(v);
      Utf8.RoundTripExact(v);
    }
  }

  /** Whatever the value, what is sent is a safe ASCII header value that no proxy trims. */
  lemma EncodedIsPlain(v: JsString)
    ensures IsPlain(Encode(v))
  {
    if !(IsPlain(v) && !IsSentinel(v)) {
      var payload := Pad(Utf8.Encode(v));
      forall i | 0 <= i < |payload| ensures SafeUnit(payload[i]) {
        PayloadSafe(Utf8.Encode(v), i);
      }
      hide Pad;
      WrappedIsPlain(payload);
    }
  }

  lemma WrappedIsPlain(payload: JsString)
    requires forall i :: 0 <= i < |payload| ==> SafeUnit(payload[i])
    ensures IsPlain(PREFIX + payload + SUFFIX)
  {
    var s := PREFIX + payload + SUFFIX;
    forall i | 0 <= i < |s| ensures SafeUnit(s[i]) {
      if i < 9 {
        assert s[i] == PREFIX[i];
      } else if i < 9 + |payload| {
        assert s[i] == payload[i - 9];
      } else {
        assert s[i] == SUFFIX[i - 9 - |payload|];
      }
    }
  }

  lemma PayloadSafe(bytes: Bytes, i: nat)
    requires i < |Pad(bytes)|
    ensures SafeUnit(Pad(bytes)[i])
  {
    PadShape(bytes);
    var e := Base64.Encode(false, bytes);
    if i < |e| {
      assert Base64.Value(false, e[i]).Some?;
    }
  }

  predicate SentinelForm(v: JsString) {
    Ascii("=?base64?") <= v && |v| >= 2 && v[|v| - 2..] == Ascii("?=")
  }

  /** Text that a header carries as it is: printable ASCII and tabs, no blank at either end, and not of the sentinel's form. */
  predicate Travels(v: JsString) {
    && (forall i :: 0 <= i < |v| ==> v[i] == 9 || 32 <= v[i] <= 126)
    && (v != [] ==> v[0] != 9 && v[0] != 32 && v[|v| - 1] != 9 && v[|v| - 1] != 32)
    && !SentinelForm(v)
  }

  /** Exactly such text travels unchanged; anything else inside the sentinel. */
  lemma PlainTravels(v: JsString) returns (payload: JsString)
    ensures Travels(v) ==> Encode(v) == v
    ensures !Travels(v) ==> Encode(v) == Ascii("=?base64?") + payload + Ascii("?=") && Unpad(payload) == Some(Utf8.Encode(v))
  {
    payload := Pad(Utf8.Encode(v));
    UnpadExact(payload, Utf8.Encode(v));
    hide Pad;
    hide Unpad;
    hide Utf8.Encode;
    hide Ascii;
  }
}
