/**
 UTF-8 as TextEncoder writes it and a fatal TextDecoder reads it, on UTF-16 code
 units. The encoder replaces a lone surrogate by U+FFFD, so exactly the well-formed
 strings survive the round trip.
 */
module Utf8 {
  import opened Common
  import opened JsonText

  type Scalar = x: int | 0 <= x < 0xd800 || 0xe000 <= x < 0x11_0000

  predicate Surrogate(u: CodeUnit) {
    HighSurrogate(u) || LowSurrogate(u)
  }

  /** No lone surrogate. */
  predicate WellFormed(s: JsString) {
    if s == [] then true
    else if StartsWithPair(s) then WellFormed(s[2..])
    else !Surrogate(s[0]) && WellFormed(s[1..])
  }

  function PairScalar(high: CodeUnit, low: CodeUnit): (x: Scalar)
    requires HighSurrogate(high) && LowSurrogate(low)
    ensures 0x1_0000 <= x
  {
    0x1_0000 + (high - 0xd800) * 0x400 + (low - 0xdc00)
  }

  function Units(x: Scalar): JsString {
    if x < 0x1_0000 then [x] else [0xd800 + (x - 0x1_0000) / 0x400, 0xdc00 + (x - 0x1_0000) % 0x400]
  }

  function EncodeScalar(x: Scalar): Bytes {
    if x < 0x80 then [x]
    else if x < 0x800 then [0xc0 + x / 64, 0x80 + x % 64]
    else if x < 0x1_0000 then [0xe0 + x / 4096, 0x80 + x / 64 % 64, 0x80 + x % 64]
    else [0xf0 + x / 262144, 0x80 + x / 4096 % 64, 0x80 + x / 64 % 64, 0x80 + x % 64]
  }

  /** `new TextEncoder().encode(s)`. */
  function Encode(s: JsString): Bytes {
    if s == [] then []
    else if StartsWithPair(s) then EncodeScalar(PairScalar(s[0], s[1])) + Encode(s[2..])
    else EncodeScalar(if Surrogate(s[0]) then 0xfffd else s[0]) + Encode(s[1..])
  }

  /** The payload of the continuation byte at a position, negative when there is none. */
  function Payload(b: Bytes, i: nat): int {
    var byte: int := if i < |b| then b[i] else 0;
    byte - 0x80
  }

  predicate SixBit(b: int) {
    0 <= b < 0x40
  }

  /** The first scalar value of a byte sequence and how many bytes it takes; overlong, surrogate and out-of-range forms are refused. */
  function TakeScalar(b: Bytes): Option<(Scalar, nat)> {
    if b == [] then None
    else
      var lead: int := b[0];
      var b1 := Payload(b, 1);
      var b2 := Payload(b, 2);
      var b3 := Payload(b, 3);
      if lead < 0x80 then Some((lead, 1))
      else if 0xc2 <= lead < 0xe0 && SixBit(b1) then Some(((lead - 0xc0) * 64 + b1, 2))
      else if 0xe0 <= lead < 0xf0 && SixBit(b1) && SixBit(b2) then
        var x: int := (lead - 0xe0) * 4096 + b1 * 64 + b2;
        if x < 0x800 || 0xd800 <= x < 0xe000 then None else Some((x, 3))
      else if 0xf0 <= lead < 0xf5 && SixBit(b1) && SixBit(b2) && SixBit(b3) then
        var x: int := (lead - 0xf0) * 262144 + b1 * 4096 + b2 * 64 + b3;
        if x < 0x1_0000 || x >= 0x11_0000 then None else Some((x, 4))
      else None
  }

  /** `new TextDecoder("utf-8", { fatal: true, ignoreBOM: true }).decode(b)`, None for the thrown error. */
  function Decode(b: Bytes): Option<JsString>
    decreases |b|
  {
    if b == [] then Some([])
    else
      match TakeScalar(b)
      case None => None
      case Some((x, n)) =>
        match Decode(if n <= |b| then b[n..] else [])
        case None => None
        case Some(rest) => Some(Units(x) + rest)
  }

  lemma SixBits(x: nat)
    ensures x == x / 64 * 64 + x % 64
    ensures x / 64 == x / 4096 * 64 + x / 64 % 64
    ensures x / 4096 == x / 262144 * 64 + x / 4096 % 64
  {
    assert x / 4096 == x / 64 / 64 && x / 262144 == x / 4096 / 64;
  }

  lemma TakeEncoded(x: Scalar, rest: Bytes)
    ensures TakeScalar(EncodeScalar(x) + rest) == Some((x, |EncodeScalar(x)|))
    ensures (EncodeScalar(x) + rest)[|EncodeScalar(x)|..] == rest
  {
    SixBits(x);
    var e := EncodeScalar(x);
    var b := e + rest;
    assert forall i :: 0 <= i < |e| ==> b[i] == e[i];
  }

  lemma PairUnits(high: CodeUnit, low: CodeUnit)
    requires HighSurrogate(high) && LowSurrogate(low)
    ensures Units(PairScalar(high, low)) == [high, low]
  {
    var x := PairScalar(high, low) - 0x1_0000;
    assert x / 0x400 == high - 0xd800 && x % 0x400 == low - 0xdc00;
  }

  /** The string with every lone surrogate replaced. */
  function Repair(s: JsString): JsString {
    if s == [] then []
    else if StartsWithPair(s) then s[..2] + Repair(s[2..])
    else [if Surrogate(s[0]) then 0xfffd else s[0]] + Repair(s[1..])
  }

  lemma {:induction false} DecodeEncode(s: JsString)
    ensures Decode(Encode(s)) == Some(Repair(s))
    decreases |s|
  {
    hide TakeScalar;
    hide EncodeScalar;
    if s == [] {
    } else if StartsWithPair(s) {
      var x := PairScalar(s[0], s[1]);
      DecodeEncode(s[2..]);
      TakeEncoded(x, Encode(s[2..]));
      PairUnits(s[0], s[1]);
      assert s[..2] == [s[0], s[1]];
      DecodeStep(x, Encode(s[2..]));
    } else {
      var x: Scalar := if Surrogate(s[0]) then 0xfffd else s[0];
      DecodeEncode(s[1..]);
      DecodeStep(x, Encode(s[1..]));
    }
  }

  lemma DecodeStep(x: Scalar, rest: Bytes)
    requires Decode(rest).Some?
    ensures Decode(EncodeScalar(x) + rest) == Some(Units(x) + Decode(rest).value)
  {
    TakeEncoded(x, rest);
    var b := EncodeScalar(x) + rest;
    assert |b| > 0 && |EncodeScalar(x)| <= |b| by { assert |EncodeScalar(x)| > 0; }
    hide TakeScalar;
    hide EncodeScalar;
    hide Units;
  }

  lemma {:induction false} RepairExact(s: JsString)
    ensures |Repair(s)| == |s|
    ensures Repair(s) == s <==> WellFormed(s)
  {
    if s == [] {
    } else if StartsWithPair(s) {
      RepairExact(s[2..]);
      assert s == s[..2] + s[2..];
      if Repair(s) == s { assert Repair(s)[2..] == Repair(s[2..]); }
    } else {
      RepairExact(s[1..]);
      Head(s);
      assert Repair(s)[1..] == Repair(s[1..]) && Repair(s)[0] == (if Surrogate(s[0]) then 0xfffd else s[0]);
    }
  }

  /** A string survives encoding and decoding exactly when it has no lone surrogate. */
  lemma RoundTripExact(s: JsString)
    ensures Decode(Encode(s)) == Some(s) <==> WellFormed(s)
  {
    DecodeEncode(s);
    RepairExact(s);
  }

  /** On well-formed strings the encoding is injective. */
  lemma EncodeInjective(s: JsString, t: JsString)
    requires WellFormed(s) && WellFormed(t) && Encode(s) == Encode(t)
    ensures s == t
  {
    RoundTripExact(s);
    RoundTripExact(t);
  }
}
