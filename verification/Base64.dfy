/**
 Base64 as src/RequestState.ts (section 5 of RFC 4648, unpadded) and
 src/transport/HttpMetadata.ts (section 4, padded) use it: an exact inverse pair.
 `url` selects the alphabet.
 */
module Base64 {
  import opened Common

  function Digit(url: bool, d: nat): (c: CodeUnit)
    requires d < 64
    ensures Value(url, c) == Some(d)
  {
    if d < 26 then 65 + d
    else if d < 52 then 71 + d
    else if d < 62 then d - 4
    else if d == 62 then if url then 45 else 43
    else if url then 95 else 47
  }

  /** `BASE64URL.indexOf`. */
  function Value(url: bool, c: CodeUnit): (d: Option<nat>)
    ensures d.Some? ==> d.value < 64
  {
    if 65 <= c <= 90 then Some(c - 65)
    else if 97 <= c <= 122 then Some(c - 71)
    else if 48 <= c <= 57 then Some(c + 4)
    else if c == (if url then 45 else 43) then Some(62)
    else if c == (if url then 95 else 47) then Some(63)
    else None
  }

  lemma DigitOfValue(url: bool, c: CodeUnit)
    requires Value(url, c).Some?
    ensures Digit(url, Value(url, c).value) == c
  {
  }

  /** The two alphabets of RFC 4648, as they are written there in Tables 1 and 2. */
  function Alphabet(url: bool): JsString {
    Ascii("ABCDEFGHIJKLMNOPQRSTUVWXYZ") + Ascii("abcdefghijklmnopqrstuvwxyz") + Ascii("0123456789") + Ascii(if url then "-_" else "+/")
  }

  lemma AlphabetParts(d: nat, url: bool)
    ensures d < 26 ==> Ascii("ABCDEFGHIJKLMNOPQRSTUVWXYZ")[d] == 65 + d && Ascii("abcdefghijklmnopqrstuvwxyz")[d] == 97 + d
    ensures d < 10 ==> Ascii("0123456789")[d] == 48 + d
    ensures Ascii(if url then "-_" else "+/") == if url then [45, 95] else [43, 47]
  {
    assert forall i :: 0 <= i < 26 ==> "ABCDEFGHIJKLMNOPQRSTUVWXYZ"[i] as int == 65 + i;
    assert forall i :: 0 <= i < 26 ==> "abcdefghijklmnopqrstuvwxyz"[i] as int == 97 + i;
    assert forall i :: 0 <= i < 10 ==> "0123456789"[i] as int == 48 + i;
  }

  /** Digits are the characters of the alphabet, by position, and no other character has a value. */
  lemma AlphabetExact(url: bool, c: CodeUnit, d: nat)
    ensures |Alphabet(url)| == 64
    ensures Value(url, c) == Some(d) <==> d < 64 && Alphabet(url)[d] == c
    ensures d < 64 ==> Digit(url, d) == Alphabet(url)[d]
  {
    AlphabetParts(if d < 26 then d else if d < 52 then d - 26 else if d < 62 then d - 52 else 0, url);
    hide Ascii;
  }

  predicate AllDigits(url: bool, t: JsString) {
    forall i :: 0 <= i < |t| ==> Value(url, t[i]).Some?
  }

  /** One group of up to three bytes: two, three or four digits. */
  function EncodeGroup(url: bool, g: Bytes): JsString
    requires 1 <= |g| <= 3
  {
    var a := g[0];
    var b := if |g| > 1 then g[1] else 0;
    var c := if |g| > 2 then g[2] else 0;
    var first, second := Digit(url, a / 4), Digit(url, a % 4 * 16 + b / 16);
    if |g| == 1 then [first, second]
    else if |g| == 2 then [first, second, Digit(url, b % 16 * 4 + c / 64)]
    else [first, second, Digit(url, b % 16 * 4 + c / 64), Digit(url, c % 64)]
  }

  function Encode(url: bool, bytes: Bytes): JsString {
    if bytes == [] then []
    else if |bytes| <= 3 then EncodeGroup(url, bytes)
    else EncodeGroup(url, bytes[..3]) + Encode(url, bytes[3..])
  }

  /** The bytes of one group of two to four digits; spare bits are ignored. */
  function DecodeGroup(url: bool, g: JsString): (r: Bytes)
    requires 2 <= |g| <= 4 && AllDigits(url, g)
    ensures |r| == |g| - 1
  {
    var a, b := Value(url, g[0]).value, Value(url, g[1]).value;
    var c := if |g| > 2 then Value(url, g[2]).value else 0;
    var d := if |g| > 3 then Value(url, g[3]).value else 0;
    if |g| == 2 then [a * 4 + b / 16]
    else if |g| == 3 then [a * 4 + b / 16, b % 16 * 16 + c / 4]
    else [a * 4 + b / 16, b % 16 * 16 + c / 4, c % 4 * 64 + d]
  }

  function DecodeDigits(url: bool, t: JsString): Bytes
    requires AllDigits(url, t) && |t| % 4 != 1
  {
    if t == [] then []
    else if |t| <= 4 then DecodeGroup(url, t)
    else DecodeGroup(url, t[..4]) + DecodeDigits(url, t[4..])
  }

  /** `decodeBase64Url`: digits only, no length of 1 mod 4, and the re-encoding must give the text back. */
  function Decode(url: bool, t: JsString): Option<Bytes> {
    if !AllDigits(url, t) || |t| % 4 == 1 then None
    else if Encode(url, DecodeDigits(url, t)) == t then Some(DecodeDigits(url, t))
    else None
  }

  lemma ByteBits(a: Byte, b: Byte, c: Byte)
    ensures a / 4 * 4 + (a % 4 * 16 + b / 16) / 16 == a
    ensures (a % 4 * 16 + b / 16) % 16 * 16 + (b % 16 * 4 + c / 64) / 4 == b
    ensures (b % 16 * 4 + c / 64) % 4 * 64 + c % 64 == c
  {
    assert (a % 4 * 16 + b / 16) / 16 == a % 4 && (a % 4 * 16 + b / 16) % 16 == b / 16;
    assert (b % 16 * 4 + c / 64) / 4 == b % 16 && (b % 16 * 4 + c / 64) % 4 == c / 64;
  }

  lemma DigitBits(a: nat, b: nat, c: nat, d: nat)
    requires a < 64 && b < 64 && c < 64 && d < 64
    ensures (a * 4 + b / 16) / 4 == a && (a * 4 + b / 16) % 4 == b / 16
    ensures (b % 16 * 16 + c / 4) / 16 == b % 16 && (b % 16 * 16 + c / 4) % 16 == c / 4
    ensures (c % 4 * 64 + d) / 64 == c % 4 && (c % 4 * 64 + d) % 64 == d
    ensures b / 16 * 16 + b % 16 == b && c / 4 * 4 + c % 4 == c
  {
  }

  predicate RoundTrips(url: bool, g: Bytes)
    requires 1 <= |g| <= 3
  {
    var e := EncodeGroup(url, g);
    |e| == |g| + 1 && AllDigits(url, e) && DecodeGroup(url, e) == g
  }

  lemma OneByte(url: bool, a: Byte)
    ensures RoundTrips(url, [a])
  {
    var d0, d1 := a / 4, a % 4 * 16;
    ByteBits(a, 0, 0);
    DecodeOfTwo(url, d0, d1);
    hide Digit;
    hide DecodeGroup;
    hide AllDigits;
    assert EncodeGroup(url, [a]) == [Digit(url, d0), Digit(url, d1)];
  }

  lemma TwoBytes(url: bool, a: Byte, b: Byte)
    ensures RoundTrips(url, [a, b])
  {
    var d0, d1, d2 := a / 4, a % 4 * 16 + b / 16, b % 16 * 4;
    ByteBits(a, b, 0);
    DecodeOfThree(url, d0, d1, d2);
    hide Digit;
    hide DecodeGroup;
    hide AllDigits;
    assert EncodeGroup(url, [a, b]) == [Digit(url, d0), Digit(url, d1), Digit(url, d2)];
  }

  lemma ThreeBytes(url: bool, a: Byte, b: Byte, c: Byte)
    ensures RoundTrips(url, [a, b, c])
  {
    var d0, d1, d2, d3 := a / 4, a % 4 * 16 + b / 16, b % 16 * 4 + c / 64, c % 64;
    ByteBits(a, b, c);
    DecodeOfFour(url, d0, d1, d2, d3);
    hide Digit;
    hide DecodeGroup;
    hide AllDigits;
    assert EncodeGroup(url, [a, b, c]) == [Digit(url, d0), Digit(url, d1), Digit(url, d2), Digit(url, d3)];
  }

  lemma GroupRoundTrip(url: bool, g: Bytes)
    requires 1 <= |g| <= 3
    ensures RoundTrips(url, g)
  {
    hide RoundTrips;
    if |g| == 1 {
      OneByte(url, g[0]);
      assert g == [g[0]];
    } else if |g| == 2 {
      TwoBytes(url, g[0], g[1]);
      assert g == [g[0], g[1]];
    } else {
      ThreeBytes(url, g[0], g[1], g[2]);
      assert g == [g[0], g[1], g[2]];
    }
  }

  lemma DecodeOfTwo(url: bool, d0: nat, d1: nat)
    requires d0 < 64 && d1 < 64
    ensures var e := [Digit(url, d0), Digit(url, d1)];
            AllDigits(url, e) && DecodeGroup(url, e) == [d0 * 4 + d1 / 16]
  {
    hide Digit;
    hide Value;
  }

  lemma DecodeOfThree(url: bool, d0: nat, d1: nat, d2: nat)
    requires d0 < 64 && d1 < 64 && d2 < 64
    ensures var e := [Digit(url, d0), Digit(url, d1), Digit(url, d2)];
            AllDigits(url, e) && DecodeGroup(url, e) == [d0 * 4 + d1 / 16, d1 % 16 * 16 + d2 / 4]
  {
    hide Digit;
    hide Value;
  }

  lemma DecodeOfFour(url: bool, d0: nat, d1: nat, d2: nat, d3: nat)
    requires d0 < 64 && d1 < 64 && d2 < 64 && d3 < 64
    ensures var e := [Digit(url, d0), Digit(url, d1), Digit(url, d2), Digit(url, d3)];
            AllDigits(url, e) && DecodeGroup(url, e) == [d0 * 4 + d1 / 16, d1 % 16 * 16 + d2 / 4, d2 % 4 * 64 + d3]
  {
    hide Digit;
    hide Value;
  }

  lemma {:induction false} EncodedShape(url: bool, bytes: Bytes)
    ensures AllDigits(url, Encode(url, bytes)) && |Encode(url, bytes)| % 4 != 1
    ensures |Encode(url, bytes)| == (|bytes| * 4 + 2) / 3
  {
    hide EncodeGroup;
    hide DecodeGroup;
    hide Value;
    if |bytes| > 3 {
      GroupRoundTrip(url, bytes[..3]);
      EncodedShape(url, bytes[3..]);
    } else if bytes != [] {
      GroupRoundTrip(url, bytes);
    }
  }

  /** Decoding an encoding gives back every byte sequence. */
  lemma {:induction false} DecodeInvertsEncode(url: bool, bytes: Bytes)
    ensures Decode(url, Encode(url, bytes)) == Some(bytes)
  {
    EncodedShape(url, bytes);
    DigitsInvertEncode(url, bytes);
  }

  lemma {:induction false} DigitsInvertEncode(url: bool, bytes: Bytes)
    requires AllDigits(url, Encode(url, bytes)) && |Encode(url, bytes)| % 4 != 1
    ensures DecodeDigits(url, Encode(url, bytes)) == bytes
  {
    hide EncodeGroup;
    hide DecodeGroup;
    if |bytes| > 3 {
      var head, rest := EncodeGroup(url, bytes[..3]), Encode(url, bytes[3..]);
      GroupRoundTrip(url, bytes[..3]);
      EncodedShape(url, bytes[3..]);
      DigitsInvertEncode(url, bytes[3..]);
      assert (head + rest)[..4] == head && (head + rest)[4..] == rest;
      assert |rest| > 0 by { GroupRoundTrip(url, if |bytes| <= 6 then bytes[3..] else bytes[3..6]); }
      assert bytes == bytes[..3] + bytes[3..];
    } else if bytes != [] {
      GroupRoundTrip(url, bytes);
    }
  }

  /** A text is accepted exactly when it is the encoding of some byte sequence, which is then the answer. */
  lemma DecodeExact(url: bool, t: JsString, bytes: Bytes)
    ensures Decode(url, t) == Some(bytes) <==> t == Encode(url, bytes)
  {
    if t == Encode(url, bytes) {
      DecodeInvertsEncode(url, bytes);
    }
  }

  /** The unused low bits of the last digit. */
  predicate SpareBitsZero(url: bool, t: JsString)
    requires AllDigits(url, t)
  {
    && (|t| % 4 == 2 ==> Value(url, t[|t| - 1]).value % 16 == 0)
    && (|t| % 4 == 3 ==> Value(url, t[|t| - 1]).value % 4 == 0)
  }

  lemma GroupReencode(url: bool, g: JsString)
    requires 2 <= |g| <= 4 && AllDigits(url, g)
    ensures EncodeGroup(url, DecodeGroup(url, g)) == g <==> SpareBitsZero(url, g)
    ensures |EncodeGroup(url, DecodeGroup(url, g))| == |g|
  {
    hide Digit;
    hide Value;
    var a, b := Value(url, g[0]).value, Value(url, g[1]).value;
    var c := if |g| > 2 then Value(url, g[2]).value else 0;
    var d := if |g| > 3 then Value(url, g[3]).value else 0;
    DigitBits(a, b, c, d);
    DigitsOf(url, g);
    var r := DecodeGroup(url, g);
    var e := EncodeGroup(url, r);
    if |g| == 2 {
      assert r == [a * 4 + b / 16];
      assert e == [Digit(url, a), Digit(url, b / 16 * 16)];
      SameDigit(url, b / 16 * 16, b);
    } else if |g| == 3 {
      assert r == [a * 4 + b / 16, b % 16 * 16 + c / 4];
      assert e == [Digit(url, a), Digit(url, b), Digit(url, c / 4 * 4)];
      SameDigit(url, c / 4 * 4, c);
    } else {
      assert r == [a * 4 + b / 16, b % 16 * 16 + c / 4, c % 4 * 64 + d];
      assert e == [Digit(url, a), Digit(url, b), Digit(url, c), Digit(url, d)];
    }
  }

  lemma SameDigit(url: bool, x: nat, y: nat)
    requires x < 64 && y < 64
    ensures Digit(url, x) == Digit(url, y) <==> x == y
  {
    assert Value(url, Digit(url, x)) == Some(x) && Value(url, Digit(url, y)) == Some(y);
  }

  lemma DigitsOf(url: bool, g: JsString)
    requires AllDigits(url, g)
    ensures forall i :: 0 <= i < |g| ==> Digit(url, Value(url, g[i]).value) == g[i]
  {
    forall i | 0 <= i < |g| ensures Digit(url, Value(url, g[i]).value) == g[i] {
      DigitOfValue(url, g[i]);
    }
  }

  /** What acceptance means digit by digit: no foreign character, no length of 1 mod 4, no non-zero spare bit. */
  lemma {:induction false} AcceptedExactly(url: bool, t: JsString)
    ensures Decode(url, t).Some? <==> AllDigits(url, t) && |t| % 4 != 1 && SpareBitsZero(url, t)
  {
    if AllDigits(url, t) && |t| % 4 != 1 {
      ReencodeExact(url, t);
    }
  }

  lemma SpareBitsOfTail(url: bool, t: JsString)
    requires AllDigits(url, t) && |t| > 4
    ensures SpareBitsZero(url, t[..4]) && (SpareBitsZero(url, t) <==> SpareBitsZero(url, t[4..]))
  {
    assert t[4..][|t| - 5] == t[|t| - 1];
  }

  lemma {:induction false} ReencodeExact(url: bool, t: JsString)
    requires AllDigits(url, t) && |t| % 4 != 1
    ensures Encode(url, DecodeDigits(url, t)) == t <==> SpareBitsZero(url, t)
  {
    hide EncodeGroup;
    hide DecodeGroup;
    hide Value;
    if |t| > 4 {
      var head, rest := t[..4], t[4..];
      SpareBitsOfTail(url, t);
      ReencodeExact(url, rest);
      GroupReencode(url, head);
      DecodedNonEmpty(url, rest);
      EncodeConcat(url, DecodeGroup(url, head), DecodeDigits(url, rest));
      hide Encode;
      hide SpareBitsZero;
      assert t == head + rest;
      SameHead(head, Encode(url, DecodeDigits(url, rest)), rest);
    } else if t != [] {
      GroupReencode(url, t);
    }
  }

  lemma EncodeConcat(url: bool, head: Bytes, rest: Bytes)
    requires |head| == 3 && rest != []
    ensures Encode(url, head + rest) == EncodeGroup(url, head) + Encode(url, rest)
  {
    assert (head + rest)[..3] == head && (head + rest)[3..] == rest;
  }

  lemma SameHead(head: JsString, a: JsString, b: JsString)
    ensures head + a == head + b <==> a == b
  {
    assert (head + a)[|head|..] == a && (head + b)[|head|..] == b;
  }

  lemma DecodedNonEmpty(url: bool, t: JsString)
    requires AllDigits(url, t) && |t| % 4 != 1 && t != []
    ensures DecodeDigits(url, t) != []
  {
  }

  // ----- the loops of the source -----

  /** One round of the encoding loop. */
  method EncodeRound(bytes: Bytes, index: nat) returns (digits: JsString)
    requires index < |bytes|
    ensures digits == EncodeGroup(true, Chunk(bytes, index, 3))
  {
    hide Digit;
    var a := bytes[index];
    var b := if index + 1 < |bytes| then bytes[index + 1] else 0;
    var c := if index + 2 < |bytes| then bytes[index + 2] else 0;
    digits := [Digit(true, a / 4), Digit(true, a % 4 * 16 + b / 16)];
    if index + 1 < |bytes| {
      digits := digits + [Digit(true, b % 16 * 4 + c / 64)];
    }
    if index + 2 < |bytes| {
      digits := digits + [Digit(true, c % 64)];
    }
  }

  /** `encodeBase64Url`. */
  method EncodeBase64Url(bytes: Bytes) returns (output: JsString)
    ensures output == Encode(true, bytes)
  {
    hide EncodeGroup;
    output := [];
    var index := 0;
    assert bytes[0..] == bytes;
    while index < |bytes|
      invariant 0 <= index
      invariant Encode(true, bytes) == output + (if index < |bytes| then Encode(true, bytes[index..]) else [])
      decreases |bytes| - index
    {
      var digits := EncodeRound(bytes, index);
      EncodeStep(bytes, index);
      Assoc(output, digits, if index + 3 < |bytes| then Encode(true, bytes[index + 3..]) else []);
      output := output + digits;
      index := index + 3;
    }
  }

  function Chunk<T>(s: seq<T>, index: nat, size: nat): seq<T>
    requires index < |s|
  {
    if index + size < |s| then s[index..index + size] else s[index..]
  }

  lemma EncodeStep(bytes: Bytes, index: nat)
    requires index < |bytes|
    ensures Encode(true, bytes[index..]) ==
            EncodeGroup(true, Chunk(bytes, index, 3)) + (if index + 3 < |bytes| then Encode(true, bytes[index + 3..]) else [])
  {
    hide EncodeGroup;
    var rest := bytes[index..];
    if |rest| > 3 {
      assert rest[..3] == bytes[index..index + 3] && rest[3..] == bytes[index + 3..];
    }
  }

  lemma DecodeStep(t: JsString, index: nat)
    requires AllDigits(true, t) && |t| % 4 != 1 && index < |t| && index % 4 == 0
    ensures DecodeDigits(true, t[index..]) ==
            DecodeGroup(true, Chunk(t, index, 4)) + (if index + 4 < |t| then DecodeDigits(true, t[index + 4..]) else [])
  {
    hide DecodeGroup;
    var rest := t[index..];
    if |rest| > 4 {
      assert rest[..4] == t[index..index + 4] && rest[4..] == t[index + 4..];
    }
  }

  /** One round of the decoding loop. */
  method DecodeRound(value: JsString, index: nat) returns (bytes: Bytes)
    requires AllDigits(true, value) && |value| % 4 != 1 && index < |value| && index % 4 == 0
    ensures bytes == DecodeGroup(true, Chunk(value, index, 4))
  {
    hide Value;
    var a, b := Value(true, value[index]).value, Value(true, value[index + 1]).value;
    var c := if index + 2 < |value| then Value(true, value[index + 2]).value else 0;
    var d := if index + 3 < |value| then Value(true, value[index + 3]).value else 0;
    bytes := [a * 4 + b / 16];
    if index + 2 < |value| {
      bytes := bytes + [b % 16 * 16 + c / 4];
    }
    if index + 3 < |value| {
      bytes := bytes + [c % 4 * 64 + d];
    }
  }

  /** The decoding loop. */
  method DecodeLoop(value: JsString) returns (output: Bytes)
    requires AllDigits(true, value) && |value| % 4 != 1
    ensures output == DecodeDigits(true, value)
  {
    hide DecodeGroup;
    hide DecodeDigits;
    hide AllDigits;
    output := [];
    var index := 0;
    assert value[0..] == value;
    if value == [] { DecodeNothing(value); }
    while index < |value|
      invariant 0 <= index && index % 4 == 0
      invariant index < |value| ==> AllDigits(true, value[index..])
      invariant index < |value| ==> DecodeDigits(true, value) == output + DecodeDigits(true, value[index..])
      invariant index >= |value| ==> DecodeDigits(true, value) == output
      decreases |value| - index
    {
      var bytes := DecodeRound(value, index);
      DecodeStep(value, index);
      TailDigits(value, index + 4);
      if index + 4 < |value| {
        Assoc(output, bytes, DecodeDigits(true, value[index + 4..]));
      } else {
        assert bytes + [] == bytes;
      }
      output := output + bytes;
      index := index + 4;
    }
  }

  lemma DecodeNothing(value: JsString)
    requires AllDigits(true, value) && value == []
    ensures DecodeDigits(true, value) == []
  {
  }

  lemma TailDigits(value: JsString, index: nat)
    requires AllDigits(true, value)
    ensures index < |value| ==> AllDigits(true, value[index..])
  {
  }

  /** `decodeBase64Url`. */
  method DecodeBase64Url(value: JsString) returns (r: Option<Bytes>)
    ensures r == Decode(true, value)
  {
    hide DecodeDigits;
    hide Encode;
    if !AllDigits(true, value) || |value| % 4 == 1 {
      return None;
    }
    var output := DecodeLoop(value);
    var again := EncodeBase64Url(output);
    return if again == value then Some(output) else None;
  }
}
