/** Decimal digit strings and the naturals they denote. */
module Decimal {
  import opened Common

  const ZERO: CodeUnit := 48
  const NINE: CodeUnit := 57

  predicate IsDigit(c: CodeUnit) {
    ZERO <= c <= NINE
  }

  predicate AllDigits(s: JsString) {
    forall i :: 0 <= i < |s| ==> IsDigit(s[i])
  }

  function DigitValue(c: CodeUnit): (d: nat)
    requires IsDigit(c)
    ensures d < 10
  {
    c - ZERO
  }

  /** The natural number a digit string denotes; leading zeros allowed, the empty string is 0. */
  function Nat(s: JsString): nat
    requires AllDigits(s)
  {
    if s == [] then 0 else 10 * Nat(s[..|s| - 1]) + DigitValue(s[|s| - 1])
  }

  function Pow10(n: nat): (p: nat)
    ensures p >= 1
  {
    if n == 0 then 1 else 10 * Pow10(n - 1)
  }

  /** `String(n)` for a natural number. */
  function Print(n: nat): (s: JsString)
    ensures AllDigits(s) && |s| >= 1 && Nat(s) == n
    ensures s[0] == ZERO <==> n == 0
    ensures n == 0 ==> s == [ZERO]
  {
    if n < 10 then
      var s: JsString := [ZERO + n];
      assert s[..0] == [];
      s
    else
      var head := Print(n / 10);
      var s: JsString := head + [ZERO + n % 10];
      assert s[..|s| - 1] == head;
      s
  }

  function Zeros(k: nat): (s: JsString)
    ensures |s| == k && AllDigits(s)
    ensures forall i :: 0 <= i < k ==> s[i] == ZERO
  {
    seq(k, _ => ZERO)
  }

  /** `digits.replace(/^0+/, "")`. */
  function StripZeros(s: JsString): (t: JsString)
    ensures |t| <= |s|
    ensures AllDigits(s) ==> AllDigits(t)
    ensures t != [] ==> t[0] != ZERO
  {
    if s == [] || s[0] != ZERO then s else StripZeros(s[1..])
  }

  predicate Canonical(s: JsString) {
    AllDigits(s) && s != [] && s[0] != ZERO
  }

  lemma Pow10Add(a: nat, b: nat)
    ensures Pow10(a + b) == Pow10(a) * Pow10(b)
  {
    if a > 0 {
      Pow10Add(a - 1, b);
    }
  }

  lemma Pow10Monotone(a: nat, b: nat)
    requires a <= b
    ensures Pow10(a) <= Pow10(b)
    decreases b - a
  {
    if a < b {
      Pow10Monotone(a, b - 1);
    }
  }

  lemma NatSnoc(s: JsString)
    requires AllDigits(s) && |s| >= 2
    ensures Nat(s) == 10 * Nat(s[..|s| - 1]) + DigitValue(s[|s| - 1])
    ensures Nat(s[1..]) == 10 * Nat(s[..|s| - 1][1..]) + DigitValue(s[|s| - 1])
    ensures Pow10(|s| - 1) == 10 * Pow10(|s| - 2)
  {
    var tail := s[1..];
    assert tail[..|tail| - 1] == s[..|s| - 1][1..] && tail[|tail| - 1] == s[|s| - 1];
  }

  lemma {:induction false} NatHead(s: JsString)
    requires AllDigits(s) && s != []
    ensures Nat(s) == DigitValue(s[0]) * Pow10(|s| - 1) + Nat(s[1..])
  {
    if |s| == 1 {
      assert s[..0] == [] && s[1..] == [];
    } else {
      NatSnoc(s);
      NatHead(s[..|s| - 1]);
      hide *;
      TenTimes(DigitValue(s[0]), Pow10(|s| - 2), Nat(s[..|s| - 1][1..]));
    }
  }

  lemma TenTimes(d: int, p: int, n: int)
    ensures 10 * (d * p + n) == d * (10 * p) + 10 * n
  {
  }

  lemma DigitTimes(d: int, p: int)
    requires 0 <= d < 10 && p >= 1
    ensures 0 <= d * p <= 9 * p
    ensures d >= 1 ==> d * p >= p
  {
  }

  lemma NatBounds(s: JsString)
    requires AllDigits(s)
    ensures Nat(s) < Pow10(|s|)
    ensures Canonical(s) ==> Nat(s) >= Pow10(|s| - 1)
  {
    if s != [] {
      NatBounds(s[1..]);
      NatHead(s);
      DigitTimes(DigitValue(s[0]), Pow10(|s| - 1));
    }
  }

  lemma NatAppendZeros(s: JsString, k: nat)
    requires AllDigits(s)
    ensures AllDigits(s + Zeros(k))
    ensures Nat(s + Zeros(k)) == Nat(s) * Pow10(k)
  {
    if k == 0 {
      assert s + Zeros(0) == s;
    } else {
      NatAppendZeros(s, k - 1);
      var t := s + Zeros(k);
      assert t[..|t| - 1] == s + Zeros(k - 1);
      assert t[|t| - 1] == ZERO;
      TenTimes(Nat(s), Pow10(k - 1), 0);
    }
  }

  lemma NatStripZeros(s: JsString)
    requires AllDigits(s)
    ensures Nat(StripZeros(s)) == Nat(s)
  {
    if s != [] && s[0] == ZERO {
      NatHead(s);
      NatStripZeros(s[1..]);
    }
  }

  lemma DigitLess(x: nat, y: nat, p: nat, u: nat, v: nat)
    requires x < y && u < p
    ensures x * p + u < y * p + v
  {
    assert (x + 1) * p <= y * p;
  }

  /** Same length: code-unit order is numeric order. */
  lemma {:induction false} OrderIsNumeric(a: JsString, b: JsString)
    requires AllDigits(a) && AllDigits(b) && |a| == |b|
    ensures StringLess(a, b) <==> Nat(a) < Nat(b)
    ensures a == b <==> Nat(a) == Nat(b)
  {
    if a != [] {
      var ta, tb := a[1..], b[1..];
      NatHead(a);
      NatHead(b);
      NatBounds(ta);
      NatBounds(tb);
      OrderIsNumeric(ta, tb);
      var p := Pow10(|a| - 1);
      var x, y := DigitValue(a[0]), DigitValue(b[0]);
      assert a == [a[0]] + ta && b == [b[0]] + tb;
      if x < y {
        DigitLess(x, y, p, Nat(ta), Nat(tb));
      } else if y < x {
        DigitLess(y, x, p, Nat(tb), Nat(ta));
      }
    }
  }

  /** A number has one digit string without leading zeros. */
  lemma CanonicalUnique(a: JsString, b: JsString)
    requires Canonical(a) && Canonical(b)
    ensures Nat(a) == Nat(b) <==> a == b
  {
    NatBounds(a);
    NatBounds(b);
    if |a| < |b| {
      Pow10Monotone(|a|, |b| - 1);
    } else if |b| < |a| {
      Pow10Monotone(|b|, |a| - 1);
    } else {
      OrderIsNumeric(a, b);
    }
  }
}
