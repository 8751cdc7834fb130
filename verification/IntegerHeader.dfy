/**
 Integer tool-argument headers: the decimal grammar and the exact comparison of
 src/transport/HttpMetadata.ts. The comparison works on digit strings with a
 clamped exponent; the meaning of a literal is a rational number.
 */
module IntegerHeader {
  import opened Common
  import opened Decimal

  const MINUS: CodeUnit := 45
  const PLUS: CodeUnit := 43
  const DOT: CodeUnit := 46
  const UPPER_E: CodeUnit := 69
  const LOWER_E: CodeUnit := 101

  datatype ExponentSign = NoSign | Plus | Minus

  datatype Exponent = Exponent(upper: bool, sign: ExponentSign, digits: JsString)

  datatype Literal = Literal(negative: bool, integer: JsString, fraction: JsString, exponent: Option<Exponent>) {
    predicate WellFormed() {
      && AllDigits(integer) && integer != [] && (integer[0] == ZERO ==> integer == [ZERO])
      && AllDigits(fraction)
      && (exponent.Some? ==> AllDigits(exponent.value.digits) && exponent.value.digits != [])
    }

    function Coefficient(): (c: JsString)
      requires WellFormed()
      ensures AllDigits(c) && c != []
    {
      integer + fraction
    }

    function SignedCoefficient(): int
      requires WellFormed()
    {
      if negative then 0 - Nat(Coefficient()) else Nat(Coefficient())
    }

    /** The exponent as written, of any length. */
    function ExactExponent(): int
      requires WellFormed()
    {
      if exponent.None? then 0
      else if exponent.value.sign == Minus then 0 - Nat(exponent.value.digits)
      else Nat(exponent.value.digits)
    }

    /** The rational number the literal denotes. */
    function Value(): real
      requires WellFormed()
    {
      var e := ExactExponent();
      if e >= 0 then (SignedCoefficient() * Pow10(e)) as real / Pow10(|fraction|) as real
      else SignedCoefficient() as real / (Pow10(|fraction|) * Pow10(-e)) as real
    }
  }

  function RenderSign(s: ExponentSign): JsString {
    match s
    case NoSign => []
    case Plus => [PLUS]
    case Minus => [MINUS]
  }

  function RenderExponent(e: Option<Exponent>): JsString {
    match e
    case None => []
    case Some(x) => [if x.upper then UPPER_E else LOWER_E] + (RenderSign(x.sign) + x.digits)
  }

  function RenderFraction(fraction: JsString): JsString {
    if fraction == [] then [] else [DOT] + fraction
  }

  /** The text of a literal. */
  function Render(l: Literal): JsString {
    (if l.negative then [MINUS] else []) + (l.integer + (RenderFraction(l.fraction) + RenderExponent(l.exponent)))
  }

  /** The longest digit prefix, `\d*`. */
  function DigitPrefix(s: JsString): (d: JsString)
    ensures |d| <= |s| && d == s[..|d|] && AllDigits(d)
    ensures |d| < |s| ==> !IsDigit(s[|d|])
  {
    if s == [] || !IsDigit(s[0]) then [] else [s[0]] + DigitPrefix(s[1..])
  }

  function ParseExponent(s: JsString): Option<Option<Exponent>> {
    if s == [] then Some(None)
    else if s[0] != UPPER_E && s[0] != LOWER_E then None
    else
      var rest := s[1..];
      var sign := if rest != [] && rest[0] == PLUS then Plus else if rest != [] && rest[0] == MINUS then Minus else NoSign;
      var digits := if sign == NoSign then rest else rest[1..];
      if digits != [] && AllDigits(digits) then Some(Some(Exponent(s[0] == UPPER_E, sign, digits))) else None
  }

  /** `(?:\.(\d+))?` and what follows it. */
  function ParseFraction(s: JsString): Option<(JsString, JsString)> {
    if s == [] || s[0] != DOT then Some(([], s))
    else
      var fraction := DigitPrefix(s[1..]);
      if fraction == [] then None else Some((fraction, s[1..][|fraction|..]))
  }

  /** `(0|[1-9]\d*)` and what follows it. */
  function ParseInteger(s: JsString): Option<(JsString, JsString)> {
    var integer := DigitPrefix(s);
    if integer == [] || (integer[0] == ZERO && |integer| > 1) then None else Some((integer, s[|integer|..]))
  }

  /** `integerHeaderPattern.exec`, its five groups as a literal. */
  function Parse(s: JsString): Option<Literal> {
    var negative := s != [] && s[0] == MINUS;
    match ParseInteger(if negative then s[1..] else s)
    case None => None
    case Some((integer, rest)) =>
      match ParseFraction(rest)
      case None => None
      case Some((fraction, tail)) =>
        match ParseExponent(tail)
        case None => None
        case Some(exponent) => Some(Literal(negative, integer, fraction, exponent))
  }

  lemma {:induction false} DigitPrefixOfConcat(d: JsString, rest: JsString)
    requires AllDigits(d) && (rest == [] || !IsDigit(rest[0]))
    ensures DigitPrefix(d + rest) == d
  {
    if d == [] {
      assert d + rest == rest;
    } else {
      assert (d + rest)[1..] == d[1..] + rest;
      DigitPrefixOfConcat(d[1..], rest);
    }
  }

  lemma ParseExponentExact(s: JsString)
    requires ParseExponent(s).Some?
    ensures var e := ParseExponent(s).value;
            s == RenderExponent(e) && (e.Some? ==> AllDigits(e.value.digits) && e.value.digits != [])
  {
    if s != [] {
      var x := ParseExponent(s).value.value;
      var rest := s[1..];
      assert s == [s[0]] + rest;
      if x.sign == NoSign {
        assert RenderSign(NoSign) + x.digits == x.digits;
      } else {
        assert rest == [rest[0]] + rest[1..];
      }
      assert rest == RenderSign(x.sign) + x.digits;
    }
  }

  lemma ParseExponentComplete(e: Option<Exponent>)
    requires e.Some? ==> AllDigits(e.value.digits) && e.value.digits != []
    ensures ParseExponent(RenderExponent(e)) == Some(e)
  {
    if e.Some? {
      var s := RenderExponent(e);
      assert s[1..] == RenderSign(e.value.sign) + e.value.digits;
      match e.value.sign
      case NoSign => assert s[1..] == e.value.digits && IsDigit(e.value.digits[0]);
      case Plus => assert s[1..][1..] == e.value.digits;
      case Minus => assert s[1..][1..] == e.value.digits;
    }
  }

  /** A text is accepted exactly when it is the rendering of a well-formed literal, which is then the one returned. */
  lemma ParseExact(s: JsString, l: Literal)
    ensures Parse(s) == Some(l) <==> l.WellFormed() && s == Render(l)
  {
    if Parse(s) == Some(l) {
      ParseSound(s);
    }
    if l.WellFormed() && s == Render(l) {
      ParseComplete(l);
    }
  }

  lemma ParseIntegerExact(s: JsString)
    requires ParseInteger(s).Some?
    ensures var (integer, rest) := ParseInteger(s).value;
            s == integer + rest && AllDigits(integer) && integer != [] && (integer[0] == ZERO ==> integer == [ZERO])
  {
    var integer := DigitPrefix(s);
    assert s == s[..|integer|] + s[|integer|..];
  }

  lemma ParseFractionExact(s: JsString)
    requires ParseFraction(s).Some?
    ensures var (fraction, tail) := ParseFraction(s).value;
            s == RenderFraction(fraction) + tail && AllDigits(fraction)
  {
    if s == [] || s[0] != DOT {
      assert RenderFraction([]) + s == s;
    } else {
      var rest := s[1..];
      var fraction := DigitPrefix(rest);
      var tail := rest[|fraction|..];
      assert rest == fraction + tail;
      assert s == [DOT] + fraction + tail;
    }
  }

  lemma ParseSound(s: JsString)
    requires Parse(s).Some?
    ensures Parse(s).value.WellFormed() && s == Render(Parse(s).value)
  {
    var l := Parse(s).value;
    var unsigned := if l.negative then s[1..] else s;
    assert s == (if l.negative then [MINUS] else []) + unsigned;
    ParseIntegerExact(unsigned);
    var rest := ParseInteger(unsigned).value.1;
    ParseFractionExact(rest);
    var tail := ParseFraction(rest).value.1;
    ParseExponentExact(tail);
  }

  lemma ParseComplete(l: Literal)
    requires l.WellFormed()
    ensures Parse(Render(l)) == Some(l)
  {
    hide ParseInteger;
    hide ParseFraction;
    hide ParseExponent;
    var e := RenderExponent(l.exponent);
    var rest := RenderFraction(l.fraction) + e;
    assert rest != [] ==> !IsDigit(rest[0]);
    ParseIntegerComplete(l.integer, rest);
    ParseFractionComplete(l.fraction, e);
    ParseExponentComplete(l.exponent);
    var unsigned := l.integer + rest;
    assert unsigned[0] == l.integer[0] != MINUS;
    if l.negative {
      assert ([MINUS] + unsigned)[1..] == unsigned;
    } else {
      assert [] + unsigned == unsigned;
    }
  }

  lemma ParseIntegerComplete(integer: JsString, rest: JsString)
    requires AllDigits(integer) && integer != [] && (integer[0] == ZERO ==> integer == [ZERO])
    requires rest == [] || !IsDigit(rest[0])
    ensures ParseInteger(integer + rest) == Some((integer, rest))
  {
    DigitPrefixOfConcat(integer, rest);
    assert (integer + rest)[|integer|..] == rest;
  }

  lemma ParseFractionComplete(fraction: JsString, tail: JsString)
    requires AllDigits(fraction) && (tail == [] || (!IsDigit(tail[0]) && tail[0] != DOT))
    ensures ParseFraction(RenderFraction(fraction) + tail) == Some((fraction, tail))
  {
    var s := RenderFraction(fraction) + tail;
    if fraction == [] {
      assert s == tail;
    } else {
      assert s[1..] == fraction + tail;
      DigitPrefixOfConcat(fraction, tail);
      assert (fraction + tail)[|fraction|..] == tail;
    }
  }

  // ----- the exponent clamp -----

  /** `boundedExponent`. */
  function BoundedExponent(exponent: Option<Exponent>, limit: nat): int
    requires exponent.Some? ==> AllDigits(exponent.value.digits)
  {
    if exponent.None? then 0
    else
      var stripped := StripZeros(exponent.value.digits);
      var significant := if stripped == [] then [ZERO] else stripped;
      var boundary := Print(limit);
      var magnitude :=
        if |significant| > |boundary| || (|significant| == |boundary| && StringLess(boundary, significant))
        then limit
        else Nat(significant);
      if exponent.value.sign == Minus then 0 - magnitude else magnitude
  }

  function Clamp(x: int, limit: nat): int {
    if x > limit then limit else if x < 0 - limit then 0 - limit else x
  }

  /** A digit string as `replace(/^0+/, "") || "0"` leaves it. */
  predicate Normal(s: JsString) {
    Canonical(s) || s == [ZERO]
  }

  /** Length first, then code units: the numeric order of normal digit strings. */
  lemma LongerOrGreater(a: JsString, b: JsString)
    requires Normal(a) && Normal(b)
    ensures (|a| > |b| || (|a| == |b| && StringLess(b, a))) <==> Nat(a) > Nat(b)
  {
    NatBounds(a);
    NatBounds(b);
    if |a| > |b| {
      Pow10Monotone(|b|, |a| - 1);
    } else if |a| < |b| {
      Pow10Monotone(|a|, |b| - 1);
    } else {
      OrderIsNumeric(b, a);
    }
  }

  lemma NatOfZero()
    ensures Nat([ZERO]) == 0
  {
    NatAppendZeros([], 1);
    assert [] + Zeros(1) == [ZERO];
  }

  /** The digit-string comparison of the clamp is the numeric one. */
  lemma BoundedExponentIsClamp(l: Literal, limit: nat)
    requires l.WellFormed()
    ensures BoundedExponent(l.exponent, limit) == Clamp(l.ExactExponent(), limit)
  {
    if l.exponent.Some? {
      var digits := l.exponent.value.digits;
      NatStripZeros(digits);
      NatOfZero();
      var stripped := StripZeros(digits);
      LongerOrGreater(if stripped == [] then [ZERO] else stripped, Print(limit));
    }
  }

  // ----- rational equality as an equation between naturals -----

  lemma DivisionEquation(a: int, b: int, c: int)
    requires b > 0
    ensures a as real / b as real == c as real <==> a == c * b
  {
    var q := a as real / b as real;
    assert q * b as real == a as real;
    assert (c * b) as real == c as real * b as real;
    if q == c as real {
      assert a as real == (c * b) as real;
    }
  }

  /** `|v| * 10^exponent == |body| * 10^|fraction|` with every power on its non-negative side. */
  predicate MagnitudesAgree(coefficient: nat, scale: int, target: nat) {
    if scale >= 0 then coefficient * Pow10(scale) == target else coefficient == target * Pow10(-scale)
  }

  lemma CancelPower(x: int, y: int, p: int)
    requires p > 0
    ensures x * p == y * p <==> x == y
  {
    if x < y {
      assert (x + 1) * p <= y * p;
    } else if y < x {
      assert (y + 1) * p <= x * p;
    }
  }

  lemma Regroup(a: int, b: int, c: int)
    ensures a * b * c == a * (b * c) == a * c * b
  {
  }

  lemma ValueIsScaled(l: Literal, body: int)
    requires l.WellFormed()
    ensures var scale := l.ExactExponent() - |l.fraction|;
            l.Value() == body as real <==>
              if scale >= 0 then l.SignedCoefficient() * Pow10(scale) == body
              else l.SignedCoefficient() == body * Pow10(-scale)
  {
    var e, f, c := l.ExactExponent(), |l.fraction|, l.SignedCoefficient();
    var scale := e - f;
    if e < 0 {
      DivisionEquation(c, Pow10(f) * Pow10(-e), body);
      Pow10Add(f, -e);
    } else {
      DivisionEquation(c * Pow10(e), Pow10(f), body);
      if scale >= 0 {
        Pow10Add(scale, f);
        Regroup(c, Pow10(scale), Pow10(f));
        CancelPower(c * Pow10(scale), body, Pow10(f));
      } else {
        Pow10Add(e, -scale);
        Regroup(body, Pow10(e), Pow10(-scale));
        CancelPower(c, body * Pow10(-scale), Pow10(e));
      }
    }
  }

  lemma SignRule(x: int, p: int, y: int)
    requires p > 0
    ensures x * p == 0 <==> x == 0
    ensures x * p > 0 <==> x > 0
    ensures -x * p == -(x * p)
  {
  }

  /** Sign and magnitude decide the value separately, apart from the zero coefficient. */
  lemma ValueBySignAndMagnitude(l: Literal, body: int)
    requires l.WellFormed()
    ensures var target := if body < 0 then -body else body;
            l.Value() == body as real <==>
              if Nat(l.Coefficient()) == 0 then body == 0
              else l.negative == (body < 0) && MagnitudesAgree(Nat(l.Coefficient()), l.ExactExponent() - |l.fraction|, target)
  {
    ValueIsScaled(l, body);
    var scale := l.ExactExponent() - |l.fraction|;
    var n := Nat(l.Coefficient());
    if scale >= 0 {
      SignRule(n, Pow10(scale), body);
    } else {
      SignRule(body, Pow10(-scale), n);
    }
  }

  // ----- the digit-string test -----

  /** `significant` followed by `scale` zeros, or stripped of `-scale` zeros, is `target`. */
  predicate DigitsAgree(significant: JsString, scale: int, target: JsString) {
    if scale >= 0 then significant + Zeros(scale) == target else significant == target + Zeros(-scale)
  }

  lemma DigitsAgreeExact(significant: JsString, scale: int, target: nat)
    requires Canonical(significant)
    ensures DigitsAgree(significant, scale, Print(target)) <==> MagnitudesAgree(Nat(significant), scale, target)
  {
    var t := Print(target);
    if scale >= 0 {
      NatAppendZeros(significant, scale);
      if target == 0 {
        NatBounds(significant);
        SignRule(Nat(significant), Pow10(scale), 0);
      } else {
        CanonicalUnique(significant + Zeros(scale), t);
      }
    } else {
      NatAppendZeros(t, -scale);
      if target == 0 {
        NatBounds(significant);
        assert (t + Zeros(-scale))[0] == ZERO;
      } else {
        CanonicalUnique(significant, t + Zeros(-scale));
      }
    }
  }

  /** Clamping at `|coefficient| + |target| + 1` never changes the answer, whatever the exponent. */
  lemma ClampIsHarmless(l: Literal, target: JsString)
    requires l.WellFormed() && target != []
    ensures var limit := |l.Coefficient()| + |target| + 1;
            var significant := StripZeros(l.Coefficient());
            DigitsAgree(significant, Clamp(l.ExactExponent(), limit) - |l.fraction|, target) <==>
            DigitsAgree(significant, l.ExactExponent() - |l.fraction|, target)
  {
    var limit := |l.Coefficient()| + |target| + 1;
    var significant := StripZeros(l.Coefficient());
    var exact := l.ExactExponent();
    if exact > limit {
      assert |significant + Zeros(exact - |l.fraction|)| > |target|;
      assert |significant + Zeros(limit - |l.fraction|)| > |target|;
    } else if exact < -limit {
      assert |target + Zeros(|l.fraction| - exact)| > |significant|;
      assert |target + Zeros(|l.fraction| + limit)| > |significant|;
    }
  }

  /** The test of the non-negative branch: length, prefix, zero tail. */
  lemma PrefixAndZeros(significant: JsString, scale: nat, target: JsString)
    ensures DigitsAgree(significant, scale, target) <==>
              && |significant| + scale == |target| && significant <= target
              && forall k :: |significant| <= k < |target| ==> target[k] == ZERO
  {
    var zeros := Zeros(scale);
    if |significant| + scale == |target| && significant <= target && forall k :: |significant| <= k < |target| ==> target[k] == ZERO {
      assert significant + zeros == target;
    }
    if significant + zeros == target {
      forall k | |significant| <= k < |target| ensures target[k] == ZERO {
        assert target[k] == zeros[k - |significant|];
      }
    }
  }

  /** The test of the negative branch: zero tail, then the remaining prefix. */
  lemma SuffixAndPrefix(significant: JsString, drop: nat, target: JsString)
    requires drop > 0 && target != []
    ensures significant == target + Zeros(drop) <==>
              && drop < |significant|
              && (forall k :: |significant| - drop <= k < |significant| ==> significant[k] == ZERO)
              && significant[..|significant| - drop] == target
  {
    var zeros := Zeros(drop);
    if significant == target + zeros {
      forall k | |significant| - drop <= k < |significant| ensures significant[k] == ZERO {
        assert significant[k] == zeros[k - |target|];
      }
    }
    if drop < |significant| && forall k :: |significant| - drop <= k < |significant| ==> significant[k] == ZERO {
      assert significant == significant[..|significant| - drop] + zeros;
    }
  }

  /** The header's text denotes the integer `body`. */
  predicate Denotes(decoded: JsString, body: int) {
    Parse(decoded).Some? && (ParseSound(decoded); Parse(decoded).value.Value() == body as real)
  }

  /** What the digit strings must satisfy. */
  predicate DigitTest(l: Literal, body: int)
    requires l.WellFormed()
  {
    var significant := StripZeros(l.Coefficient());
    var target := Print(if body < 0 then -body else body);
    if significant == [] then body == 0
    else
      && l.negative == (body < 0)
      && DigitsAgree(significant, BoundedExponent(l.exponent, |l.Coefficient()| + |target| + 1) - |l.fraction|, target)
  }

  lemma ClampedDigitsExact(l: Literal, target: nat)
    requires l.WellFormed() && StripZeros(l.Coefficient()) != []
    ensures var limit := |l.Coefficient()| + |Print(target)| + 1;
            DigitsAgree(StripZeros(l.Coefficient()), BoundedExponent(l.exponent, limit) - |l.fraction|, Print(target)) <==>
            MagnitudesAgree(Nat(l.Coefficient()), l.ExactExponent() - |l.fraction|, target)
  {
    hide MagnitudesAgree;
    hide DigitsAgree;
    hide Literal.Coefficient;
    hide BoundedExponent;
    hide StripZeros;
    BoundedExponentIsClamp(l, |l.Coefficient()| + |Print(target)| + 1);
    ClampIsHarmless(l, Print(target));
    DigitsAgreeExact(StripZeros(l.Coefficient()), l.ExactExponent() - |l.fraction|, target);
    NatStripZeros(l.Coefficient());
  }

  lemma CoefficientIsZero(l: Literal)
    requires l.WellFormed()
    ensures Nat(l.Coefficient()) == 0 <==> StripZeros(l.Coefficient()) == []
  {
    NatStripZeros(l.Coefficient());
    NatBounds(StripZeros(l.Coefficient()));
  }

  lemma DigitTestExact(l: Literal, body: int)
    requires l.WellFormed()
    ensures DigitTest(l, body) <==> l.Value() == body as real
  {
    hide MagnitudesAgree;
    hide DigitsAgree;
    hide Literal.Value;
    hide Literal.Coefficient;
    hide BoundedExponent;
    hide StripZeros;
    CoefficientIsZero(l);
    ValueBySignAndMagnitude(l, body);
    if StripZeros(l.Coefficient()) != [] {
      ClampedDigitsExact(l, if body < 0 then -body else body);
    }
  }

  lemma DecisionExact(decoded: JsString, body: int)
    ensures Denotes(decoded, body) <==> Parse(decoded).Some? && (ParseSound(decoded); DigitTest(Parse(decoded).value, body))
  {
    if Parse(decoded).Some? {
      ParseSound(decoded);
      DigitTestExact(Parse(decoded).value, body);
    }
  }

  /** `exactIntegerHeaderMatches`. */
  method ExactIntegerHeaderMatches(body: int, decoded: JsString) returns (matches: bool)
    ensures matches <==> Denotes(decoded, body)
  {
    hide Parse;
    hide Denotes;
    hide Render;
    hide BoundedExponent;
    DecisionExact(decoded, body);
    var parsed := Parse(decoded);
    if parsed.None? {
      return false;
    }
    ParseSound(decoded);
    var literal := parsed.value;
    var coefficient := literal.Coefficient();
    var significant := StripZeros(coefficient);
    if |significant| == 0 {
      return body == 0;
    }
    if literal.negative != (body < 0) {
      return false;
    }
    var target := Print(if body < 0 then -body else body);
    var limit := |coefficient| + |target| + 1;
    var scale := BoundedExponent(literal.exponent, limit) - |literal.fraction|;
    assert Denotes(decoded, body) <==> DigitsAgree(significant, scale, target);

    if scale >= 0 {
      PrefixAndZeros(significant, scale, target);
      if |significant| + scale != |target| || !(significant <= target) {
        return false;
      }
      for index := |significant| to |target|
        invariant forall k :: |significant| <= k < index ==> target[k] == ZERO
      {
        if target[index] != ZERO {
          return false;
        }
      }
      return true;
    }

    var fractionalDigits := -scale;
    SuffixAndPrefix(significant, fractionalDigits, target);
    if fractionalDigits >= |significant| {
      return false;
    }
    for index := |significant| - fractionalDigits to |significant|
      invariant forall k :: |significant| - fractionalDigits <= k < index ==> significant[k] == ZERO
    {
      if significant[index] != ZERO {
        return false;
      }
    }
    return significant[..|significant| - fractionalDigits] == target;
  }

  /** The text `String(body)`. */
  function PrintInt(body: int): JsString {
    if body < 0 then [MINUS] + Print(-body) else Print(body)
  }

  lemma PrintedIntegerDenotesItself(body: int)
    ensures Denotes(PrintInt(body), body)
  {
    var magnitude: nat := if body < 0 then -body else body;
    var l := Literal(body < 0, Print(magnitude), [], None);
    assert PrintInt(body) == Render(l);
    ParseComplete(l);
    assert l.Coefficient() == Print(magnitude);
    assert Pow10(0) == 1;
    assert l.SignedCoefficient() == body;
    DivisionEquation(body, 1, body);
  }
}
