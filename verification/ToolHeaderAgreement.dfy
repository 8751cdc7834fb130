/**
 Client and server agree on tool headers (src/transport/HttpMetadata.ts): what the client
 extracts under a plan, the server accepts under the same plan and arguments, exactly when
 every string argument it had to carry is free of lone surrogates.
 */
module ToolHeaderAgreement {
  import opened Common
  import CanonicalJson
  import HeaderValues
  import IntegerHeader
  import Utf8
  import opened ToolHeaders

  /** The header a binding contributes for the arguments. */
  function Expected(b: Binding, arguments: Value): Option<JsString> {
    match Argument(b, arguments)
    case None => None
    case Some(v) => EncodedValue(b, v)
  }

  /** Every argument present has the type its binding names. */
  predicate Representable(bindings: seq<Binding>, arguments: Value) {
    forall b :: b in bindings && Argument(b, arguments).Some? ==> EncodedValue(b, Argument(b, arguments).value).Some?
  }

  /** A present string argument without lone surrogates; other bindings carry no text. */
  predicate Carried(b: Binding, arguments: Value) {
    match Argument(b, arguments)
    case None => true
    case Some(v) => b.valueType.StringType? && v.Str? ==> Utf8.WellFormed(v.text)
  }

  // ----- names -----

  lemma FoldPrefix(a: JsString, b: JsString)
    ensures Fold(HEADER_PREFIX + a) == Fold(HEADER_PREFIX + b) <==> Fold(a) == Fold(b)
  {
    FoldConcat(HEADER_PREFIX, a);
    FoldConcat(HEADER_PREFIX, b);
    var p := Fold(HEADER_PREFIX);
    hide Fold;
    if p + Fold(a) == p + Fold(b) {
      assert (p + Fold(a))[|p|..] == Fold(a);
      assert (p + Fold(b))[|p|..] == Fold(b);
    }
  }

  lemma FoldConcat(a: JsString, b: JsString)
    ensures Fold(a + b) == Fold(a) + Fold(b)
  {
  }

  /** No other binding's header name matches, even when case is ignored. */
  predicate Unclaimed(bindings: seq<Binding>, name: JsString) {
    forall b :: b in bindings ==> Fold(HeaderName(b)) != Fold(name)
  }

  lemma HeadUnclaimed(bindings: seq<Binding>)
    requires bindings != [] && DistinctFolded(bindings)
    ensures DistinctFolded(bindings[1..])
    ensures Unclaimed(bindings[1..], HeaderName(bindings[0]))
  {
    hide Fold;
    forall b | b in bindings[1..] ensures Fold(HeaderName(b)) != Fold(HeaderName(bindings[0])) {
      var k :| 0 <= k < |bindings[1..]| && bindings[1..][k] == b;
      assert bindings[k + 1] == b;
      FoldPrefix(b.name, bindings[0].name);
    }
  }

  // ----- what extraction leaves under each name -----

  lemma {:induction false} AssignFrames(headers: seq<Header>, h: Header, name: JsString)
    requires Fold(h.name) != Fold(name)
    ensures HeaderValue(Assign(headers, h), name) == HeaderValue(headers, name)
  {
    hide Fold;
    if headers != [] && headers[0].name != h.name {
      AssignFrames(headers[1..], h, name);
    }
  }

  lemma {:induction false} AssignSets(headers: seq<Header>, h: Header)
    requires HeaderValue(headers, h.name).None?
    ensures HeaderValue(Assign(headers, h), h.name) == Some(h.value)
  {
    hide Fold;
    if headers != [] {
      AssignSets(headers[1..], h);
    }
  }

  lemma {:induction false} ExtractFrames(bindings: seq<Binding>, arguments: Value, headers: seq<Header>, name: JsString)
    requires Extract(bindings, arguments, headers).Some? && Unclaimed(bindings, name)
    ensures HeaderValue(Extract(bindings, arguments, headers).value, name) == HeaderValue(headers, name)
  {
    hide Fold;
    hide EncodedValue;
    hide Argument;
    hide HeaderValue;
    if bindings != [] {
      var b := bindings[0];
      var v := Argument(b, arguments);
      if v.None? {
        ExtractFrames(bindings[1..], arguments, headers, name);
      } else {
        var h := Header(HeaderName(b), EncodedValue(b, v.value).value);
        AssignFrames(headers, h, name);
        ExtractFrames(bindings[1..], arguments, Assign(headers, h), name);
      }
    }
  }

  /** Under each binding's name extraction leaves that binding's own value, or nothing for an absent argument. */
  lemma {:induction false} ExtractFinds(bindings: seq<Binding>, arguments: Value, headers: seq<Header>, b: Binding)
    requires DistinctFolded(bindings) && b in bindings
    requires Extract(bindings, arguments, headers).Some?
    requires HeaderValue(headers, HeaderName(b)).None?
    ensures HeaderValue(Extract(bindings, arguments, headers).value, HeaderName(b)) == Expected(b, arguments)
  {
    hide Fold;
    hide EncodedValue;
    hide Argument;
    hide HeaderValue;
    hide DistinctFolded;
    var first, rest := bindings[0], bindings[1..];
    HeadUnclaimed(bindings);
    var v := Argument(first, arguments);
    var next := if v.None? then headers else Assign(headers, Header(HeaderName(first), EncodedValue(first, v.value).value));
    assert Extract(rest, arguments, next) == Extract(bindings, arguments, headers);
    if b == first {
      if v.Some? { AssignSets(headers, Header(HeaderName(first), EncodedValue(first, v.value).value)); }
      ExtractFrames(rest, arguments, next, HeaderName(b));
    } else {
      assert b in rest;
      if v.Some? { AssignFrames(headers, Header(HeaderName(first), EncodedValue(first, v.value).value), HeaderName(b)); }
      ExtractFinds(rest, arguments, next, b);
    }
  }

  /** Extraction fails exactly when some present argument does not have its binding's type. */
  lemma {:induction false} ExtractSucceedsExactly(bindings: seq<Binding>, arguments: Value, headers: seq<Header>)
    ensures Extract(bindings, arguments, headers).Some? <==> Representable(bindings, arguments)
  {
    hide EncodedValue;
    hide Argument;
    if bindings != [] {
      var b := bindings[0];
      var v := Argument(b, arguments);
      assert bindings == [b] + bindings[1..];
      if v.None? {
        ExtractSucceedsExactly(bindings[1..], arguments, headers);
      } else if EncodedValue(b, v.value).Some? {
        ExtractSucceedsExactly(bindings[1..], arguments, Assign(headers, Header(HeaderName(b), EncodedValue(b, v.value).value)));
      }
    }
  }

  // ----- what the server reads back -----

  predicate Digits(v: JsString) {
    forall i :: 0 <= i < |v| ==> v[i] == 45 || 48 <= v[i] <= 57
  }

  lemma PlainTextReadsBack(v: JsString)
    requires v != [] && (Digits(v) || v == CanonicalJson.TRUE_TEXT || v == CanonicalJson.FALSE_TEXT)
    ensures HeaderValues.Decode(v) == Some(v)
  {
    assert v[0] != HeaderValues.PREFIX[0];
  }

  lemma PrintedInteger(n: int)
    ensures Digits(IntegerHeader.PrintInt(n)) && IntegerHeader.PrintInt(n) != []
  {
  }

  /** One binding: the value the client encodes is the value the server accepts, except for a text with a lone surrogate. */
  lemma ValueAgrees(b: Binding, v: Value)
    requires EncodedValue(b, v).Some?
    ensures var d := HeaderValues.Decode(EncodedValue(b, v).value);
            d.Some? && Matches(b, v, d.value) <==> (b.valueType.StringType? && v.Str? ==> Utf8.WellFormed(v.text))
  {
    hide HeaderValues.Decode;
    hide HeaderValues.Encode;
    hide Utf8.WellFormed;
    hide IntegerHeader.Denotes;
    hide IntegerHeader.PrintInt;
    match b.valueType
    case StringType =>
      HeaderValues.RoundTripExact(v.text);
    case BooleanType =>
      PlainTextReadsBack(PrintBool(v.flag));
    case IntegerType =>
      PrintedInteger(v.number.value);
      PlainTextReadsBack(IntegerHeader.PrintInt(v.number.value));
      IntegerHeader.PrintedIntegerDenotesItself(v.number.value);
  }

  /** One plan, as the schema walk makes it: the server accepts what the client extracts exactly when every string is carried. */
  lemma ExtractedIsAccepted(bindings: seq<Binding>, arguments: Value)
    requires DistinctFolded(bindings) && Extract(bindings, arguments, []).Some?
    ensures Validates(bindings, arguments, Extract(bindings, arguments, []).value)
       <==> forall b :: b in bindings ==> Carried(b, arguments)
  {
    var headers := Extract(bindings, arguments, []).value;
    ExtractSucceedsExactly(bindings, arguments, []);
    forall b | b in bindings ensures Accepts(b, arguments, headers) <==> Carried(b, arguments) {
      ExtractFinds(bindings, arguments, [], b);
      OneAgrees(b, arguments, headers);
    }
    hide Accepts;
    hide Carried;
    hide Extract;
  }

  lemma OneAgrees(b: Binding, arguments: Value, headers: seq<Header>)
    requires HeaderValue(headers, HeaderName(b)) == Expected(b, arguments)
    requires Argument(b, arguments).Some? ==> EncodedValue(b, Argument(b, arguments).value).Some?
    ensures Accepts(b, arguments, headers) <==> Carried(b, arguments)
  {
    hide Argument;
    hide HeaderValue;
    hide EncodedValue;
    hide Matches;
    hide HeaderValues.Decode;
    hide Utf8.WellFormed;
    var v := Argument(b, arguments);
    if v.Some? { ValueAgrees(b, v.value); }
  }

  /** Client and server agree: for every schema the walk accepts and all arguments of the annotated types. */
  lemma ClientAndServerAgree(schema: Value, arguments: Value)
    requires Analyze(schema).Ok?
    ensures var plan := Analyze(schema).value;
            && (Extract(plan, arguments, []).Some? <==> Representable(plan, arguments))
            && (Extract(plan, arguments, []).Some? ==>
                 (Validates(plan, arguments, Extract(plan, arguments, []).value) <==> forall b :: b in plan ==> Carried(b, arguments)))
  {
    PlanIsWellFormed(schema);
    var plan := Analyze(schema).value;
    ExtractSucceedsExactly(plan, arguments, []);
    if Extract(plan, arguments, []).Some? {
      ExtractedIsAccepted(plan, arguments);
    }
  }

  // ----- what is carried -----

  /** The values met along a path, from the arguments to the value at its end. */
  predicate Along(arguments: Value, path: seq<JsString>, nodes: seq<Value>) {
    && |nodes| == |path| + 1 && nodes[0] == arguments
    && forall i :: 0 <= i < |path| ==> nodes[i].Obj? && CanonicalJson.Property(nodes[i].fields, path[i]) == Some(nodes[i + 1])
  }

  lemma {:induction false} ValueAtPathExact(root: Value, path: seq<JsString>, v: Value)
    ensures ValueAtPath(root, path) == Some(v) <==> exists nodes :: Along(root, path, nodes) && nodes[|path|] == v
  {
    if path == [] {
      assert v == root ==> Along(root, path, [root]);
    } else {
      var tail := path[1..];
      forall nodes: seq<Value> | Along(root, path, nodes) ensures root.Obj? && CanonicalJson.Property(root.fields, path[0]) == Some(nodes[1]) {
        assert nodes[0].Obj?;
      }
      if root.Obj? && CanonicalJson.Property(root.fields, path[0]).Some? {
        var next := CanonicalJson.Property(root.fields, path[0]).value;
        ValueAtPathExact(next, tail, v);
        if nodes :| Along(next, tail, nodes) && nodes[|tail|] == v {
          assert Along(root, path, [root] + nodes) && ([root] + nodes)[|path|] == v;
        }
        if nodes :| Along(root, path, nodes) && nodes[|path|] == v {
          assert Along(next, tail, nodes[1..]) && nodes[1..][|tail|] == v;
        }
      }
    }
  }

  /** The argument of a binding is what stands at its path, unless that is null. */
  lemma ArgumentExact(b: Binding, arguments: Value, v: Value)
    ensures Argument(b, arguments) == Some(v) <==> !v.Null? && exists nodes :: Along(arguments, b.path, nodes) && nodes[|b.path|] == v
  {
    ValueAtPathExact(arguments, b.path, v);
    hide Along;
  }

  /** Which values travel and as what: strings as themselves, booleans by name, safe integers as text that denotes them. */
  lemma EncodedExact(b: Binding, v: Value)
    ensures EncodedValue(b, v).Some? <==>
            (b.valueType.StringType? && v.Str?) || (b.valueType.BooleanType? && v.Bool?) || (b.valueType.IntegerType? && v.Num? && v.number.Safe?)
    ensures b.valueType.StringType? && v.Str? && Utf8.WellFormed(v.text) ==> HeaderValues.Decode(EncodedValue(b, v).value) == Some(v.text)
    ensures b.valueType.BooleanType? && v.Bool? ==> EncodedValue(b, v) == Some(if v.flag then Ascii("true") else Ascii("false"))
    ensures b.valueType.IntegerType? && v.Num? && v.number.Safe? ==> IntegerHeader.Denotes(EncodedValue(b, v).value, v.number.value)
  {
    if v.Str? { HeaderValues.RoundTripExact(v.text); }
    if v.Num? && v.number.Safe? { IntegerHeader.PrintedIntegerDenotesItself(v.number.value); }
    hide HeaderValues.Decode;
    hide HeaderValues.Encode;
    hide IntegerHeader.Denotes;
    hide IntegerHeader.PrintInt;
    hide Utf8.WellFormed;
  }
}
