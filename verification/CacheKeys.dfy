/** Cache keys, entries and selectors of src/McpCache.ts, and the text a key is stored under. */
module CacheKeys {
  import opened Common
  import opened CanonicalJson
  import JsonText

  /** Finite JavaScript numbers, -0 and 0 being one. */
  type Number(==, !new)

  datatype Method = ServerDiscover | ToolsList | ResourcesList | ResourceTemplatesList | ResourcesRead | PromptsList

  datatype Scope = Public | Private

  datatype CacheKey = CacheKey(
    namespace: JsString,
    method_: Method,
    params: seq<Field<Number>>,
    protocolVersion: JsString,
    capabilities: seq<Field<Number>>,
    cacheScope: Scope,
    authorizationPartition: Option<JsString>)

  datatype CacheEntry = CacheEntry(result: seq<Field<Number>>, receivedAt: nat, expiresAt: nat, cacheScope: Scope)

  datatype Selector = Selector(namespace: JsString, methods: Option<seq<Method>>, uri: Option<JsString>)

  function MethodText(m: Method): JsString {
    match m
    case ServerDiscover => Ascii("server/discover")
    case ToolsList => Ascii("tools/list")
    case ResourcesList => Ascii("resources/list")
    case ResourceTemplatesList => Ascii("resources/templates/list")
    case ResourcesRead => Ascii("resources/read")
    case PromptsList => Ascii("prompts/list")
  }

  function ScopeText(s: Scope): JsString {
    match s
    case Public => Ascii("public")
    case Private => Ascii("private")
  }

  predicate WellFormedKey(key: CacheKey) {
    WellFormed(Obj(key.params)) && WellFormed(Obj(key.capabilities))
  }

  function PropertyName(i: nat): JsString
    requires i < 7
  {
    match i
    case 0 => Ascii("namespace")
    case 1 => Ascii("method")
    case 2 => Ascii("params")
    case 3 => Ascii("protocolVersion")
    case 4 => Ascii("capabilities")
    case 5 => Ascii("cacheScope")
    case _ => Ascii("authorizationPartition")
  }

  function PropertyValue(key: CacheKey, i: nat): Json<Number>
    requires i < PropertyCount(key)
  {
    match i
    case 0 => Str(key.namespace)
    case 1 => Str(MethodText(key.method_))
    case 2 => Obj(key.params)
    case 3 => Str(key.protocolVersion)
    case 4 => Obj(key.capabilities)
    case 5 => Str(ScopeText(key.cacheScope))
    case _ => Str(key.authorizationPartition.value)
  }

  function PropertyCount(key: CacheKey): nat {
    if key.authorizationPartition.None? then 6 else 7
  }

  /** The key as the object `makeCacheKey` builds, `authorizationPartition` present only when given. */
  function KeyJson(key: CacheKey): Json<Number> {
    Obj(seq(PropertyCount(key), i requires 0 <= i < PropertyCount(key) => Field(PropertyName(i), PropertyValue(key, i))))
  }

  /** `keyText`. */
  function KeyText(num: Number -> JsString, key: CacheKey): JsString {
    Text(num, KeyJson(key))
  }

  /** The three tests of the `invalidate` loop. */
  predicate Matches(selector: Selector, key: CacheKey) {
    && key.namespace == selector.namespace
    && (selector.methods.Some? ==> key.method_ in selector.methods.value)
    && (selector.uri.Some? ==> Property(key.params, Ascii("uri")) == Some(Str(selector.uri.value)))
  }

  // ----- equal texts are equal keys -----

  /** Two keys a caller would call equal: parameters and capabilities up to key order. */
  predicate SameKey(a: CacheKey, b: CacheKey) {
    && a.namespace == b.namespace && a.method_ == b.method_ && a.protocolVersion == b.protocolVersion
    && a.cacheScope == b.cacheScope && a.authorizationPartition == b.authorizationPartition
    && Same(Obj(a.params), Obj(b.params)) && Same(Obj(a.capabilities), Obj(b.capabilities))
  }

  lemma PropertyNamesDiffer(i: nat, j: nat)
    requires i < j < 7
    ensures PropertyName(i) != PropertyName(j)
  {
    assert PropertyName(1)[0] == 'm' as int && PropertyName(2)[0] == 'p' as int;
  }

  lemma MethodTextInjective(a: Method, b: Method)
    ensures MethodText(a) == MethodText(b) <==> a == b
  {
    assert MethodText(ResourcesList)[10] == 'l' as int && MethodText(ResourcesRead)[10] == 'r' as int;
  }

  lemma KeyJsonWellFormed(key: CacheKey)
    requires WellFormedKey(key)
    ensures WellFormed(KeyJson(key))
  {
    hide PropertyName;
    var fields := KeyJson(key).fields;
    forall i, j | 0 <= i < j < |fields| ensures fields[i].name != fields[j].name {
      PropertyNamesDiffer(i, j);
    }
    forall i | 0 <= i < |fields| ensures WellFormed(fields[i].value) {
      assert fields[i].value == PropertyValue(key, i);
    }
  }

  /** Two key objects are the same exactly when they agree property by property. */
  lemma KeyJsonSame(a: CacheKey, b: CacheKey)
    ensures Same(KeyJson(a), KeyJson(b)) <==>
              && PropertyCount(a) == PropertyCount(b)
              && forall i: nat :: i < PropertyCount(a) ==> Same(PropertyValue(a, i), PropertyValue(b, i))
  {
    hide PropertyName;
    hide PropertyValue;
    var xs, ys := KeyJson(a).fields, KeyJson(b).fields;
    if Covers(xs, ys) && |xs| == |ys| {
      forall i: nat | i < PropertyCount(a) ensures Same(PropertyValue(a, i), PropertyValue(b, i)) {
        var j :| 0 <= j < |ys| && xs[i].name == ys[j].name && Same(xs[i].value, ys[j].value);
        if i < j { PropertyNamesDiffer(i, j); }
        if j < i { PropertyNamesDiffer(j, i); }
      }
    }
    if |xs| == |ys| && forall i: nat :: i < PropertyCount(a) ==> Same(PropertyValue(a, i), PropertyValue(b, i)) {
      forall i | 0 <= i < |xs|
        ensures exists j :: 0 <= j < |ys| && xs[i].name == ys[j].name && Same(xs[i].value, ys[j].value)
      {
        assert xs[i].name == ys[i].name && Same(PropertyValue(a, i), PropertyValue(b, i));
      }
    }
  }

  /** Cache-key equality is structural equality of the keys. */
  lemma KeyTextExact(num: Number -> JsString, a: CacheKey, b: CacheKey)
    requires NumberText(num) && WellFormedKey(a) && WellFormedKey(b)
    ensures KeyText(num, a) == KeyText(num, b) <==> SameKey(a, b)
  {
    hide MethodText;
    hide ScopeText;
    hide KeyJson;
    hide Text;
    KeyJsonWellFormed(a);
    KeyJsonWellFormed(b);
    TextExact(num, KeyJson(a), KeyJson(b));
    KeyJsonSame(a, b);
    PropertiesSame(a, b);
  }

  lemma PropertiesSame(a: CacheKey, b: CacheKey)
    ensures (PropertyCount(a) == PropertyCount(b)
             && forall i: nat :: i < PropertyCount(a) ==> Same(PropertyValue(a, i), PropertyValue(b, i)))
       <==> SameKey(a, b)
  {
    hide Covers;
    MethodTextInjective(a.method_, b.method_);
    assert |ScopeText(Public)| != |ScopeText(Private)|;
    hide MethodText;
    hide ScopeText;
    if PropertyCount(a) == PropertyCount(b) && forall i: nat :: i < PropertyCount(a) ==> Same(PropertyValue(a, i), PropertyValue(b, i)) {
      assert Same(PropertyValue(a, 0), PropertyValue(b, 0)) && Same(PropertyValue(a, 1), PropertyValue(b, 1));
      assert Same(PropertyValue(a, 2), PropertyValue(b, 2)) && Same(PropertyValue(a, 3), PropertyValue(b, 3));
      assert Same(PropertyValue(a, 4), PropertyValue(b, 4)) && Same(PropertyValue(a, 5), PropertyValue(b, 5));
      assert a.authorizationPartition.Some? ==> Same(PropertyValue(a, 6), PropertyValue(b, 6));
    }
  }

  lemma {:induction false} PropertyByName(fields: seq<Field<Number>>, i: nat)
    requires DistinctNames(fields) && i < |fields|
    ensures Property(fields, fields[i].name) == Some(fields[i].value)
  {
    if i > 0 {
      PropertyByName(fields[1..], i - 1);
    }
  }

  lemma {:induction false} PropertyPosition(fields: seq<Field<Number>>, name: JsString) returns (i: nat)
    requires Property(fields, name).Some?
    ensures i < |fields| && fields[i].name == name && fields[i].value == Property(fields, name).value
  {
    if fields[0].name == name {
      i := 0;
    } else {
      i := PropertyPosition(fields[1..], name);
      i := i + 1;
    }
  }

  /** A string property of one object is the same property of any structurally equal object. */
  lemma SameProperty(xs: seq<Field<Number>>, ys: seq<Field<Number>>, name: JsString, s: JsString)
    requires DistinctNames(ys) && Same(Obj(xs), Obj(ys)) && Property(xs, name) == Some(Str(s))
    ensures Property(ys, name) == Some(Str(s))
  {
    var i := PropertyPosition(xs, name);
    var j :| 0 <= j < |ys| && xs[i].name == ys[j].name && Same(xs[i].value, ys[j].value);
    PropertyByName(ys, j);
  }

  /** An invalidation treats structurally equal keys alike, so it never depends on which of them was stored. */
  lemma MatchesRespectsEquality(num: Number -> JsString, selector: Selector, a: CacheKey, b: CacheKey)
    requires NumberText(num) && WellFormedKey(a) && WellFormedKey(b) && KeyText(num, a) == KeyText(num, b)
    ensures Matches(selector, a) ==> Matches(selector, b)
  {
    KeyTextExact(num, a, b);
    if selector.uri.Some? && Matches(selector, a) {
      SameProperty(a.params, b.params, Ascii("uri"), selector.uri.value);
    }
  }
}
