/**
 Reference collection and resolution of src/JsonSchemaRuntime.ts: the walk that lists the
 documents a schema refers to, and the worklist that fetches them within its budgets.
 URL parsing and the resolver are any functions.
 */
module SchemaReferences {
  import opened Common
  import opened CanonicalJson

  /** Numbers play no part here. */
  type Number(==, !new)

  type Schema = Json<Number>

  type Fields = seq<Field<Number>>

  type Uri = JsString

  /** `new URL(reference, base).href`, `documentUri` and the allow-list test. */
  datatype Urls = Urls(join: (JsString, Option<Uri>) -> Option<Uri>, document: Uri -> Uri, allowed: Uri -> bool)

  datatype Failure =
    | BadReference | DepthExceeded | ResolutionDisabled | UriNotAllowed
    | ResolverFailed | RedirectsExceeded | BytesExceeded | BadDocument

  const ID: JsString := Ascii("$id")
  const REF: JsString := Ascii("$ref")
  const DYNAMIC_REF: JsString := Ascii("$dynamicRef")
  const HASH: CodeUnit := 35

  /** Keywords holding one subschema. */
  const SINGLE: seq<JsString> := [
    Ascii("additionalProperties"),
    Ascii("unevaluatedProperties"),
    Ascii("propertyNames"),
    Ascii("items"),
    Ascii("contains"),
    Ascii("unevaluatedItems"),
    Ascii("not"),
    Ascii("if"),
    Ascii("then"),
    Ascii("else"),
    Ascii("contentSchema")
  ]

  /** Keywords holding a map of subschemas. */
  const MAPS: seq<JsString> := [
    Ascii("$defs"),
    Ascii("definitions"),
    Ascii("properties"),
    Ascii("patternProperties"),
    Ascii("dependentSchemas"),
    Ascii("dependencies")
  ]

  /** Keywords holding an array of subschemas. */
  const ARRAYS: seq<JsString> := [
    Ascii("prefixItems"),
    Ascii("allOf"),
    Ascii("anyOf"),
    Ascii("oneOf")
  ]

  predicate IsSchema(v: Schema) {
    v.Bool? || v.Obj?
  }

  // ----- the subschemas of an object -----

  function Schemas(items: seq<Schema>): (r: seq<Schema>)
    ensures forall c :: c in r ==> c in items
  {
    if items == [] then [] else (if IsSchema(items[0]) then [items[0]] else []) + Schemas(items[1..])
  }

  function Values(fields: Fields): (r: seq<Schema>)
    ensures forall c :: c in r ==> exists i :: 0 <= i < |fields| && fields[i].value == c
  {
    if fields == [] then [] else [fields[0].value] + Values(fields[1..])
  }

  /** What one keyword contributes: itself, the values of its map, or the items of its array. */
  datatype Shape = AsSingle | AsMap | AsArray

  function Under(fields: Fields, keyword: JsString, shape: Shape): (r: seq<Schema>)
    ensures forall c :: c in r ==> c < Obj(fields)
  {
    match (shape, Property(fields, keyword))
    case (AsSingle, Some(v)) => if IsSchema(v) then [v] else []
    case (AsMap, Some(Obj(members))) => Schemas(Values(members))
    case (AsArray, Some(Arr(items))) => Schemas(items)
    case _ => []
  }

  function UnderAll(fields: Fields, keywords: seq<JsString>, shape: Shape): (r: seq<Schema>)
    ensures forall c :: c in r ==> c < Obj(fields)
  {
    if keywords == [] then [] else Under(fields, keywords[0], shape) + UnderAll(fields, keywords[1..], shape)
  }

  /** `forEachSubschema`, as the list it visits. */
  function Children(fields: Fields): (r: seq<Schema>)
    ensures forall c :: c in r ==> c < Obj(fields)
  {
    UnderAll(fields, SINGLE, AsSingle) + UnderAll(fields, MAPS, AsMap) + UnderAll(fields, ARRAYS, AsArray)
  }

  // ----- bases -----

  /** `schemaBase`. */
  function SchemaBase(u: Urls, v: Schema, fallback: Option<Uri>): Result<Option<Uri>, Failure> {
    if !v.Obj? then Ok(fallback)
    else
      match Property(v.fields, ID)
      case Some(Str(id)) => (match u.join(id, fallback) case None => Err(BadReference) case Some(base) => Ok(Some(base)))
      case _ => Ok(fallback)
  }

  function Within(u: Urls, base: Option<Uri>, document: Uri): Uri {
    if base.Some? then u.document(base.value) else document
  }

  // ----- what a schema refers to -----

  /** The document one keyword refers to, if it is another one. */
  function Mention(u: Urls, fields: Fields, keyword: JsString, base: Option<Uri>, document: Uri): Result<seq<Uri>, Failure> {
    match Property(fields, keyword)
    case Some(Str(reference)) =>
      if reference != [] && reference[0] == HASH then Ok([])
      else
        (match u.join(reference, base)
         case None => Err(BadReference)
         case Some(absolute) => if u.document(absolute) != document then Ok([u.document(absolute)]) else Ok([]))
    case _ => Ok([])
  }

  function Join2(a: Result<seq<Uri>, Failure>, b: Result<seq<Uri>, Failure>): Result<seq<Uri>, Failure> {
    if a.Err? then a else if b.Err? then b else Ok(a.value + b.value)
  }

  /** Every document mentioned in a schema, in the order of the walk, as often as it is mentioned. */
  function Mentions(u: Urls, v: Schema, base: Option<Uri>, document: Uri): Result<seq<Uri>, Failure>
    decreases v, 1, 0
  {
    if !v.Obj? then Ok([])
    else
      match SchemaBase(u, v, base)
      case Err(failure) => Err(failure)
      case Ok(next) =>
        var here := Within(u, next, document);
        Join2(Join2(Mention(u, v.fields, REF, next, here), Mention(u, v.fields, DYNAMIC_REF, next, here)),
              MentionsOfAll(u, v, Children(v.fields), next, here))
  }

  function MentionsOfAll(u: Urls, parent: Schema, children: seq<Schema>, base: Option<Uri>, document: Uri): Result<seq<Uri>, Failure>
    requires forall c :: c in children ==> c < parent
    decreases parent, 0, |children|
  {
    if children == [] then Ok([])
    else
      assert children[0] in children && forall c :: c in children[1..] ==> c in children;
      Join2(Mentions(u, children[0], base, document), MentionsOfAll(u, parent, children[1..], base, document))
  }

  /** The list with the new ones appended, each once. */
  function Merge(found: seq<Uri>, mentions: seq<Uri>): seq<Uri>
    decreases |mentions|
  {
    if mentions == [] then found
    else Merge(if mentions[0] in found then found else found + [mentions[0]], mentions[1..])
  }

  predicate NoDuplicates(s: seq<Uri>) {
    forall i, j :: 0 <= i < j < |s| ==> s[i] != s[j]
  }

  lemma {:induction false} MergeExact(found: seq<Uri>, mentions: seq<Uri>)
    requires NoDuplicates(found)
    ensures NoDuplicates(Merge(found, mentions))
    ensures found <= Merge(found, mentions)
    ensures forall x :: x in Merge(found, mentions) <==> x in found || x in mentions
    decreases |mentions|
  {
    if mentions != [] {
      Head(mentions);
      MergeExact(if mentions[0] in found then found else found + [mentions[0]], mentions[1..]);
    }
  }

  lemma {:induction false} MergeConcat(found: seq<Uri>, a: seq<Uri>, b: seq<Uri>)
    ensures Merge(found, a + b) == Merge(Merge(found, a), b)
    decreases |a|
  {
    if a == [] {
      assert a + b == b;
    } else {
      assert (a + b)[1..] == a[1..] + b;
      MergeConcat(if a[0] in found then found else found + [a[0]], a[1..], b);
    }
  }

  /** `referencesIn`: the documents mentioned, each once, in the order of first mention. */
  function References(u: Urls, v: Schema, base: Option<Uri>, document: Uri): (r: Result<seq<Uri>, Failure>)
    ensures r.Ok? ==> NoDuplicates(r.value)
    ensures r.Ok? <==> Mentions(u, v, base, document).Ok?
    ensures r.Ok? ==> forall x :: x in r.value <==> x in Mentions(u, v, base, document).value
  {
    match Mentions(u, v, base, document)
    case Err(failure) => Err(failure)
    case Ok(mentions) =>
      MergeExact([], mentions);
      Ok(Merge([], mentions))
  }

  /** The walk of the source: one list that `visit` pushes onto. */
  class Collector {
    const urls: Urls
    var references: seq<Uri>
    var failure: Option<Failure>

    constructor (urls: Urls)
      ensures this.urls == urls && references == [] && failure == None
    {
      this.urls := urls;
      references, failure := [], None;
    }

    /** One round of the keyword loop. */
    method Note(fields: Fields, keyword: JsString, base: Option<Uri>, document: Uri)
      requires failure.None?
      modifies this
      ensures Advanced(old(references), Mention(urls, fields, keyword, base, document), references, failure)
    {
      var reference := Property(fields, keyword);
      if reference.None? || !reference.value.Str? || (reference.value.text != [] && reference.value.text[0] == HASH) {
        return;
      }
      var absolute := urls.join(reference.value.text, base);
      if absolute.None? {
        failure := Some(BadReference);
        return;
      }
      var target := urls.document(absolute.value);
      if target != document && target !in references {
        references := references + [target];
      }
    }

    /** `visit`. */
    method Visit(v: Schema, base: Option<Uri>, document: Uri)
      requires failure.None?
      modifies this
      ensures Advanced(old(references), Mentions(urls, v, base, document), references, failure)
      decreases v, 1, 0
    {
      if !v.Obj? {
        return;
      }
      var next := SchemaBase(urls, v, base);
      if next.Err? {
        failure := Some(next.error);
        return;
      }
      var here := Within(urls, next.value, document);
      ghost var start := references;
      Note(v.fields, REF, next.value, here);
      if failure.Some? {
        return;
      }
      ghost var first := references;
      Note(v.fields, DYNAMIC_REF, next.value, here);
      AdvancedTwice(start, Mention(urls, v.fields, REF, next.value, here), first, Mention(urls, v.fields, DYNAMIC_REF, next.value, here), references, failure);
      if failure.Some? {
        return;
      }
      ghost var second := references;
      VisitAll(v, Children(v.fields), next.value, here);
      AdvancedTwice(start, Join2(Mention(urls, v.fields, REF, next.value, here), Mention(urls, v.fields, DYNAMIC_REF, next.value, here)), second,
                    MentionsOfAll(urls, v, Children(v.fields), next.value, here), references, failure);
    }

    method VisitAll(ghost parent: Schema, children: seq<Schema>, base: Option<Uri>, document: Uri)
      requires failure.None? && forall c :: c in children ==> c < parent
      modifies this
      ensures Advanced(old(references), MentionsOfAll(urls, parent, children, base, document), references, failure)
      decreases parent, 0, |children|
    {
      if children == [] {
        return;
      }
      assert children[0] in children && forall c :: c in children[1..] ==> c in children;
      ghost var start := references;
      Visit(children[0], base, document);
      if failure.Some? {
        return;
      }
      ghost var first := references;
      VisitAll(parent, children[1..], base, document);
      AdvancedTwice(start, Mentions(urls, children[0], base, document), first, MentionsOfAll(urls, parent, children[1..], base, document), references, failure);
    }
  }

  /** The list after a part of the walk: the mentions merged in, or the failure that ended it. */
  ghost predicate Advanced(before: seq<Uri>, mentions: Result<seq<Uri>, Failure>, after: seq<Uri>, failure: Option<Failure>) {
    match mentions
    case Err(f) => failure == Some(f)
    case Ok(found) => failure.None? && after == Merge(before, found)
  }

  lemma AdvancedTwice(start: seq<Uri>, a: Result<seq<Uri>, Failure>, middle: seq<Uri>, b: Result<seq<Uri>, Failure>, after: seq<Uri>, failure: Option<Failure>)
    requires Advanced(start, a, middle, None) && Advanced(middle, b, after, failure)
    ensures Advanced(start, Join2(a, b), after, failure)
  {
    if a.Ok? && b.Ok? { MergeConcat(start, a.value, b.value); }
  }

  /** `referencesIn`. */
  method ReferencesIn(urls: Urls, v: Schema, base: Option<Uri>, document: Uri) returns (r: Result<seq<Uri>, Failure>)
    ensures r == References(urls, v, base, document)
    ensures r.Err? <==> Breaks(urls, v, base)
    ensures r.Ok? ==> NoDuplicates(r.value) && forall x :: x in r.value <==> Refers(urls, v, base, document, x)
  {
    ReferencesExact(urls, v, base, document);
    hide Refers;
    hide Breaks;
    hide Mentions;
    var collector := new Collector(urls);
    collector.Visit(v, base, document);
    return if collector.failure.Some? then Err(collector.failure.value) else Ok(collector.references);
  }

  // ----- where subschemas stand -----

  predicate SingleAt(fields: Fields, keyword: JsString, c: Schema) {
    Property(fields, keyword) == Some(c)
  }

  predicate MapAt(fields: Fields, keyword: JsString, c: Schema) {
    match Property(fields, keyword)
    case Some(Obj(members)) => exists i :: 0 <= i < |members| && members[i].value == c
    case _ => false
  }

  predicate ArrayAt(fields: Fields, keyword: JsString, c: Schema) {
    match Property(fields, keyword)
    case Some(Arr(items)) => c in items
    case _ => false
  }

  /** Keywords whose value is a subschema. */
  predicate ApplicatorPosition(fields: Fields, c: Schema) {
    || SingleAt(fields, Ascii("additionalProperties"), c)
    || SingleAt(fields, Ascii("unevaluatedProperties"), c)
    || SingleAt(fields, Ascii("propertyNames"), c)
    || SingleAt(fields, Ascii("items"), c)
    || SingleAt(fields, Ascii("contains"), c)
    || SingleAt(fields, Ascii("unevaluatedItems"), c)
  }

  /** More of them. */
  predicate OtherPosition(fields: Fields, c: Schema) {
    || SingleAt(fields, Ascii("not"), c)
    || SingleAt(fields, Ascii("if"), c)
    || SingleAt(fields, Ascii("then"), c)
    || SingleAt(fields, Ascii("else"), c)
    || SingleAt(fields, Ascii("contentSchema"), c)
  }

  /** Keywords whose value maps names to subschemas. */
  predicate MapPosition(fields: Fields, c: Schema) {
    || MapAt(fields, Ascii("$defs"), c)
    || MapAt(fields, Ascii("definitions"), c)
    || MapAt(fields, Ascii("properties"), c)
    || MapAt(fields, Ascii("patternProperties"), c)
    || MapAt(fields, Ascii("dependentSchemas"), c)
    || MapAt(fields, Ascii("dependencies"), c)
  }

  /** Keywords whose value lists subschemas. */
  predicate ArrayPosition(fields: Fields, c: Schema) {
    || ArrayAt(fields, Ascii("prefixItems"), c)
    || ArrayAt(fields, Ascii("allOf"), c)
    || ArrayAt(fields, Ascii("anyOf"), c)
    || ArrayAt(fields, Ascii("oneOf"), c)
  }

  /** The positions at which an object schema holds a subschema: alone, as a value of a map, or as an item of an array. */
  predicate Position(fields: Fields, c: Schema) {
    && (c.Bool? || c.Obj?)
    && (ApplicatorPosition(fields, c) || OtherPosition(fields, c) || MapPosition(fields, c) || ArrayPosition(fields, c))
  }

  predicate At(fields: Fields, keyword: JsString, shape: Shape, c: Schema) {
    match shape
    case AsSingle => SingleAt(fields, keyword, c)
    case AsMap => MapAt(fields, keyword, c)
    case AsArray => ArrayAt(fields, keyword, c)
  }

  lemma {:induction false} SchemasExact(items: seq<Schema>, c: Schema)
    ensures c in Schemas(items) <==> IsSchema(c) && c in items
  {
    if items != [] {
      SchemasExact(items[1..], c);
      Head(items);
    }
  }

  lemma {:induction false} ValuesExact(fields: Fields, c: Schema)
    ensures c in Values(fields) <==> exists i :: 0 <= i < |fields| && fields[i].value == c
  {
    if fields != [] {
      ValuesExact(fields[1..], c);
      if i :| 0 <= i < |fields| && fields[i].value == c {
        assert i > 0 ==> fields[1..][i - 1].value == c;
      }
      if i :| 0 <= i < |fields[1..]| && fields[1..][i].value == c {
        assert fields[i + 1].value == c;
      }
    }
  }

  lemma UnderExact(fields: Fields, keyword: JsString, shape: Shape, c: Schema)
    ensures c in Under(fields, keyword, shape) <==> IsSchema(c) && At(fields, keyword, shape, c)
  {
    match (shape, Property(fields, keyword)) {
      case (AsMap, Some(Obj(members))) =>
        SchemasExact(Values(members), c);
        ValuesExact(members, c);
      case (AsArray, Some(Arr(items))) => SchemasExact(items, c);
      case _ =>
    }
    hide Property;
    hide Values;
    hide Schemas;
  }

  lemma {:induction false} UnderAllExact(fields: Fields, keywords: seq<JsString>, shape: Shape, c: Schema)
    ensures c in UnderAll(fields, keywords, shape) <==> exists i :: 0 <= i < |keywords| && IsSchema(c) && At(fields, keywords[i], shape, c)
  {
    hide At;
    hide Under;
    if keywords != [] {
      var rest := keywords[1..];
      UnderExact(fields, keywords[0], shape, c);
      UnderAllExact(fields, rest, shape, c);
      if i :| 0 <= i < |keywords| && IsSchema(c) && At(fields, keywords[i], shape, c) {
        assert i > 0 ==> rest[i - 1] == keywords[i];
      }
      if i :| 0 <= i < |rest| && IsSchema(c) && At(fields, rest[i], shape, c) {
        assert keywords[i + 1] == rest[i];
      }
    }
  }

  lemma SinglePositions(fields: Fields, c: Schema)
    ensures (exists i :: 0 <= i < |SINGLE| && SingleAt(fields, SINGLE[i], c)) <==> ApplicatorPosition(fields, c) || OtherPosition(fields, c)
  {
    hide SingleAt;
    hide Ascii;
    assert |SINGLE| == 11;
    assert SingleAt(fields, SINGLE[0], c) || SingleAt(fields, SINGLE[1], c) || SingleAt(fields, SINGLE[2], c) || SingleAt(fields, SINGLE[3], c)
           || SingleAt(fields, SINGLE[4], c) || SingleAt(fields, SINGLE[5], c) || SingleAt(fields, SINGLE[6], c) || SingleAt(fields, SINGLE[7], c)
           || SingleAt(fields, SINGLE[8], c) || SingleAt(fields, SINGLE[9], c) || SingleAt(fields, SINGLE[10], c)
           <==> exists i :: 0 <= i < |SINGLE| && SingleAt(fields, SINGLE[i], c);
  }

  lemma MapPositions(fields: Fields, c: Schema)
    ensures (exists i :: 0 <= i < |MAPS| && MapAt(fields, MAPS[i], c)) <==> MapPosition(fields, c)
  {
    hide MapAt;
    hide Ascii;
    assert |MAPS| == 6;
    assert MapAt(fields, MAPS[0], c) || MapAt(fields, MAPS[1], c) || MapAt(fields, MAPS[2], c) || MapAt(fields, MAPS[3], c)
           || MapAt(fields, MAPS[4], c) || MapAt(fields, MAPS[5], c)
           <==> exists i :: 0 <= i < |MAPS| && MapAt(fields, MAPS[i], c);
  }

  lemma ArrayPositions(fields: Fields, c: Schema)
    ensures (exists i :: 0 <= i < |ARRAYS| && ArrayAt(fields, ARRAYS[i], c)) <==> ArrayPosition(fields, c)
  {
    hide ArrayAt;
    hide Ascii;
    assert |ARRAYS| == 4;
    assert ArrayAt(fields, ARRAYS[0], c) || ArrayAt(fields, ARRAYS[1], c) || ArrayAt(fields, ARRAYS[2], c) || ArrayAt(fields, ARRAYS[3], c)
           <==> exists i :: 0 <= i < |ARRAYS| && ArrayAt(fields, ARRAYS[i], c);
  }

  /** The walk descends into exactly the schemas at those positions. */
  lemma ChildrenExact(fields: Fields, c: Schema)
    ensures c in Children(fields) <==> Position(fields, c)
  {
    UnderAllExact(fields, SINGLE, AsSingle, c);
    UnderAllExact(fields, MAPS, AsMap, c);
    UnderAllExact(fields, ARRAYS, AsArray, c);
    SinglePositions(fields, c);
    MapPositions(fields, c);
    ArrayPositions(fields, c);
    hide UnderAll;
    hide SingleAt;
    hide MapAt;
    hide ArrayAt;
    hide ApplicatorPosition;
    hide OtherPosition;
    hide MapPosition;
    hide ArrayPosition;
  }

  // ----- which documents a schema refers to -----

  /** The base inside a schema: its `$id`, if it is a string, joined to the inherited base. */
  predicate Rebased(u: Urls, fields: Fields, base: Option<Uri>, next: Option<Uri>) {
    match Property(fields, Ascii("$id"))
    case Some(Str(id)) => next.Some? && u.join(id, base) == next
    case _ => next == base
  }

  /** The keyword holds a reference, not a fragment of the schema's own document, that joins to a URI in another document. */
  predicate Leads(u: Urls, fields: Fields, keyword: JsString, base: Option<Uri>, here: Uri, x: Uri) {
    match Property(fields, keyword)
    case Some(Str(reference)) =>
      && (reference == [] || reference[0] != HASH)
      && u.join(reference, base).Some? && u.document(u.join(reference, base).value) == x && x != here
    case _ => false
  }

  /** Some schema reachable through the positions refers to the document. */
  ghost predicate Refers(u: Urls, v: Schema, base: Option<Uri>, document: Uri, x: Uri)
    decreases v, 1
  {
    v.Obj? && exists next: Option<Uri> :: Rebased(u, v.fields, base, next)
                                          && RefersFrom(u, v, next, if next.Some? then u.document(next.value) else document, x)
  }

  ghost predicate RefersFrom(u: Urls, v: Schema, base: Option<Uri>, here: Uri, x: Uri)
    requires v.Obj?
    decreases v, 0
  {
    || Leads(u, v.fields, Ascii("$ref"), base, here, x) || Leads(u, v.fields, Ascii("$dynamicRef"), base, here, x)
    || exists c: Schema :: c < v && Position(v.fields, c) && Refers(u, c, base, here, x)
  }

  /** The keyword holds a reference, not a fragment, that does not join. */
  predicate Dangles(u: Urls, fields: Fields, keyword: JsString, base: Option<Uri>) {
    match Property(fields, keyword)
    case Some(Str(reference)) => (reference == [] || reference[0] != HASH) && u.join(reference, base).None?
    case _ => false
  }

  /** Some schema reachable through the positions has an `$id` or a reference that does not join. */
  ghost predicate Breaks(u: Urls, v: Schema, base: Option<Uri>)
    decreases v, 1
  {
    v.Obj? && (|| (forall next: Option<Uri> :: !Rebased(u, v.fields, base, next))
               || exists next: Option<Uri> :: Rebased(u, v.fields, base, next) && BreaksFrom(u, v, next))
  }

  ghost predicate BreaksFrom(u: Urls, v: Schema, base: Option<Uri>)
    requires v.Obj?
    decreases v, 0
  {
    || Dangles(u, v.fields, Ascii("$ref"), base) || Dangles(u, v.fields, Ascii("$dynamicRef"), base)
    || exists c: Schema :: c < v && Position(v.fields, c) && Breaks(u, c, base)
  }

  lemma RebasedExact(u: Urls, v: Schema, base: Option<Uri>)
    requires v.Obj?
    ensures SchemaBase(u, v, base).Ok? ==> forall next :: Rebased(u, v.fields, base, next) <==> next == SchemaBase(u, v, base).value
    ensures SchemaBase(u, v, base).Err? ==> forall next :: !Rebased(u, v.fields, base, next)
  {
    hide Property;
  }

  lemma MentionExact(u: Urls, fields: Fields, keyword: JsString, base: Option<Uri>, document: Uri, x: Uri)
    ensures Mention(u, fields, keyword, base, document).Err? <==> Dangles(u, fields, keyword, base)
    ensures Mention(u, fields, keyword, base, document).Ok? ==> (x in Mention(u, fields, keyword, base, document).value <==> Leads(u, fields, keyword, base, document, x))
  {
    hide Property;
  }

  ghost predicate SomeRefers(u: Urls, children: seq<Schema>, base: Option<Uri>, document: Uri, x: Uri) {
    exists i :: 0 <= i < |children| && Refers(u, children[i], base, document, x)
  }

  ghost predicate SomeBreaks(u: Urls, children: seq<Schema>, base: Option<Uri>) {
    exists i :: 0 <= i < |children| && Breaks(u, children[i], base)
  }

  lemma SomeCons(u: Urls, children: seq<Schema>, base: Option<Uri>, document: Uri, x: Uri)
    requires children != []
    ensures SomeRefers(u, children, base, document, x) <==> Refers(u, children[0], base, document, x) || SomeRefers(u, children[1..], base, document, x)
    ensures SomeBreaks(u, children, base) <==> Breaks(u, children[0], base) || SomeBreaks(u, children[1..], base)
  {
    hide Refers;
    hide Breaks;
    var rest := children[1..];
    if i :| 0 <= i < |children| && Refers(u, children[i], base, document, x) { assert i > 0 ==> rest[i - 1] == children[i]; }
    if i :| 0 <= i < |rest| && Refers(u, rest[i], base, document, x) { assert children[i + 1] == rest[i]; }
    if i :| 0 <= i < |children| && Breaks(u, children[i], base) { assert i > 0 ==> rest[i - 1] == children[i]; }
    if i :| 0 <= i < |rest| && Breaks(u, rest[i], base) { assert children[i + 1] == rest[i]; }
  }

  lemma SomeChild(u: Urls, v: Schema, base: Option<Uri>, document: Uri, x: Uri)
    requires v.Obj?
    ensures SomeRefers(u, Children(v.fields), base, document, x) <==> exists c: Schema :: c < v && Position(v.fields, c) && Refers(u, c, base, document, x)
    ensures SomeBreaks(u, Children(v.fields), base) <==> exists c: Schema :: c < v && Position(v.fields, c) && Breaks(u, c, base)
  {
    hide Refers;
    hide Breaks;
    hide Position;
    var children := Children(v.fields);
    forall c: Schema ensures c in children <==> Position(v.fields, c) {
      ChildrenExact(v.fields, c);
    }
    hide Children;
    if i :| 0 <= i < |children| && Refers(u, children[i], base, document, x) { assert children[i] in children; }
    if i :| 0 <= i < |children| && Breaks(u, children[i], base) { assert children[i] in children; }
  }

  /** The walk mentions exactly the documents referred to, and fails exactly when something reachable does not join. */
  lemma {:induction false} MentionsExact(u: Urls, v: Schema, base: Option<Uri>, document: Uri, x: Uri)
    ensures Mentions(u, v, base, document).Err? <==> Breaks(u, v, base)
    ensures Mentions(u, v, base, document).Ok? ==> (x in Mentions(u, v, base, document).value <==> Refers(u, v, base, document, x))
    decreases v, 1, 0
  {
    hide Mention;
    hide Leads;
    hide Dangles;
    hide Position;
    hide SomeRefers;
    hide SomeBreaks;
    if v.Obj? {
      RebasedExact(u, v, base);
      hide Rebased;
      if SchemaBase(u, v, base).Ok? {
        var next := SchemaBase(u, v, base).value;
        var here := Within(u, next, document);
        hide SchemaBase;
        MentionExact(u, v.fields, REF, next, here, x);
        MentionExact(u, v.fields, DYNAMIC_REF, next, here, x);
        MentionsOfAllExact(u, v, Children(v.fields), next, here, x);
        SomeChild(u, v, next, here, x);
        hide Children;
        FromExact(u, v, base, next, document, here, x);
      }
    }
  }

  lemma FromExact(u: Urls, v: Schema, base: Option<Uri>, next: Option<Uri>, document: Uri, here: Uri, x: Uri)
    requires v.Obj? && (forall n :: Rebased(u, v.fields, base, n) <==> n == next)
    requires here == if next.Some? then u.document(next.value) else document
    ensures Refers(u, v, base, document, x) <==> RefersFrom(u, v, next, here, x)
    ensures Breaks(u, v, base) <==> BreaksFrom(u, v, next)
  {
    hide Rebased;
    hide RefersFrom;
    hide BreaksFrom;
    assert Rebased(u, v.fields, base, next);
  }

  lemma {:induction false} MentionsOfAllExact(u: Urls, parent: Schema, children: seq<Schema>, base: Option<Uri>, document: Uri, x: Uri)
    requires forall c :: c in children ==> c < parent
    ensures MentionsOfAll(u, parent, children, base, document).Err? <==> SomeBreaks(u, children, base)
    ensures MentionsOfAll(u, parent, children, base, document).Ok? ==>
              (x in MentionsOfAll(u, parent, children, base, document).value <==> SomeRefers(u, children, base, document, x))
    decreases parent, 0, |children|
  {
    hide Refers;
    hide Breaks;
    hide Mentions;
    if children != [] {
      assert children[0] in children && forall c :: c in children[1..] ==> c in children;
      MentionsExact(u, children[0], base, document, x);
      MentionsOfAllExact(u, parent, children[1..], base, document, x);
      SomeCons(u, children, base, document, x);
      hide SomeRefers;
      hide SomeBreaks;
    }
  }

  /** What the walk lists, without the walk. */
  lemma ReferencesExact(u: Urls, v: Schema, base: Option<Uri>, document: Uri)
    ensures References(u, v, base, document).Err? <==> Breaks(u, v, base)
    ensures References(u, v, base, document).Ok? ==> forall x :: x in References(u, v, base, document).value <==> Refers(u, v, base, document, x)
  {
    hide Refers;
    hide Breaks;
    hide Mentions;
    MentionsExact(u, v, base, document, []);
    forall x | References(u, v, base, document).Ok? ensures x in References(u, v, base, document).value <==> Refers(u, v, base, document, x) {
      MentionsExact(u, v, base, document, x);
    }
  }

  /** A walk fails for one reason only. */
  lemma {:induction false} MentionErrors(u: Urls, v: Schema, base: Option<Uri>, document: Uri)
    requires Mentions(u, v, base, document).Err?
    ensures Mentions(u, v, base, document).error == BadReference
    decreases v, 1, 0
  {
    hide Property;
    if v.Obj? && SchemaBase(u, v, base).Ok? {
      var next := SchemaBase(u, v, base).value;
      var here := Within(u, next, document);
      if MentionsOfAll(u, v, Children(v.fields), next, here).Err? { MentionsOfAllErrors(u, v, Children(v.fields), next, here); }
      hide Children;
    }
  }

  lemma {:induction false} MentionsOfAllErrors(u: Urls, parent: Schema, children: seq<Schema>, base: Option<Uri>, document: Uri)
    requires (forall c :: c in children ==> c < parent) && MentionsOfAll(u, parent, children, base, document).Err?
    ensures MentionsOfAll(u, parent, children, base, document).error == BadReference
    decreases parent, 0, |children|
  {
    hide Mentions;
    assert children[0] in children && forall c :: c in children[1..] ==> c in children;
    if Mentions(u, children[0], base, document).Err? { MentionErrors(u, children[0], base, document); }
    else { MentionsOfAllErrors(u, parent, children[1..], base, document); }
  }

  lemma ReferenceErrors(u: Urls, v: Schema, base: Option<Uri>, document: Uri)
    ensures References(u, v, base, document).Err? ==> References(u, v, base, document).error == BadReference
  {
    if Mentions(u, v, base, document).Err? { MentionErrors(u, v, base, document); }
    hide Mentions;
  }

  // ----- a document's own $id is joined twice -----

  /**
   `resolveDocuments` starts the walk from the base that already holds a document's `$id`,
   and the walk joins that `$id` again. What the document means is the walk from the URI it
   was fetched from, joining the `$id` once.
   */
  predicate WalkAgrees(u: Urls, v: Schema, fallback: Option<Uri>, document: Uri) {
    match SchemaBase(u, v, fallback)
    case Err(_) => false
    case Ok(base) => References(u, v, base, Within(u, base, document)) == References(u, v, fallback, document)
  }

  /** A second join of the `$id` changes nothing; so it is without an `$id`. */
  predicate Stable(u: Urls, v: Schema, base: Option<Uri>) {
    SchemaBase(u, v, base) == Ok(base)
  }

  /** Where the second join changes nothing the walk lists what the document means. */
  lemma StableIdIsHarmless(u: Urls, v: Schema, fallback: Option<Uri>, document: Uri)
    requires SchemaBase(u, v, fallback).Ok? && Stable(u, v, SchemaBase(u, v, fallback).value)
    ensures WalkAgrees(u, v, fallback, document)
  {
    var base := SchemaBase(u, v, fallback).value;
    assert Within(u, base, Within(u, base, document)) == Within(u, base, document);
    hide Mention;
    hide MentionsOfAll;
    hide Merge;
    hide Children;
    hide Within;
    assert Mentions(u, v, base, Within(u, base, document)) == Mentions(u, v, fallback, document) by { hide SchemaBase; }
    hide SchemaBase;
  }

  /** An `$id` that does not look at its base, as an absolute one, is stable. */
  lemma AbsoluteIdIsStable(u: Urls, v: Schema, fallback: Option<Uri>)
    requires SchemaBase(u, v, fallback).Ok?
    requires v.Obj? && Property(v.fields, ID).Some? && Property(v.fields, ID).value.Str? ==>
               forall base :: u.join(Property(v.fields, ID).value.text, base) == u.join(Property(v.fields, ID).value.text, fallback)
    ensures Stable(u, v, SchemaBase(u, v, fallback).value)
  {
    hide Property;
  }

  const SLASH: CodeUnit := 47

  /** The text up to and including the last slash. */
  function Directory(uri: Uri): Uri {
    if uri == [] then [] else if uri[|uri| - 1] == SLASH then uri else Directory(uri[..|uri| - 1])
  }

  const QUESTION: CodeUnit := 63
  const DOT: CodeUnit := 46

  /** A reference with a colon is absolute, an empty one its base, any other is merged as in section 5.2.3 of RFC 3986. */
  function Sibling(reference: JsString, base: Option<Uri>): Option<Uri> {
    if COLON in reference then Some(reference)
    else if base.None? then None
    else Some(if reference == [] then base.value else Directory(base.value) + reference)
  }

  /** A relative path that needs nothing but the merge: no scheme, query, fragment, leading slash or dot segment. */
  predicate PlainPath(p: JsString) {
    && COLON !in p && QUESTION !in p && HASH !in p
    && (p != [] ==> p[0] != SLASH)
    && (forall i, j :: 0 <= i < j <= |p| && (i == 0 || p[i - 1] == SLASH) && (j == |p| || p[j] == SLASH) ==> p[i..j] != [DOT] && p[i..j] != [DOT, DOT])
  }

  lemma {:induction false} StringsHoldNoSchema(fields: Fields, keywords: seq<JsString>, shape: Shape)
    requires forall i :: 0 <= i < |fields| ==> fields[i].value.Str?
    ensures UnderAll(fields, keywords, shape) == []
  {
    if keywords != [] {
      StringsHoldNoSchema(fields, keywords[1..], shape);
    }
  }

  lemma DirectoryOf(directory: Uri, name: JsString)
    requires directory != [] && directory[|directory| - 1] == SLASH && SLASH !in name
    ensures Directory(directory + name) == directory
  {
    if name == [] {
      assert directory + name == directory;
    } else {
      assert (directory + name)[..|directory + name| - 1] == directory + name[..|name| - 1];
      assert name[|name| - 1] in name;
      DirectoryOf(directory, name[..|name| - 1]);
    }
  }

  function Referring(id: JsString, reference: JsString): Fields {
    [Field(ID, Str(id)), Field(REF, Str(reference))]
  }

  lemma ReferringFields(id: JsString, reference: JsString)
    ensures var fields := Referring(id, reference);
            && Property(fields, ID) == Some(Str(id)) && Property(fields, REF) == Some(Str(reference)) && Property(fields, DYNAMIC_REF) == None
            && Children(fields) == []
  {
    var fields := Referring(id, reference);
    StringsHoldNoSchema(fields, SINGLE, AsSingle);
    StringsHoldNoSchema(fields, MAPS, AsMap);
    StringsHoldNoSchema(fields, ARRAYS, AsArray);
    hide UnderAll;
    assert fields[1..] == [Field(REF, Str(reference))];
  }

  /** What one reference names under a base: nothing when it stays in the document. */
  function Named(u: Urls, reference: JsString, base: Option<Uri>): Result<seq<Uri>, Failure> {
    if base.None? then Err(BadReference)
    else
      match u.join(reference, base)
      case None => Err(BadReference)
      case Some(target) => if u.document(target) != u.document(base.value) then Ok([u.document(target)]) else Ok([])
  }

  /** A schema with an `$id` and one reference refers to what that reference names under the joined base. */
  lemma OneReference(u: Urls, id: JsString, reference: JsString, base: Option<Uri>, document: Uri)
    requires reference != [] && reference[0] != HASH
    ensures References(u, Obj(Referring(id, reference)), base, document) == Named(u, reference, u.join(id, base))
  {
    var fields := Referring(id, reference);
    ReferringFields(id, reference);
    hide Property;
    hide Children;
    hide Referring;
    var v: Schema := Obj(fields);
    var joined := u.join(id, base);
    if joined.Some? {
      assert SchemaBase(u, v, base) == Ok(Some(joined.value));
      var named := Named(u, reference, joined);
      assert MentionsOfAll(u, v, Children(fields), joined, u.document(joined.value)) == Ok([]);
      if named.Ok? { assert named.value + [] == named.value; }
      assert Mentions(u, v, base, document) == named;
      if named.Ok? && named.value != [] { assert named.value[1..] == [] && [] + [named.value[0]] == named.value; }
      hide Mentions;
      MergeOne(named);
    }
  }

  lemma MergeOne(named: Result<seq<Uri>, Failure>)
    requires named.Ok? ==> |named.value| <= 1
    ensures named.Ok? ==> Merge([], named.value) == named.value
  {
    if named.Ok? && named.value != [] { assert named.value[1..] == [] && [] + [named.value[0]] == named.value; }
  }

  /** For any URLs: the walk of a document with one reference agrees with its meaning exactly when the reference names the same under the base and under the base joined again. */
  lemma OneReferenceExact(u: Urls, id: JsString, reference: JsString, fallback: Option<Uri>, document: Uri)
    requires reference != [] && reference[0] != HASH && u.join(id, fallback).Some?
    ensures WalkAgrees(u, Obj(Referring(id, reference)), fallback, document) <==>
            Named(u, reference, u.join(id, u.join(id, fallback))) == Named(u, reference, u.join(id, fallback))
  {
    var base := u.join(id, fallback);
    ReferringFields(id, reference);
    OneReference(u, id, reference, base, Within(u, base, document));
    OneReference(u, id, reference, fallback, document);
    hide References;
    hide Property;
    hide Named;
    hide Referring;
    hide Children;
  }

  predicate IsDirectory(d: Uri) {
    d != [] && d[|d| - 1] == SLASH && QUESTION !in d && HASH !in d
  }

  /** The last segment of a path, possibly empty. */
  predicate IsName(s: JsString) {
    SLASH !in s && COLON !in s && QUESTION !in s && HASH !in s
  }

  lemma SiblingOf(directory: Uri, name: JsString, reference: JsString)
    requires IsDirectory(directory) && IsName(name) && reference != [] && COLON !in reference
    ensures Sibling(reference, Some(directory + name)) == Some(directory + reference)
  {
    DirectoryOf(directory, name);
  }

  /** URLs reduced to paths: a document is its own name and everything is allowed. */
  function Paths(): Urls {
    Urls(Sibling, (x: Uri) => x, (x: Uri) => true)
  }

  lemma PathJoin(directory: Uri, name: JsString, reference: JsString)
    requires IsDirectory(directory) && IsName(name) && reference != [] && COLON !in reference
    ensures Paths().join(reference, Some(directory + name)) == Some(directory + reference)
    ensures forall x: Uri :: Paths().document(x) == x
  {
    SiblingOf(directory, name, reference);
    hide Sibling;
  }

  lemma SameDirectory(directory: Uri, s: JsString, t: JsString)
    requires s != t
    ensures directory + s != directory + t
  {
    assert (directory + s)[|directory|..] == s && (directory + t)[|directory|..] == t;
  }

  lemma NamedBeside(directory: Uri, name: JsString, reference: JsString)
    requires IsDirectory(directory) && IsName(name) && name != reference && reference != [] && COLON !in reference
    ensures Named(Paths(), reference, Some(directory + name)) == Ok([directory + reference])
  {
    PathJoin(directory, name, reference);
    SameDirectory(directory, name, reference);
    hide Paths;
  }

  lemma ReferringBase(u: Urls, id: JsString, reference: JsString, base: Option<Uri>)
    requires u.join(id, base).Some?
    ensures SchemaBase(u, Obj(Referring(id, reference)), base) == Ok(u.join(id, base))
  {
    ReferringFields(id, reference);
    hide Property;
    hide Referring;
    hide Children;
  }

  /**
   A document fetched from `h/f` whose `$id` is a relative path `d/s` and that refers to `t`:
   the reference means `h/d/t`, but the walk asks for `h/d/d/t`.
   */
  lemma RelativeIdAppliesTwice(h: Uri, f: JsString, d: Uri, s: JsString, t: JsString)
    requires IsDirectory(h) && IsName(f) && IsDirectory(d) && IsName(s) && PlainPath(d + s) && IsName(t) && PlainPath(t)
    requires t != [] && t != s
    ensures var v: Schema := Obj(Referring(d + s, t));
            && SchemaBase(Paths(), v, Some(h + f)) == Ok(Some(h + d + s))
            && References(Paths(), v, Some(h + f), h + f) == Ok([h + d + t])
            && References(Paths(), v, Some(h + d + s), h + d + s) == Ok([h + d + d + t])
            && h + d + d + t != h + d + t
  {
    assert IsDirectory(h + d) && IsDirectory(h + d + d) && t[0] != HASH && COLON !in t && COLON !in d + s && d + s != [];
    assert |h + d + d + t| > |h + d + t|;
    hide *;
    PathJoin(h, f, d + s);
    PathJoin(h + d, s, d + s);
    ReferringBase(Paths(), d + s, t, Some(h + f));
    OneReference(Paths(), d + s, t, Some(h + f), h + f);
    OneReference(Paths(), d + s, t, Some(h + d + s), h + d + s);
    Assoc(h, d, s);
    Assoc(h + d, d, s);
    NamedBeside(h + d, s, t);
    NamedBeside(h + d + d, s, t);
  }

  /** A path is its directory followed by a name. */
  lemma {:induction false} DirectorySplits(p: Uri)
    ensures var d := Directory(p);
            && d <= p && SLASH !in p[|d|..]
            && (d == [] <==> SLASH !in p) && (d != [] ==> d[|d| - 1] == SLASH)
  {
    if p != [] && p[|p| - 1] != SLASH {
      var q := p[..|p| - 1];
      DirectorySplits(q);
      assert p == q + [p[|p| - 1]];
    }
  }

  lemma NameIdIsStable(h: Uri, f: JsString, id: JsString, fields: Fields)
    requires IsDirectory(h) && IsName(f) && IsName(id) && Property(fields, ID) == Some(Str(id))
    ensures WalkAgrees(Paths(), Obj(fields), Some(h + f), h + f)
  {
    if id != [] {
      PathJoin(h, f, id);
      PathJoin(h, id, id);
    }
    hide Property;
    hide References;
    hide Directory;
    var base := if id == [] then h + f else h + id;
    assert SchemaBase(Paths(), Obj(fields), Some(h + f)) == Ok(Some(base));
    assert Stable(Paths(), Obj(fields), Some(base));
    hide Paths;
    StableIdIsHarmless(Paths(), Obj(fields), Some(h + f), h + f);
  }

  lemma NestedIdIsNot(h: Uri, f: JsString, d: Uri, s: JsString) returns (fields: Fields)
    requires IsDirectory(h) && IsName(f) && IsDirectory(d) && IsName(s) && PlainPath(d + s)
    ensures Property(fields, ID) == Some(Str(d + s)) && !WalkAgrees(Paths(), Obj(fields), Some(h + f), h + f)
  {
    var t := if s == [65] then [66] else [65];
    RelativeIdAppliesTwice(h, f, d, s, t);
    ReferringFields(d + s, t);
    hide References;
    hide SchemaBase;
    hide Property;
    fields := Referring(d + s, t);
    hide Referring;
    assert Within(Paths(), Some(h + d + s), h + f) == h + d + s;
  }

  /**
   Under the path merge: every document with a given relative `$id`, whatever else it holds,
   is walked as it means exactly when the `$id` has no directory part.
   */
  lemma DirectoryFreeExactly(h: Uri, f: JsString, id: JsString)
    requires IsDirectory(h) && IsName(f) && PlainPath(id)
    ensures (forall fields: Fields :: Property(fields, ID) == Some(Str(id)) ==> WalkAgrees(Paths(), Obj(fields), Some(h + f), h + f))
       <==> SLASH !in id
  {
    if SLASH !in id {
      forall fields: Fields | Property(fields, ID) == Some(Str(id)) ensures WalkAgrees(Paths(), Obj(fields), Some(h + f), h + f) {
        hide Property;
        hide WalkAgrees;
        NameIdIsStable(h, f, id, fields);
      }
    } else {
      hide Property;
      hide WalkAgrees;
      var d := Directory(id);
      DirectorySplits(id);
      var s := id[|d|..];
      assert d + s == id;
      var fields := NestedIdIsNot(h, f, d, s);
    }
  }
}
