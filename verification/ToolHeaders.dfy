/**
 Tool-argument headers of src/transport/HttpMetadata.ts: the schema walk that plans
 them, the client's extraction and the server's validation, and why the two agree.
 Schemas and arguments are plain JSON trees.
 */
module ToolHeaders {
  import opened Common
  import opened CanonicalJson
  import HeaderValues
  import IntegerHeader

  /** A JavaScript number: a safe integer (-0 being 0) or anything else. */
  datatype JsNumber = Safe(value: int) | Unsafe

  type Value = Json<JsNumber>

  datatype ValueType = StringType | BooleanType | IntegerType

  datatype Binding = Binding(path: seq<JsString>, name: JsString, valueType: ValueType)

  datatype Reason = AnnotationOutsideProperties | InvalidHeaderName | DuplicateHeaderName | UnsupportedPropertyType

  /** Property names and type names of the schema vocabulary the walk looks at. */
  const ANNOTATION: JsString := Ascii("x-mcp-header")
  const TYPE: JsString := Ascii("type")
  const PROPERTIES: JsString := Ascii("properties")
  const STRING: JsString := Ascii("string")
  const BOOLEAN: JsString := Ascii("boolean")
  const INTEGER: JsString := Ascii("integer")
  const OBJECT: JsString := Ascii("object")

  /** Keywords that end a pure object schema. */
  const IMPURE: set<JsString> := {
    Ascii("$ref"), Ascii("items"), Ascii("prefixItems"),
    Ascii("contains"), Ascii("oneOf"), Ascii("anyOf"), Ascii("allOf"),
    Ascii("not"), Ascii("if"), Ascii("then"), Ascii("else")
  }

  const HEADER_PREFIX: JsString := Ascii("Mcp-Param-")

  /** `!#$%&'*+-.^_|~` and the backquote. */
  const TOKEN_MARKS: set<CodeUnit> := {33, 35, 36, 37, 38, 39, 42, 43, 45, 46, 94, 95, 96, 124, 126}

  predicate TokenUnit(c: CodeUnit) {
    48 <= c <= 57 || 65 <= c <= 90 || 97 <= c <= 122 || c in TOKEN_MARKS
  }

  /** `tchar.test(name)`. */
  predicate Token(name: JsString) {
    name != [] && forall i :: 0 <= i < |name| ==> TokenUnit(name[i])
  }

  /** `toLowerCase` on ASCII. */
  function Fold(name: JsString): (r: JsString)
    ensures |r| == |name|
  {
    seq(|name|, i requires 0 <= i < |name| => if 65 <= name[i] <= 90 then name[i] + 32 else name[i])
  }

  function HeaderName(b: Binding): JsString {
    HEADER_PREFIX + b.name
  }

  // ----- the schema walk -----

  /** What the walk has found so far, and the first reason to reject. */
  datatype Walk = Walk(bindings: seq<Binding>, names: set<JsString>, reason: Option<Reason>)

  function Reject(w: Walk, reason: Reason): Walk {
    if w.reason.None? then w.(reason := Some(reason)) else w
  }

  function TypeOf(fields: seq<Field<JsNumber>>): Option<ValueType> {
    var t := Property(fields, TYPE);
    if t == Some(Str(STRING)) then Some(StringType)
    else if t == Some(Str(BOOLEAN)) then Some(BooleanType)
    else if t == Some(Str(INTEGER)) then Some(IntegerType)
    else None
  }

  predicate HasImpureKeyword(fields: seq<Field<JsNumber>>) {
    exists i :: 0 <= i < |fields| && fields[i].name in IMPURE
  }

  /** The annotation of one schema object, if it has one. */
  function Annotate(w: Walk, fields: seq<Field<JsNumber>>, path: Option<seq<JsString>>): Walk {
    match Property(fields, ANNOTATION)
    case None => w
    case Some(annotation) =>
      if path.None? || path.value == [] then Reject(w, AnnotationOutsideProperties)
      else if !annotation.Str? || !Token(annotation.text) then Reject(w, InvalidHeaderName)
      else if TypeOf(fields).None? then Reject(w, UnsupportedPropertyType)
      else if HasImpureKeyword(fields) then Reject(w, AnnotationOutsideProperties)
      else if Fold(annotation.text) in w.names then Reject(w, DuplicateHeaderName)
      else
        w.(bindings := w.bindings + [Binding(path.value, annotation.text, TypeOf(fields).value)],
           names := w.names + {Fold(annotation.text)})
  }

  /** `visit`. */
  function Visit(w: Walk, v: Value, path: Option<seq<JsString>>): Walk
    decreases v, 2
  {
    if w.reason.Some? then w
    else
      match v
      case Arr(items) => VisitItems(w, items)
      case Obj(fields) =>
        var annotated := Annotate(w, fields, path);
        if annotated.reason.Some? then annotated
        else
          var inside := VisitProperties(annotated, fields, path);
          VisitRest(inside, fields)
      case _ => w
  }

  function VisitItems(w: Walk, items: seq<Value>): Walk
    decreases items, 0
  {
    if items == [] then w else VisitItems(Visit(w, items[0], None), items[1..])
  }

  /** The `properties` keyword; a path continues only through a pure object schema. */
  function VisitProperties(w: Walk, fields: seq<Field<JsNumber>>, path: Option<seq<JsString>>): Walk
    decreases fields, 2
  {
    var pure := Property(fields, TYPE) == Some(Str(OBJECT)) && !HasImpureKeyword(fields);
    match Property(fields, PROPERTIES)
    case Some(Obj(children)) => VisitChildren(w, children, if pure then path else None)
    case Some(Arr(items)) => VisitItems(w, items)
    case _ => w
  }

  function VisitChildren(w: Walk, children: seq<Field<JsNumber>>, path: Option<seq<JsString>>): Walk
    decreases children, 0
  {
    if children == [] then w
    else
      var below := if path.Some? then Some(path.value + [children[0].name]) else None;
      VisitChildren(Visit(w, children[0].value, below), children[1..], path)
  }

  /** Every other keyword is searched for misplaced annotations. */
  function VisitRest(w: Walk, fields: seq<Field<JsNumber>>): Walk
    decreases fields, 1
  {
    if fields == [] then w
    else
      var f := fields[0];
      var next := if f.name == PROPERTIES || f.name == ANNOTATION || !(f.value.Obj? || f.value.Arr?) then w else Visit(w, f.value, None);
      VisitRest(next, fields[1..])
  }

  /** `analyzeToolHeaders`. */
  function Analyze(schema: Value): Result<seq<Binding>, Reason> {
    var w := Visit(Walk([], {}, None), schema, Some([]));
    if w.reason.None? then Ok(w.bindings) else Err(w.reason.value)
  }

  // ----- what every plan satisfies -----

  /** Header names that differ even when case is ignored. */
  predicate DistinctFolded(bindings: seq<Binding>) {
    forall i, j :: 0 <= i < j < |bindings| ==> Fold(bindings[i].name) != Fold(bindings[j].name)
  }

  predicate WalkFits(w: Walk) {
    && DistinctFolded(w.bindings)
    && (forall i :: 0 <= i < |w.bindings| ==> Fold(w.bindings[i].name) in w.names)
    && (forall i :: 0 <= i < |w.bindings| ==> Token(w.bindings[i].name) && w.bindings[i].path != [])
  }

  lemma AnnotateFits(w: Walk, fields: seq<Field<JsNumber>>, path: Option<seq<JsString>>)
    requires WalkFits(w)
    ensures WalkFits(Annotate(w, fields, path))
  {
    hide Fold;
    hide Token;
    hide HasImpureKeyword;
    hide TypeOf;
  }

  lemma {:induction false} VisitFits(w: Walk, v: Value, path: Option<seq<JsString>>)
    requires WalkFits(w)
    ensures WalkFits(Visit(w, v, path))
    decreases v, 2
  {
    hide WalkFits;
    hide Annotate;
    hide VisitItems;
    hide VisitProperties;
    hide VisitRest;
    match v
    case Arr(items) => VisitItemsFits(w, items);
    case Obj(fields) =>
      AnnotateFits(w, fields, path);
      var annotated := Annotate(w, fields, path);
      VisitPropertiesFits(annotated, fields, path);
      VisitRestFits(VisitProperties(annotated, fields, path), fields);
    case _ =>
  }

  lemma {:induction false} VisitItemsFits(w: Walk, items: seq<Value>)
    requires WalkFits(w)
    ensures WalkFits(VisitItems(w, items))
    decreases items, 0
  {
    hide WalkFits;
    hide Visit;
    if items != [] {
      VisitFits(w, items[0], None);
      VisitItemsFits(Visit(w, items[0], None), items[1..]);
    }
  }

  lemma {:induction false} VisitPropertiesFits(w: Walk, fields: seq<Field<JsNumber>>, path: Option<seq<JsString>>)
    requires WalkFits(w)
    ensures WalkFits(VisitProperties(w, fields, path))
    decreases fields, 2
  {
    hide WalkFits;
    hide HasImpureKeyword;
    hide VisitChildren;
    hide VisitItems;
    match Property(fields, PROPERTIES)
    case Some(Obj(children)) =>
      VisitChildrenFits(w, children, path);
      VisitChildrenFits(w, children, None);
    case Some(Arr(items)) => VisitItemsFits(w, items);
    case _ =>
  }

  lemma {:induction false} VisitChildrenFits(w: Walk, children: seq<Field<JsNumber>>, path: Option<seq<JsString>>)
    requires WalkFits(w)
    ensures WalkFits(VisitChildren(w, children, path))
    decreases children, 0
  {
    hide WalkFits;
    hide Visit;
    if children != [] {
      var below := if path.Some? then Some(path.value + [children[0].name]) else None;
      VisitFits(w, children[0].value, below);
      VisitChildrenFits(Visit(w, children[0].value, below), children[1..], path);
    }
  }

  lemma {:induction false} VisitRestFits(w: Walk, fields: seq<Field<JsNumber>>)
    requires WalkFits(w)
    ensures WalkFits(VisitRest(w, fields))
    decreases fields, 1
  {
    hide WalkFits;
    hide Visit;
    if fields != [] {
      var f := fields[0];
      VisitFits(w, f.value, None);
      var next := if f.name == PROPERTIES || f.name == ANNOTATION || !(f.value.Obj? || f.value.Arr?) then w else Visit(w, f.value, None);
      VisitRestFits(next, fields[1..]);
    }
  }

  /** Every plan the walk accepts has header names unique up to case, each a token, each below a property path. */
  lemma PlanIsWellFormed(schema: Value)
    requires Analyze(schema).Ok?
    ensures DistinctFolded(Analyze(schema).value)
    ensures forall b :: b in Analyze(schema).value ==> Token(b.name) && b.path != []
  {
    VisitFits(Walk([], {}, None), schema, Some([]));
  }

  /** The walk as the source runs it: one object whose fields `visit` updates. */
  class Analyzer {
    var bindings: seq<Binding>
    var names: set<JsString>
    var reason: Option<Reason>

    function State(): Walk
      reads this
    {
      Walk(bindings, names, reason)
    }

    constructor ()
      ensures State() == Walk([], {}, None)
    {
      bindings, names, reason := [], {}, None;
    }

    method RejectWith(next: Reason)
      modifies this
      ensures State() == Reject(old(State()), next)
    {
      if reason.None? {
        reason := Some(next);
      }
    }

    method AnnotateObject(fields: seq<Field<JsNumber>>, path: Option<seq<JsString>>)
      modifies this
      ensures State() == Annotate(old(State()), fields, path)
    {
      var annotation := Property(fields, ANNOTATION);
      if annotation.None? {
        return;
      }
      if path.None? || path.value == [] {
        RejectWith(AnnotationOutsideProperties);
        return;
      }
      if !annotation.value.Str? || !Token(annotation.value.text) {
        RejectWith(InvalidHeaderName);
        return;
      }
      var valueType := TypeOf(fields);
      if valueType.None? {
        RejectWith(UnsupportedPropertyType);
        return;
      }
      if HasImpureKeyword(fields) {
        RejectWith(AnnotationOutsideProperties);
        return;
      }
      var folded := Fold(annotation.value.text);
      if folded in names {
        RejectWith(DuplicateHeaderName);
        return;
      }
      names := names + {folded};
      bindings := bindings + [Binding(path.value, annotation.value.text, valueType.value)];
    }

    method VisitValue(v: Value, path: Option<seq<JsString>>)
      modifies this
      ensures State() == Visit(old(State()), v, path)
      decreases v, 2
    {
      if reason.Some? {
        return;
      }
      match v
      case Arr(items) => VisitEach(items);
      case Obj(fields) =>
        AnnotateObject(fields, path);
        if reason.Some? {
          return;
        }
        var pure := Property(fields, TYPE) == Some(Str(OBJECT)) && !HasImpureKeyword(fields);
        var properties := Property(fields, PROPERTIES);
        if properties.Some? && properties.value.Obj? {
          VisitNamed(properties.value.fields, if pure then path else None);
        } else if properties.Some? && properties.value.Arr? {
          VisitEach(properties.value.items);
        }
        VisitOthers(fields);
      case _ =>
    }

    method VisitEach(items: seq<Value>)
      modifies this
      ensures State() == VisitItems(old(State()), items)
      decreases items, 0
    {
      assert items[0..] == items;
      for index := 0 to |items|
        invariant VisitItems(State(), items[index..]) == VisitItems(old(State()), items)
      {
        hide Visit;
        assert items[index..][0] == items[index] && items[index..][1..] == items[index + 1..];
        VisitValue(items[index], None);
      }
    }

    method VisitNamed(children: seq<Field<JsNumber>>, path: Option<seq<JsString>>)
      modifies this
      ensures State() == VisitChildren(old(State()), children, path)
      decreases children, 0
    {
      assert children[0..] == children;
      for index := 0 to |children|
        invariant VisitChildren(State(), children[index..], path) == VisitChildren(old(State()), children, path)
      {
        hide Visit;
        assert children[index..][0] == children[index] && children[index..][1..] == children[index + 1..];
        VisitValue(children[index].value, if path.Some? then Some(path.value + [children[index].name]) else None);
      }
    }

    method VisitOthers(fields: seq<Field<JsNumber>>)
      modifies this
      ensures State() == VisitRest(old(State()), fields)
      decreases fields, 1
    {
      assert fields[0..] == fields;
      for index := 0 to |fields|
        invariant VisitRest(State(), fields[index..]) == VisitRest(old(State()), fields)
      {
        assert fields[index..][0] == fields[index] && fields[index..][1..] == fields[index + 1..];
        if reason.Some? {
          RestStops(State(), fields[index..]);
          return;
        }
        hide Visit;
        var f := fields[index];
        if f.name != PROPERTIES && f.name != ANNOTATION && (f.value.Obj? || f.value.Arr?) {
          VisitValue(f.value, None);
        }
      }
    }
  }

  /** A rejected walk goes through the remaining keywords without effect. */
  lemma {:induction false} RestStops(w: Walk, fields: seq<Field<JsNumber>>)
    requires w.reason.Some?
    ensures VisitRest(w, fields) == w
  {
    if fields != [] {
      RestStops(w, fields[1..]);
    }
  }

  /** `analyzeToolHeaders`. */
  method AnalyzeToolHeaders(schema: Value) returns (plan: Result<seq<Binding>, Reason>)
    ensures plan == Analyze(schema)
    ensures plan.Ok? ==> DistinctFolded(plan.value)
  {
    hide Visit;
    var analyzer := new Analyzer();
    analyzer.VisitValue(schema, Some([]));
    plan := if analyzer.reason.None? then Ok(analyzer.bindings) else Err(analyzer.reason.value);
    if plan.Ok? { PlanIsWellFormed(schema); }
  }

  // ----- which bindings a schema yields -----

  /** A schema object met by the walk, with its property path if it has one. */
  datatype Place = Place(fields: seq<Field<JsNumber>>, path: Option<seq<JsString>>)

  predicate ImpureName(name: JsString) {
    || name == Ascii("$ref") || name == Ascii("items") || name == Ascii("prefixItems")
    || name == Ascii("contains") || name == Ascii("oneOf") || ImpureTooName(name)
  }

  predicate ImpureTooName(name: JsString) {
    || name == Ascii("anyOf") || name == Ascii("allOf") || name == Ascii("not")
    || name == Ascii("if") || name == Ascii("then") || name == Ascii("else")
  }

  predicate Impure(fields: seq<Field<JsNumber>>) {
    exists i :: 0 <= i < |fields| && ImpureName(fields[i].name)
  }

  /** The path of a property: it goes on only below an object schema without such keywords. */
  function Below(fields: seq<Field<JsNumber>>, path: Option<seq<JsString>>, name: JsString): Option<seq<JsString>> {
    if path.Some? && Property(fields, Ascii("type")) == Some(Str(Ascii("object"))) && !Impure(fields) then Some(path.value + [name]) else None
  }

  /** Every object in a schema: itself, those below its properties with their paths, and those anywhere else without one. */
  ghost function Places(v: Value, path: Option<seq<JsString>>): iset<Place>
    decreases v, 2
  {
    match v
    case Arr(items) => PlacesOfItems(items)
    case Obj(fields) => iset{Place(fields, path)} + PlacesOfProperties(fields, path) + PlacesOfRest(fields)
    case _ => iset{}
  }

  ghost function PlacesOfItems(items: seq<Value>): iset<Place>
    decreases items, 0
  {
    if items == [] then iset{} else Places(items[0], None) + PlacesOfItems(items[1..])
  }

  ghost function PlacesOfProperties(fields: seq<Field<JsNumber>>, path: Option<seq<JsString>>): iset<Place>
    decreases fields, 2
  {
    match Property(fields, Ascii("properties"))
    case Some(Obj(children)) => PlacesOfChildren(fields, path, children)
    case Some(Arr(items)) => PlacesOfItems(items)
    case _ => iset{}
  }

  ghost function PlacesOfChildren(parent: seq<Field<JsNumber>>, path: Option<seq<JsString>>, children: seq<Field<JsNumber>>): iset<Place>
    decreases children, 0
  {
    if children == [] then iset{}
    else Places(children[0].value, Below(parent, path, children[0].name)) + PlacesOfChildren(parent, path, children[1..])
  }

  ghost function PlacesOfRest(fields: seq<Field<JsNumber>>): iset<Place>
    decreases fields, 1
  {
    if fields == [] then iset{}
    else
      var f := fields[0];
      var here := if f.name == Ascii("properties") || f.name == Ascii("x-mcp-header") || !(f.value.Obj? || f.value.Arr?) then iset{} else Places(f.value, None);
      here + PlacesOfRest(fields[1..])
  }

  predicate Annotated(o: Place) {
    Property(o.fields, Ascii("x-mcp-header")).Some?
  }

  predicate HasType(fields: seq<Field<JsNumber>>, t: ValueType) {
    match t
    case StringType => Property(fields, Ascii("type")) == Some(Str(Ascii("string")))
    case BooleanType => Property(fields, Ascii("type")) == Some(Str(Ascii("boolean")))
    case IntegerType => Property(fields, Ascii("type")) == Some(Str(Ascii("integer")))
  }

  /** A letter, a digit or one of the marks of a token of section 5.6.2 of RFC 9110. */
  predicate NameUnit(c: CodeUnit) {
    || 48 <= c <= 57 || 65 <= c <= 90 || 97 <= c <= 122
    || c == 33 || 35 <= c <= 39 || c == 42 || c == 43 || c == 45 || c == 46 || 94 <= c <= 96 || c == 124 || c == 126
  }

  predicate NameText(name: JsString) {
    name != [] && forall i :: 0 <= i < |name| ==> NameUnit(name[i])
  }

  /** The place is a property that an annotation binds to a header. */
  predicate Binds(o: Place, b: Binding) {
    && o.path == Some(b.path) && b.path != [] && Property(o.fields, Ascii("x-mcp-header")) == Some(Str(b.name)) && NameText(b.name)
    && HasType(o.fields, b.valueType) && !Impure(o.fields)
  }

  /** Why an annotated place is rejected. */
  ghost predicate Fault(o: Place, reason: Reason, bindings: seq<Binding>) {
    var named := Property(o.fields, Ascii("x-mcp-header")).Some? && Property(o.fields, Ascii("x-mcp-header")).value.Str?
                 && NameText(Property(o.fields, Ascii("x-mcp-header")).value.text);
    Annotated(o) &&
    match reason
    case InvalidHeaderName => o.path.Some? && o.path.value != [] && !named
    case UnsupportedPropertyType => o.path.Some? && o.path.value != [] && named && forall t: ValueType :: !HasType(o.fields, t)
    case AnnotationOutsideProperties => o.path.None? || o.path.value == [] || (named && (exists t: ValueType :: HasType(o.fields, t)) && Impure(o.fields))
    case DuplicateHeaderName =>
      exists b, c :: b in bindings && Binds(o, c) && Fold(b.name) == Fold(c.name)
  }

  lemma NameUnitExact(c: CodeUnit)
    ensures TokenUnit(c) <==> NameUnit(c)
  {
  }

  lemma NameTextExact(name: JsString)
    ensures Token(name) <==> NameText(name)
  {
    forall i | 0 <= i < |name| ensures TokenUnit(name[i]) <==> NameUnit(name[i]) {
      NameUnitExact(name[i]);
    }
    hide TokenUnit;
    hide NameUnit;
  }

  lemma ImpureNameExact(name: JsString)
    ensures name in IMPURE <==> ImpureName(name)
  {
    hide Ascii;
  }

  lemma ImpureExact(fields: seq<Field<JsNumber>>)
    ensures HasImpureKeyword(fields) <==> Impure(fields)
  {
    forall i | 0 <= i < |fields| ensures fields[i].name in IMPURE <==> ImpureName(fields[i].name) {
      ImpureNameExact(fields[i].name);
    }
    hide ImpureName;
  }

  lemma TypeNamesDiffer()
    ensures STRING != BOOLEAN && STRING != INTEGER && BOOLEAN != INTEGER
  {
    assert |STRING| == 6 && |BOOLEAN| == 7 && |INTEGER| == 7 && BOOLEAN[0] == 98 && INTEGER[0] == 105;
  }

  lemma TypeOfExact(fields: seq<Field<JsNumber>>)
    ensures forall t: ValueType :: TypeOf(fields) == Some(t) <==> HasType(fields, t)
  {
    TypeNamesDiffer();
    hide Property;
    hide Ascii;
  }

  /** What a part of the walk does, given the places it meets. */
  ghost predicate Collects(w: Walk, t: Walk, places: iset<Place>) {
    && (w.reason.Some? ==> t == w)
    && w.bindings <= t.bindings && (forall b :: b in t.bindings ==> Fold(b.name) in t.names) && (forall n :: n in t.names ==> exists b :: b in t.bindings && Fold(b.name) == n)
    && (forall b :: b in t.bindings ==> b in w.bindings || exists o :: o in places && Binds(o, b))
    && (w.reason.None? && t.reason.None? ==>
          && (forall o, b :: o in places && Binds(o, b) ==> b in t.bindings)
          && (forall o :: o in places && Annotated(o) ==> exists b :: Binds(o, b)))
    && (w.reason.None? && t.reason.Some? ==> exists o :: o in places && Fault(o, t.reason.value, t.bindings))
  }

  /** The names are those of the bindings. */
  ghost predicate NamesFit(w: Walk) {
    (forall b :: b in w.bindings ==> Fold(b.name) in w.names) && (forall n :: n in w.names ==> exists b :: b in w.bindings && Fold(b.name) == n)
  }

  lemma CollectsNothing(w: Walk)
    requires NamesFit(w)
    ensures Collects(w, w, iset{})
  {
    hide Fold;
  }

  lemma CollectsBoth(w: Walk, m: Walk, t: Walk, first: iset<Place>, second: iset<Place>)
    requires Collects(w, m, first) && Collects(m, t, second)
    ensures Collects(w, t, first + second)
  {
    hide Fold;
    hide Binds;
    hide Fault;
    hide Annotated;
  }

  lemma CollectsNames(w: Walk, t: Walk, places: iset<Place>)
    requires Collects(w, t, places)
    ensures NamesFit(t)
  {
    hide Fold;
    hide Binds;
    hide Fault;
  }

  lemma OnePlace(o: Place, b: Binding)
    ensures (exists p :: p in iset{o} && Binds(p, b)) <==> Binds(o, b)
  {
    hide Binds;
    assert o in iset{o};
  }

  /** An annotation that is bound. */
  lemma BoundCollects(w: Walk, o: Place, b: Binding)
    requires NamesFit(w) && w.reason.None? && Binds(o, b) && forall c :: Binds(o, c) ==> c == b
    ensures Collects(w, w.(bindings := w.bindings + [b], names := w.names + {Fold(b.name)}), iset{o})
  {
    hide Fold;
    hide Binds;
    hide Fault;
    hide Annotated;
    var t := w.(bindings := w.bindings + [b], names := w.names + {Fold(b.name)});
    forall c ensures c in t.bindings <==> c in w.bindings || exists p :: p in iset{o} && Binds(p, c) {
      OnePlace(o, c);
      assert c in t.bindings <==> c in w.bindings || c == b;
    }
    assert b in t.bindings;
    assert forall c :: c in w.bindings ==> c in t.bindings;
  }

  lemma FaultCollects(w: Walk, o: Place, reason: Reason)
    requires NamesFit(w) && w.reason.None? && Fault(o, reason, w.bindings)
    ensures Collects(w, w.(reason := Some(reason)), iset{o})
  {
    hide Fold;
    hide Binds;
    hide Fault;
    assert o in iset{o};
  }

  lemma PlainCollects(w: Walk, o: Place)
    requires NamesFit(w) && !Annotated(o)
    ensures Collects(w, w, iset{o})
  {
    hide Fold;
    forall b ensures !Binds(o, b) {
    }
    hide Binds;
    hide Fault;
  }

  lemma AnnotateCollects(w: Walk, fields: seq<Field<JsNumber>>, path: Option<seq<JsString>>)
    requires NamesFit(w) && w.reason.None?
    ensures Collects(w, Annotate(w, fields, path), iset{Place(fields, path)})
  {
    var o := Place(fields, path);
    var annotation := Property(fields, ANNOTATION);
    TypeOfExact(fields);
    ImpureExact(fields);
    hide HasImpureKeyword;
    hide Impure;
    hide Fold;
    hide Property;
    if annotation.None? {
      PlainCollects(w, o);
    } else {
      var name := if annotation.value.Str? then annotation.value.text else [];
      NameTextExact(name);
      hide Token;
      hide NameText;
      hide Collects;
      hide TypeOf;
      hide HasType;
      var t := Annotate(w, fields, path);
      if t.reason.Some? {
        if t.reason == Some(DuplicateHeaderName) {
          var b :| b in w.bindings && Fold(b.name) == Fold(name);
          assert Binds(o, Binding(path.value, name, TypeOf(fields).value));
        }
        if TypeOf(fields).Some? { assert HasType(fields, TypeOf(fields).value); }
        assert Fault(o, t.reason.value, w.bindings);
        FaultCollects(w, o, t.reason.value);
      } else {
        var b := Binding(path.value, name, TypeOf(fields).value);
        assert Binds(o, b);
        BoundCollects(w, o, b);
      }
    }
  }

  lemma {:induction false} VisitCollects(w: Walk, v: Value, path: Option<seq<JsString>>)
    requires NamesFit(w)
    ensures Collects(w, Visit(w, v, path), Places(v, path))
    decreases v, 2
  {
    hide Annotate;
    hide VisitItems;
    hide VisitProperties;
    hide VisitRest;
    hide Collects;
    hide NamesFit;
    hide PlacesOfItems;
    hide PlacesOfProperties;
    hide PlacesOfRest;
    if w.reason.Some? {
      StoppedCollects(w, Places(v, path));
    } else {
      match v
      case Arr(items) => VisitItemsCollects(w, items);
      case Obj(fields) =>
        var o := iset{Place(fields, path)};
        var annotated := Annotate(w, fields, path);
        AnnotateCollects(w, fields, path);
        CollectsNames(w, annotated, o);
        if annotated.reason.Some? {
          StoppedCollects(annotated, PlacesOfProperties(fields, path));
          StoppedCollects(annotated, PlacesOfRest(fields));
          CollectsBoth(w, annotated, annotated, o, PlacesOfProperties(fields, path));
          CollectsBoth(w, annotated, annotated, o + PlacesOfProperties(fields, path), PlacesOfRest(fields));
        } else {
          var inside := VisitProperties(annotated, fields, path);
          VisitPropertiesCollects(annotated, fields, path);
          CollectsNames(annotated, inside, PlacesOfProperties(fields, path));
          VisitRestCollects(inside, fields);
          CollectsBoth(w, annotated, inside, o, PlacesOfProperties(fields, path));
          CollectsBoth(w, inside, VisitRest(inside, fields), o + PlacesOfProperties(fields, path), PlacesOfRest(fields));
        }
      case _ => CollectsNothing(w);
    }
  }

  lemma StoppedCollects(w: Walk, places: iset<Place>)
    requires NamesFit(w) && w.reason.Some?
    ensures Collects(w, w, places)
  {
    hide Fold;
  }

  lemma {:induction false} VisitItemsCollects(w: Walk, items: seq<Value>)
    requires NamesFit(w)
    ensures Collects(w, VisitItems(w, items), PlacesOfItems(items))
    decreases items, 0
  {
    hide Visit;
    hide Places;
    hide Collects;
    hide NamesFit;
    if items == [] {
      CollectsNothing(w);
    } else {
      var m := Visit(w, items[0], None);
      VisitCollects(w, items[0], None);
      CollectsNames(w, m, Places(items[0], None));
      VisitItemsCollects(m, items[1..]);
      CollectsBoth(w, m, VisitItems(m, items[1..]), Places(items[0], None), PlacesOfItems(items[1..]));
    }
  }

  lemma BelowExact(fields: seq<Field<JsNumber>>, path: Option<seq<JsString>>, name: JsString)
    ensures var pure := Property(fields, TYPE) == Some(Str(OBJECT)) && !HasImpureKeyword(fields);
            var inner := if pure then path else None;
            Below(fields, path, name) == if inner.Some? then Some(inner.value + [name]) else None
  {
    ImpureExact(fields);
    hide HasImpureKeyword;
    hide Impure;
    hide Property;
  }

  lemma {:induction false} VisitPropertiesCollects(w: Walk, fields: seq<Field<JsNumber>>, path: Option<seq<JsString>>)
    requires NamesFit(w)
    ensures Collects(w, VisitProperties(w, fields, path), PlacesOfProperties(fields, path))
    decreases fields, 2
  {
    hide HasImpureKeyword;
    hide VisitChildren;
    hide VisitItems;
    hide Collects;
    hide NamesFit;
    hide PlacesOfItems;
    hide PlacesOfChildren;
    match Property(fields, PROPERTIES)
    case Some(Obj(children)) => VisitChildrenCollects(w, fields, path, children);
    case Some(Arr(items)) => VisitItemsCollects(w, items);
    case _ => CollectsNothing(w);
  }

  lemma {:induction false} VisitChildrenCollects(w: Walk, parent: seq<Field<JsNumber>>, path: Option<seq<JsString>>, children: seq<Field<JsNumber>>)
    requires NamesFit(w)
    ensures var pure := Property(parent, TYPE) == Some(Str(OBJECT)) && !HasImpureKeyword(parent);
            Collects(w, VisitChildren(w, children, if pure then path else None), PlacesOfChildren(parent, path, children))
    decreases children, 0
  {
    hide Visit;
    hide Places;
    hide Collects;
    hide NamesFit;
    hide HasImpureKeyword;
    hide Property;
    if children == [] {
      CollectsNothing(w);
    } else {
      var below := Below(parent, path, children[0].name);
      BelowExact(parent, path, children[0].name);
      hide Below;
      var m := Visit(w, children[0].value, below);
      VisitCollects(w, children[0].value, below);
      CollectsNames(w, m, Places(children[0].value, below));
      VisitChildrenCollects(m, parent, path, children[1..]);
      var pure := Property(parent, TYPE) == Some(Str(OBJECT)) && !HasImpureKeyword(parent);
      CollectsBoth(w, m, VisitChildren(m, children[1..], if pure then path else None), Places(children[0].value, below), PlacesOfChildren(parent, path, children[1..]));
    }
  }

  lemma {:induction false} VisitRestCollects(w: Walk, fields: seq<Field<JsNumber>>)
    requires NamesFit(w)
    ensures Collects(w, VisitRest(w, fields), PlacesOfRest(fields))
    decreases fields, 1
  {
    hide Visit;
    hide Places;
    hide Collects;
    hide NamesFit;
    if fields == [] {
      CollectsNothing(w);
    } else {
      var f := fields[0];
      var skipped := f.name == PROPERTIES || f.name == ANNOTATION || !(f.value.Obj? || f.value.Arr?);
      var here: iset<Place> := if skipped then iset{} else Places(f.value, None);
      var m := if skipped then w else Visit(w, f.value, None);
      if skipped { CollectsNothing(w); } else { VisitCollects(w, f.value, None); }
      CollectsNames(w, m, here);
      VisitRestCollects(m, fields[1..]);
      CollectsBoth(w, m, VisitRest(m, fields[1..]), here, PlacesOfRest(fields[1..]));
    }
  }

  /**
   The plan of a schema is exactly its well-placed annotations: each annotated property below
   pure object schemas gives the binding of its path, name and type, and nothing else
   does. A schema is rejected for a fault of one of its annotations, and an accepted one has none
   that is not bound.
   */
  lemma PlanIsExact(schema: Value)
    ensures var places := Places(schema, Some([]));
            match Analyze(schema) {
              case Ok(plan) =>
                && (forall b :: b in plan <==> exists o :: o in places && Binds(o, b))
                && (forall o :: o in places && Annotated(o) ==> exists b :: b in plan && Binds(o, b))
              case Err(reason) => exists o, known :: o in places && Fault(o, reason, known) && (forall b :: b in known ==> exists p :: p in places && Binds(p, b))
            }
  {
    var start, places := Walk([], {}, None), Places(schema, Some([]));
    var end := Visit(start, schema, Some([]));
    VisitCollects(start, schema, Some([]));
    hide Visit;
    hide Places;
    hide Binds;
    hide Annotated;
    hide Fold;
    if end.reason.Some? {
      var o :| o in places && Fault(o, end.reason.value, end.bindings);
      hide Fault;
    }
    hide Fault;
  }

  // ----- extraction and validation -----

  datatype Header = Header(name: JsString, value: JsString)

  /** `valueAtPath`. */
  function ValueAtPath(root: Value, path: seq<JsString>): Option<Value> {
    if path == [] then Some(root)
    else if !root.Obj? then None
    else
      match Property(root.fields, path[0])
      case None => None
      case Some(v) => ValueAtPath(v, path[1..])
  }

  /** The argument of a binding, a JSON null counting as absent. */
  function Argument(b: Binding, arguments: Value): Option<Value> {
    var v := ValueAtPath(arguments, b.path);
    if v == Some(Null) then None else v
  }

  function PrintBool(flag: bool): JsString {
    if flag then TRUE_TEXT else FALSE_TEXT
  }

  /** `encodedToolValue`. */
  function EncodedValue(b: Binding, v: Value): Option<JsString> {
    match b.valueType
    case StringType => if v.Str? then Some(HeaderValues.Encode(v.text)) else None
    case BooleanType => if v.Bool? then Some(PrintBool(v.flag)) else None
    case IntegerType => if v.Num? && v.number.Safe? then Some(IntegerHeader.PrintInt(v.number.value)) else None
  }

  /** `headers[name] = value`. */
  function Assign(headers: seq<Header>, h: Header): seq<Header> {
    if headers == [] then [h]
    else if headers[0].name == h.name then [h] + headers[1..]
    else [headers[0]] + Assign(headers[1..], h)
  }

  /** `extractToolHeaders` from a binding on. */
  function Extract(bindings: seq<Binding>, arguments: Value, headers: seq<Header>): Option<seq<Header>> {
    if bindings == [] then Some(headers)
    else
      match Argument(bindings[0], arguments)
      case None => Extract(bindings[1..], arguments, headers)
      case Some(v) =>
        match EncodedValue(bindings[0], v)
        case None => None
        case Some(text) => Extract(bindings[1..], arguments, Assign(headers, Header(HeaderName(bindings[0]), text)))
  }

  /** `headerValue`: the first header whose name matches when case is ignored. */
  function HeaderValue(headers: seq<Header>, name: JsString): Option<JsString> {
    if headers == [] then None
    else if Fold(headers[0].name) == Fold(name) then Some(headers[0].value)
    else HeaderValue(headers[1..], name)
  }

  /** `headerMatchesBody`. */
  predicate Matches(b: Binding, v: Value, decoded: JsString) {
    match b.valueType
    case StringType => v.Str? && decoded == v.text
    case BooleanType => v.Bool? && decoded == PrintBool(v.flag)
    case IntegerType => v.Num? && v.number.Safe? && IntegerHeader.Denotes(decoded, v.number.value)
  }

  /** What `validateToolHeaders` demands for one binding. */
  predicate Accepts(b: Binding, arguments: Value, headers: seq<Header>) {
    var actual := HeaderValue(headers, HeaderName(b));
    match Argument(b, arguments)
    case None => actual.None?
    case Some(v) =>
      && actual.Some?
      && HeaderValues.Decode(actual.value).Some?
      && Matches(b, v, HeaderValues.Decode(actual.value).value)
  }

  predicate Validates(bindings: seq<Binding>, arguments: Value, headers: seq<Header>) {
    forall i :: 0 <= i < |bindings| ==> Accepts(bindings[i], arguments, headers)
  }

  /** `extractToolHeaders`. */
  method ExtractToolHeaders(bindings: seq<Binding>, arguments: Value) returns (r: Option<seq<Header>>)
    ensures r == Extract(bindings, arguments, [])
  {
    var headers: seq<Header> := [];
    assert bindings[0..] == bindings;
    for index := 0 to |bindings|
      invariant Extract(bindings, arguments, []) == Extract(bindings[index..], arguments, headers)
    {
      var b := bindings[index];
      assert bindings[index..][0] == b && bindings[index..][1..] == bindings[index + 1..];
      var body := Argument(b, arguments);
      if body.None? {
        continue;
      }
      var encoded := EncodedValue(b, body.value);
      if encoded.None? {
        return None;
      }
      headers := Assign(headers, Header(HeaderName(b), encoded.value));
    }
    return Some(headers);
  }

  /** `headerMatchesBody`, integers compared by the digit-string test. */
  method HeaderMatchesBody(b: Binding, v: Value, decoded: JsString) returns (matches: bool)
    ensures matches == Matches(b, v, decoded)
  {
    if b.valueType.IntegerType? && v.Num? && v.number.Safe? {
      matches := IntegerHeader.ExactIntegerHeaderMatches(v.number.value, decoded);
    } else {
      matches := (b.valueType.StringType? && v.Str? && decoded == v.text)
                 || (b.valueType.BooleanType? && v.Bool? && decoded == PrintBool(v.flag));
    }
  }

  /** `validateToolHeaders`. */
  method ValidateToolHeaders(bindings: seq<Binding>, arguments: Value, headers: seq<Header>) returns (valid: bool)
    ensures valid == Validates(bindings, arguments, headers)
  {
    hide HeaderValues.Decode;
    hide Matches;
    for index := 0 to |bindings|
      invariant forall i :: 0 <= i < index ==> Accepts(bindings[i], arguments, headers)
    {
      var b := bindings[index];
      var body := Argument(b, arguments);
      var actual := HeaderValue(headers, HeaderName(b));
      if body.None? {
        if actual.Some? {
          assert !Accepts(b, arguments, headers);
          return false;
        }
        continue;
      }
      if actual.None? {
        assert !Accepts(b, arguments, headers);
        return false;
      }
      var decoded := HeaderValues.Decode(actual.value);
      if decoded.None? {
        assert !Accepts(b, arguments, headers);
        return false;
      }
      var matches := HeaderMatchesBody(b, body.value, decoded.value);
      if !matches {
        assert !Accepts(b, arguments, headers);
        return false;
      }
    }
    return true;
  }
}
