/**
 The canonical cache-key text of src/McpCache.ts: a recursive printer that sorts
 object keys by code unit. Its text identifies a JSON tree up to key order.

 Numbers are a type `N` with a text function; `NumberText` lists what ECMAScript
 promises of JSON.stringify on finite numbers (with -0 and 0 one number).
 */
module CanonicalJson {
  import opened Common
  import opened JsonText

  datatype Field<N> = Field(name: JsString, value: Json<N>)

  /** A JSON tree; an object lists its properties in insertion order. */
  datatype Json<N> =
    | Null
    | Bool(flag: bool)
    | Num(number: N)
    | Str(text: JsString)
    | Arr(items: seq<Json<N>>)
    | Obj(fields: seq<Field<N>>)

  /** The value of a named property, if there is one. */
  function Property<N>(fields: seq<Field<N>>, name: JsString): (v: Option<Json<N>>)
    ensures v.Some? ==> exists i :: 0 <= i < |fields| && fields[i].value == v.value
  {
    if fields == [] then None else if fields[0].name == name then Some(fields[0].value) else Property(fields[1..], name)
  }

  const COMMA: CodeUnit := 44
  const COLON: CodeUnit := 58
  const LEFT_BRACKET: CodeUnit := 91
  const RIGHT_BRACKET: CodeUnit := 93
  const LEFT_BRACE: CodeUnit := 123
  const RIGHT_BRACE: CodeUnit := 125

  const NULL_TEXT: JsString := Ascii("null")
  const TRUE_TEXT: JsString := Ascii("true")
  const FALSE_TEXT: JsString := Ascii("false")

  /** Digits, `-`, `+`, `.`, `e`. */
  predicate NumberUnit(c: CodeUnit) {
    48 <= c <= 57 || c == 43 || c == 45 || c == 46 || c == 101
  }

  predicate AllNumberUnits(s: JsString) {
    forall i :: 0 <= i < |s| ==> NumberUnit(s[i])
  }

  ghost predicate NumberText<N(!new)>(num: N -> JsString) {
    && (forall n :: num(n) != [] && AllNumberUnits(num(n)))
    && (forall m, n :: num(m) == num(n) ==> m == n)
  }

  predicate DistinctNames<N>(fields: seq<Field<N>>) {
    forall i, j :: 0 <= i < j < |fields| ==> fields[i].name != fields[j].name
  }

  /** Every object of the tree has each key once, as a JavaScript object does. */
  predicate WellFormed<N>(v: Json<N>) {
    match v
    case Arr(items) => forall i :: 0 <= i < |items| ==> WellFormed(items[i])
    case Obj(fields) => DistinctNames(fields) && forall i :: 0 <= i < |fields| ==> WellFormed(fields[i].value)
    case _ => true
  }

  /** Structural equality with object keys taken as a set. */
  predicate Same<N(==)>(a: Json<N>, b: Json<N>)
    decreases a, 1
  {
    match (a, b)
    case (Arr(xs), Arr(ys)) => |xs| == |ys| && forall i :: 0 <= i < |xs| ==> Same(xs[i], ys[i])
    case (Obj(xs), Obj(ys)) => |xs| == |ys| && Covers(xs, ys)
    case _ => a == b
  }

  /** One object has every property of another, values compared by `Same`. */
  predicate Covers<N(==)>(xs: seq<Field<N>>, ys: seq<Field<N>>)
    decreases xs, 0
  {
    forall i :: 0 <= i < |xs| ==> exists j :: 0 <= j < |ys| && xs[i].name == ys[j].name && Same(xs[i].value, ys[j].value)
  }

  // ----- printing a tree in the order given -----

  /** `items.join(",")` over printed items. */
  function Items<N>(num: N -> JsString, items: seq<Json<N>>): JsString {
    if items == [] then []
    else if |items| == 1 then Print(num, items[0])
    else Print(num, items[0]) + ([COMMA] + Items(num, items[1..]))
  }

  function Fields<N>(num: N -> JsString, fields: seq<Field<N>>): JsString {
    if fields == [] then []
    else
      var head := Quote(fields[0].name) + ([COLON] + Print(num, fields[0].value));
      if |fields| == 1 then head else head + ([COMMA] + Fields(num, fields[1..]))
  }

  function Print<N>(num: N -> JsString, v: Json<N>): JsString {
    match v
    case Null => NULL_TEXT
    case Bool(flag) => if flag then TRUE_TEXT else FALSE_TEXT
    case Num(n) => num(n)
    case Str(s) => Quote(s)
    case Arr(items) => [LEFT_BRACKET] + (Items(num, items) + [RIGHT_BRACKET])
    case Obj(fields) => [LEFT_BRACE] + (Fields(num, fields) + [RIGHT_BRACE])
  }

  /** What may follow a printed value: nothing, or a unit no number contains. */
  predicate Delimited(rest: JsString) {
    rest == [] || !NumberUnit(rest[0])
  }

  lemma ShorterNumber(x: JsString, y: JsString, r: JsString, q: JsString)
    requires AllNumberUnits(x) && AllNumberUnits(y) && Delimited(r)
    ensures |x| < |y| ==> x + r != y + q
  {
    if |x| < |y| {
      assert (y + q)[|x|] == y[|x|];
      assert r != [] ==> (x + r)[|x|] == r[0];
    }
  }

  lemma NumberPrefix(x: JsString, y: JsString, r: JsString, q: JsString)
    requires AllNumberUnits(x) && AllNumberUnits(y) && Delimited(r) && Delimited(q)
    requires x + r == y + q
    ensures x == y && r == q
  {
    ShorterNumber(x, y, r, q);
    ShorterNumber(y, x, q, r);
    assert (x + r)[..|x|] == x && (y + q)[..|y|] == y;
    assert (x + r)[|x|..] == r && (y + q)[|y|..] == q;
  }

  /** The first unit of a printed value tells its kind; it is never a closing bracket or a comma. */
  datatype Kind = KNull | KTrue | KFalse | KNumber | KString | KArray | KObject | KNone

  function KindOf<N>(v: Json<N>): Kind {
    match v
    case Null => KNull
    case Bool(flag) => if flag then KTrue else KFalse
    case Num(_) => KNumber
    case Str(_) => KString
    case Arr(_) => KArray
    case Obj(_) => KObject
  }

  function KindOfUnit(c: CodeUnit): Kind {
    if c == 110 then KNull else if c == 116 then KTrue else if c == 102 then KFalse
    else if NumberUnit(c) then KNumber else if c == QUOTE then KString
    else if c == LEFT_BRACKET then KArray else if c == LEFT_BRACE then KObject else KNone
  }

  lemma FirstUnit<N(!new)>(num: N -> JsString, v: Json<N>, rest: JsString)
    requires NumberText(num)
    ensures var t := Print(num, v) + rest;
            t != [] && KindOfUnit(t[0]) == KindOf(v)
  {
    hide Fields;
    hide Items;
    if v.Num? {
      assert NumberUnit(num(v.number)[0]);
    }
    assert (Print(num, v) + rest)[0] == Print(num, v)[0];
  }

  lemma SplitConst(c: JsString, r: JsString, q: JsString)
    requires c + r == c + q
    ensures r == q
  {
    assert (c + r)[|c|..] == r;
    assert (c + q)[|c|..] == q;
  }

  /** A printed value at the front of a text determines the value and the rest of the text. */
  lemma {:induction false} PrintInjective<N(!new)>(num: N -> JsString, a: Json<N>, b: Json<N>, r: JsString, q: JsString)
    requires NumberText(num) && Delimited(r) && Delimited(q)
    requires Print(num, a) + r == Print(num, b) + q
    ensures a == b && r == q
    decreases a, 1
  {
    hide Fields;
    hide Items;
    hide Quote;
    FirstUnit(num, a, r);
    FirstUnit(num, b, q);
    match a {
      case Null => SplitConst(NULL_TEXT, r, q);
      case Bool(flag) => SplitConst(if flag then TRUE_TEXT else FALSE_TEXT, r, q);
      case Num(n) => NumberPrefix(num(n), num(b.number), r, q);
      case Str(s) => QuotePrefixInjective(s, b.text, r, q);
      case Arr(items) =>
        Bracketed([LEFT_BRACKET], Items(num, items), Items(num, b.items), [RIGHT_BRACKET], r, q);
        ItemsInjective(num, items, b.items, r, q);
      case Obj(fields) =>
        Bracketed([LEFT_BRACE], Fields(num, fields), Fields(num, b.fields), [RIGHT_BRACE], r, q);
        FieldsInjective(num, fields, b.fields, r, q);
    }
  }

  lemma Bracketed(open: JsString, x: JsString, y: JsString, close: JsString, r: JsString, q: JsString)
    requires open + (x + close) + r == open + (y + close) + q
    ensures x + (close + r) == y + (close + q)
  {
    Assoc(open, x + close, r);
    Assoc(open, y + close, q);
    Assoc(x, close, r);
    Assoc(y, close, q);
    SplitConst(open, x + (close + r), y + (close + q));
  }

  /** What follows the first item: the closing bracket, or a comma and the other items. */
  function AfterItem<N>(num: N -> JsString, items: seq<Json<N>>, r: JsString): JsString
    requires items != []
  {
    if |items| == 1 then [RIGHT_BRACKET] + r else [COMMA] + (Items(num, items[1..]) + ([RIGHT_BRACKET] + r))
  }

  lemma ItemsUnfold<N>(num: N -> JsString, items: seq<Json<N>>, r: JsString)
    requires items != []
    ensures Items(num, items) + ([RIGHT_BRACKET] + r) == Print(num, items[0]) + AfterItem(num, items, r)
  {
    if |items| > 1 {
      var rest := Items(num, items[1..]);
      Assoc(Print(num, items[0]), [COMMA] + rest, [RIGHT_BRACKET] + r);
      Assoc([COMMA], rest, [RIGHT_BRACKET] + r);
    }
  }

  lemma ItemsStart<N(!new)>(num: N -> JsString, items: seq<Json<N>>, r: JsString)
    requires NumberText(num) && items != []
    ensures (Items(num, items) + ([RIGHT_BRACKET] + r))[0] != RIGHT_BRACKET
  {
    hide Items;
    ItemsUnfold(num, items, r);
    FirstUnit(num, items[0], AfterItem(num, items, r));
  }

  lemma {:induction false} ItemsInjective<N(!new)>(num: N -> JsString, a: seq<Json<N>>, b: seq<Json<N>>, r: JsString, q: JsString)
    requires NumberText(num)
    requires Items(num, a) + ([RIGHT_BRACKET] + r) == Items(num, b) + ([RIGHT_BRACKET] + q)
    ensures a == b && r == q
    decreases a, 0
  {
    if a == [] || b == [] {
      assert Items(num, []) + ([RIGHT_BRACKET] + r) == [RIGHT_BRACKET] + r;
      assert Items(num, []) + ([RIGHT_BRACKET] + q) == [RIGHT_BRACKET] + q;
      if b != [] { ItemsStart(num, b, q); }
      if a != [] { ItemsStart(num, a, r); }
      SplitConst([RIGHT_BRACKET], r, q);
    } else {
      hide Items;
      hide Print;
      ItemsUnfold(num, a, r);
      ItemsUnfold(num, b, q);
      PrintInjective(num, a[0], b[0], AfterItem(num, a, r), AfterItem(num, b, q));
      Head(a);
      Head(b);
      if |a| == 1 {
        SplitConst([RIGHT_BRACKET], r, q);
      } else {
        var x, y := Items(num, a[1..]) + ([RIGHT_BRACKET] + r), Items(num, b[1..]) + ([RIGHT_BRACKET] + q);
        SplitConst([COMMA], x, y);
        ItemsInjective(num, a[1..], b[1..], r, q);
      }
    }
  }

  function AfterField<N>(num: N -> JsString, fields: seq<Field<N>>, r: JsString): JsString
    requires fields != []
  {
    if |fields| == 1 then [RIGHT_BRACE] + r else [COMMA] + (Fields(num, fields[1..]) + ([RIGHT_BRACE] + r))
  }

  lemma FieldsUnfold<N>(num: N -> JsString, fields: seq<Field<N>>, r: JsString)
    requires fields != []
    ensures Fields(num, fields) + ([RIGHT_BRACE] + r)
         == Quote(fields[0].name) + ([COLON] + (Print(num, fields[0].value) + AfterField(num, fields, r)))
  {
    hide Quote;
    var name, value, close := Quote(fields[0].name), Print(num, fields[0].value), [RIGHT_BRACE] + r;
    var head := name + ([COLON] + value);
    var after := AfterField(num, fields, r);
    if |fields| > 1 {
      var rest := Fields(num, fields[1..]);
      Assoc(head, [COMMA] + rest, close);
      Assoc([COMMA], rest, close);
    }
    Assoc(name, [COLON] + value, after);
    Assoc([COLON], value, after);
  }

  lemma FieldsStart<N>(num: N -> JsString, fields: seq<Field<N>>, r: JsString)
    requires fields != []
    ensures (Fields(num, fields) + ([RIGHT_BRACE] + r))[0] == QUOTE
  {
    hide Fields;
    FieldsUnfold(num, fields, r);
    QuoteTail(fields[0].name, [COLON] + (Print(num, fields[0].value) + AfterField(num, fields, r)));
  }

  lemma {:induction false} FieldsInjective<N(!new)>(num: N -> JsString, a: seq<Field<N>>, b: seq<Field<N>>, r: JsString, q: JsString)
    requires NumberText(num)
    requires Fields(num, a) + ([RIGHT_BRACE] + r) == Fields(num, b) + ([RIGHT_BRACE] + q)
    ensures a == b && r == q
    decreases a, 0
  {
    if a == [] || b == [] {
      assert Fields(num, []) + ([RIGHT_BRACE] + r) == [RIGHT_BRACE] + r;
      assert Fields(num, []) + ([RIGHT_BRACE] + q) == [RIGHT_BRACE] + q;
      if b != [] { FieldsStart(num, b, q); }
      if a != [] { FieldsStart(num, a, r); }
      SplitConst([RIGHT_BRACE], r, q);
    } else {
      hide Fields;
      hide Print;
      hide Quote;
      FieldsUnfold(num, a, r);
      FieldsUnfold(num, b, q);
      var ra, rb := AfterField(num, a, r), AfterField(num, b, q);
      var va, vb := Print(num, a[0].value) + ra, Print(num, b[0].value) + rb;
      QuotePrefixInjective(a[0].name, b[0].name, [COLON] + va, [COLON] + vb);
      SplitConst([COLON], va, vb);
      PrintInjective(num, a[0].value, b[0].value, ra, rb);
      Head(a);
      Head(b);
      if |a| == 1 {
        SplitConst([RIGHT_BRACE], r, q);
      } else {
        SplitConst([COMMA], Fields(num, a[1..]) + ([RIGHT_BRACE] + r), Fields(num, b[1..]) + ([RIGHT_BRACE] + q));
        FieldsInjective(num, a[1..], b[1..], r, q);
      }
    }
  }

  // ----- sorting an object's keys -----

  predicate Sorted<N>(fields: seq<Field<N>>) {
    forall i, j :: 0 <= i < j < |fields| ==> StringLess(fields[i].name, fields[j].name)
  }

  function Insert<N>(f: Field<N>, fields: seq<Field<N>>): (r: seq<Field<N>>)
    ensures |r| == |fields| + 1 && f in r
    ensures (forall x :: x in r ==> x == f || x in fields) && (forall x :: x in fields ==> x in r)
  {
    if fields == [] then [f]
    else if StringLess(f.name, fields[0].name) then [f] + fields
    else
      Head(fields);
      [fields[0]] + Insert(f, fields[1..])
  }

  /** `Object.keys(...).sort(compareCodeUnits)` with the values attached. */
  function Sort<N>(fields: seq<Field<N>>): (r: seq<Field<N>>)
    ensures |r| == |fields|
    ensures (forall x :: x in r ==> x in fields) && (forall x :: x in fields ==> x in r)
  {
    if fields == [] then []
    else
      Head(fields);
      Insert(fields[0], Sort(fields[1..]))
  }

  lemma {:induction false} InsertSorts<N>(f: Field<N>, fields: seq<Field<N>>)
    requires Sorted(fields) && forall g :: g in fields ==> g.name != f.name
    ensures Sorted(Insert(f, fields))
  {
    if fields != [] {
      var rest := fields[1..];
      StringLessTotal(f.name, fields[0].name);
      if StringLess(f.name, fields[0].name) {
        forall j | 0 <= j < |fields| ensures StringLess(f.name, fields[j].name) {
          if j > 0 { StringLessTransitive(f.name, fields[0].name, fields[j].name); }
        }
      } else {
        InsertSorts(f, rest);
        var r := Insert(f, rest);
        forall j | 0 <= j < |r| ensures StringLess(fields[0].name, r[j].name) {
          assert r[j] in r && (r[j] in rest ==> r[j] in fields);
        }
      }
    }
  }

  lemma {:induction false} SortSorts<N>(fields: seq<Field<N>>)
    requires DistinctNames(fields)
    ensures Sorted(Sort(fields))
  {
    if fields != [] {
      var rest := fields[1..];
      SortSorts(rest);
      var sorted := Sort(rest);
      forall g | g in sorted ensures g.name != fields[0].name {
        assert g in rest;
        var i :| 0 <= i < |rest| && rest[i] == g;
        assert fields[i + 1] == g;
      }
      InsertSorts(fields[0], sorted);
    }
  }

  lemma SortedHead<N>(a: seq<Field<N>>, b: seq<Field<N>>)
    requires Sorted(a) && Sorted(b) && a != [] && b != [] && a[0] in b && b[0] in a
    ensures a[0] == b[0]
  {
    var i :| 0 <= i < |b| && b[i] == a[0];
    var j :| 0 <= j < |a| && a[j] == b[0];
    StringLessTotal(a[0].name, b[0].name);
  }

  lemma {:induction false} SortedUnique<N>(a: seq<Field<N>>, b: seq<Field<N>>)
    requires Sorted(a) && Sorted(b) && |a| == |b| && forall f :: f in a <==> f in b
    ensures a == b
  {
    if a != [] {
      assert a[0] in b && a[0] in a && b[0] in b;
      SortedHead(a, b);
      Head(a);
      Head(b);
      StringLessTotal(a[0].name, a[0].name);
      forall f ensures f in a[1..] <==> f in b[1..] {
        if f in a[1..] { assert f in a; NotTheHead(a, f); }
        if f in b[1..] { assert f in b; NotTheHead(b, f); }
      }
      SortedUnique(a[1..], b[1..]);
    }
  }

  lemma NotTheHead<N>(a: seq<Field<N>>, f: Field<N>)
    requires Sorted(a) && a != [] && f in a[1..]
    ensures f != a[0]
  {
    var i :| 0 <= i < |a[1..]| && a[1..][i] == f;
    assert StringLess(a[0].name, a[i + 1].name);
    StringLessTotal(f.name, f.name);
  }

  // ----- the canonical form -----

  /** The tree with the keys of every object in code-unit order. */
  function Canon<N>(v: Json<N>): Json<N>
    decreases v, 1
  {
    match v
    case Arr(items) => Arr(CanonItems(items))
    case Obj(fields) => Obj(Sort(CanonFields(fields)))
    case _ => v
  }

  function CanonItems<N>(items: seq<Json<N>>): (r: seq<Json<N>>)
    ensures |r| == |items| && forall i :: 0 <= i < |r| ==> r[i] == Canon(items[i])
    decreases items, 0
  {
    if items == [] then [] else [Canon(items[0])] + CanonItems(items[1..])
  }

  function CanonFields<N>(fields: seq<Field<N>>): (r: seq<Field<N>>)
    ensures |r| == |fields| && forall i :: 0 <= i < |r| ==> r[i] == Field(fields[i].name, Canon(fields[i].value))
    decreases fields, 0
  {
    if fields == [] then [] else [Field(fields[0].name, Canon(fields[0].value))] + CanonFields(fields[1..])
  }

  /** `canonicalJsonText`. */
  function Text<N>(num: N -> JsString, v: Json<N>): JsString {
    Print(num, Canon(v))
  }

  lemma CanonKeepsNames<N>(fields: seq<Field<N>>)
    requires DistinctNames(fields)
    ensures DistinctNames(CanonFields(fields))
  {
  }

  /** Equal canonical forms: every property of one object is a property of the other. */
  lemma SortedEqualCovers<N>(xs: seq<Field<N>>, ys: seq<Field<N>>, i: nat) returns (j: nat)
    requires Sort(CanonFields(xs)) == Sort(CanonFields(ys)) && i < |xs|
    ensures |xs| == |ys| && j < |ys| && xs[i].name == ys[j].name && Canon(xs[i].value) == Canon(ys[j].value)
  {
    var cx, cy := CanonFields(xs), CanonFields(ys);
    hide Sort;
    hide Canon;
    hide CanonFields;
    assert cx[i] in cx && cx[i] in Sort(cx);
    assert cx[i] in cy;
    j :| 0 <= j < |cy| && cy[j] == cx[i];
  }

  /** A sequence of distinct members inside an equally long one has the same members. */
  lemma {:induction false} SameSizeSameMembers<T>(a: seq<T>, b: seq<T>)
    requires |a| >= |b| && (forall i, j :: 0 <= i < j < |a| ==> a[i] != a[j])
    requires forall x :: x in a ==> x in b
    ensures forall x :: x in b ==> x in a
  {
    if a != [] {
      assert a[0] in b;
      var k :| 0 <= k < |b| && b[k] == a[0];
      var c := b[..k] + b[k + 1..];
      forall x | x in a[1..] ensures x in c {
        var i :| 0 <= i < |a[1..]| && a[1..][i] == x;
        assert a[i + 1] in b && a[0] != a[i + 1];
        var m :| 0 <= m < |b| && b[m] == x;
        assert m < k ==> c[m] == x;
        assert m > k ==> c[m - 1] == x;
      }
      SameSizeSameMembers(a[1..], c);
      forall x | x in b ensures x in a {
        var m :| 0 <= m < |b| && b[m] == x;
        if m == k { assert a[0] == x; }
        if m < k { assert c[m] == x; }
        if m > k { assert c[m - 1] == x; }
        assert x in c ==> x in a[1..];
      }
    }
  }

  lemma CoveredSortsEqual<N>(xs: seq<Field<N>>, ys: seq<Field<N>>)
    requires DistinctNames(xs) && DistinctNames(ys) && |xs| == |ys|
    requires forall f :: f in xs ==> f in ys
    ensures Sort(xs) == Sort(ys)
  {
    SameSizeSameMembers(xs, ys);
    SortSorts(xs);
    SortSorts(ys);
    SortedUnique(Sort(xs), Sort(ys));
  }

  /** Equal canonical forms exactly for structurally equal trees. */
  lemma {:induction false} CanonExact<N>(a: Json<N>, b: Json<N>)
    requires WellFormed(a) && WellFormed(b)
    ensures Canon(a) == Canon(b) <==> Same(a, b)
    decreases a
  {
    hide CanonItems;
    hide CanonFields;
    hide Sort;
    match a {
      case Arr(items) =>
        if b.Arr? && |items| == |b.items| { CanonItemsExact(items, b.items, a); }
      case Obj(fields) =>
        hide Covers;
        if b.Obj? { CanonObjExact(fields, b.fields, a); }
      case _ =>
    }
  }

  lemma {:induction false} CanonItemsExact<N>(xs: seq<Json<N>>, ys: seq<Json<N>>, a: Json<N>)
    requires a == Arr(xs) && WellFormed(a) && WellFormed(Arr(ys)) && |xs| == |ys|
    ensures CanonItems(xs) == CanonItems(ys) <==> forall i :: 0 <= i < |xs| ==> Same(xs[i], ys[i])
    decreases a, 0
  {
    forall i | 0 <= i < |xs| ensures Canon(xs[i]) == Canon(ys[i]) <==> Same(xs[i], ys[i]) {
      CanonExact(xs[i], ys[i]);
    }
    hide Same;
    hide Canon;
    var cx, cy := CanonItems(xs), CanonItems(ys);
    if cx == cy {
      forall i | 0 <= i < |xs| ensures Same(xs[i], ys[i]) {
        assert cx[i] == cy[i];
      }
    }
  }

  /** `Same` and canonical equality agree on every pair of property values. */
  ghost predicate ValuesAgree<N>(xs: seq<Field<N>>, ys: seq<Field<N>>) {
    forall i, j :: 0 <= i < |xs| && 0 <= j < |ys| ==>
      (Canon(xs[i].value) == Canon(ys[j].value) <==> Same(xs[i].value, ys[j].value))
  }

  lemma SortedEqualCovered<N>(xs: seq<Field<N>>, ys: seq<Field<N>>)
    requires Sort(CanonFields(xs)) == Sort(CanonFields(ys)) && ValuesAgree(xs, ys)
    ensures |xs| == |ys| && Covers(xs, ys)
  {
    hide Same;
    hide Canon;
    forall i | 0 <= i < |xs|
      ensures exists j :: 0 <= j < |ys| && xs[i].name == ys[j].name && Same(xs[i].value, ys[j].value)
    {
      var j := SortedEqualCovers(xs, ys, i);
    }
  }

  lemma CoveredSortedEqual<N>(xs: seq<Field<N>>, ys: seq<Field<N>>)
    requires DistinctNames(xs) && DistinctNames(ys) && |xs| == |ys| && Covers(xs, ys) && ValuesAgree(xs, ys)
    ensures Sort(CanonFields(xs)) == Sort(CanonFields(ys))
  {
    CanonKeepsNames(xs);
    CanonKeepsNames(ys);
    hide Same;
    hide Canon;
    var cx, cy := CanonFields(xs), CanonFields(ys);
    forall f | f in cx ensures f in cy {
      var i :| 0 <= i < |cx| && cx[i] == f;
      var j :| 0 <= j < |ys| && xs[i].name == ys[j].name && Same(xs[i].value, ys[j].value);
      assert cy[j] == f;
    }
    CoveredSortsEqual(cx, cy);
  }

  lemma {:induction false} CanonObjExact<N>(xs: seq<Field<N>>, ys: seq<Field<N>>, a: Json<N>)
    requires a == Obj(xs) && WellFormed(a) && WellFormed(Obj(ys))
    ensures Sort(CanonFields(xs)) == Sort(CanonFields(ys)) <==> |xs| == |ys| && Covers(xs, ys)
    decreases a, 0
  {
    hide Same;
    hide Canon;
    hide CanonFields;
    hide Sort;
    forall i, j | 0 <= i < |xs| && 0 <= j < |ys|
      ensures Canon(xs[i].value) == Canon(ys[j].value) <==> Same(xs[i].value, ys[j].value)
    {
      CanonExact(xs[i].value, ys[j].value);
    }
    if Sort(CanonFields(xs)) == Sort(CanonFields(ys)) {
      SortedEqualCovered(xs, ys);
    }
    if |xs| == |ys| && Covers(xs, ys) {
      CoveredSortedEqual(xs, ys);
    }
  }

  /** Two trees print the same canonical text exactly when they are structurally equal, keys taken as a set. */
  lemma TextExact<N(!new)>(num: N -> JsString, a: Json<N>, b: Json<N>)
    requires NumberText(num) && WellFormed(a) && WellFormed(b)
    ensures Text(num, a) == Text(num, b) <==> Same(a, b)
  {
    CanonExact(a, b);
    if Text(num, a) == Text(num, b) {
      PrintInjective(num, Canon(a), Canon(b), [], []);
    }
  }

  // ----- the printer as the source runs it -----

  /** `parts.join(",")`. */
  function Join(parts: seq<JsString>): JsString {
    if parts == [] then [] else if |parts| == 1 then parts[0] else parts[0] + ([COMMA] + Join(parts[1..]))
  }

  lemma JoinItems<N>(num: N -> JsString, items: seq<Json<N>>, parts: seq<JsString>)
    requires |parts| == |items| && forall i :: 0 <= i < |parts| ==> parts[i] == Text(num, items[i])
    ensures Join(parts) == Items(num, CanonItems(items))
  {
    if |parts| > 1 {
      JoinItems(num, items[1..], parts[1..]);
      TailOfCons(Canon(items[0]), CanonItems(items[1..]));
    }
  }

  function FieldText<N>(num: N -> JsString, f: Field<N>): JsString {
    Quote(f.name) + ([COLON] + Text(num, f.value))
  }

  lemma JoinFields<N>(num: N -> JsString, fields: seq<Field<N>>, parts: seq<JsString>)
    requires |parts| == |fields| && forall i :: 0 <= i < |parts| ==> parts[i] == FieldText(num, fields[i])
    ensures Join(parts) == Fields(num, CanonFields(fields))
  {
    hide Quote;
    if |parts| > 1 {
      JoinFields(num, fields[1..], parts[1..]);
      TailOfCons(Field(fields[0].name, Canon(fields[0].value)), CanonFields(fields[1..]));
    }
  }

  /** Sorting looks at names only, so it commutes with printing the values canonically. */
  lemma {:induction false} InsertCommutes<N>(f: Field<N>, fields: seq<Field<N>>)
    ensures CanonFields(Insert(f, fields)) == Insert(Field(f.name, Canon(f.value)), CanonFields(fields))
  {
    hide Canon;
    if fields == [] {
    } else if StringLess(f.name, fields[0].name) {
      TailOfCons(f, fields);
    } else {
      InsertCommutes(f, fields[1..]);
      TailOfCons(fields[0], Insert(f, fields[1..]));
      TailOfCons(Field(fields[0].name, Canon(fields[0].value)), CanonFields(fields[1..]));
    }
  }

  lemma {:induction false} SortCommutes<N>(fields: seq<Field<N>>)
    ensures CanonFields(Sort(fields)) == Sort(CanonFields(fields))
  {
    hide Canon;
    if fields != [] {
      SortCommutes(fields[1..]);
      InsertCommutes(fields[0], Sort(fields[1..]));
      TailOfCons(Field(fields[0].name, Canon(fields[0].value)), CanonFields(fields[1..]));
    }
  }

  /** `canonicalJsonText`: sort the keys of this object, print the values, join. */
  method CanonicalJsonText<N>(num: N -> JsString, value: Json<N>) returns (text: JsString)
    ensures text == Text(num, value)
    decreases value
  {
    hide Quote;
    hide Items;
    hide Fields;
    match value
    case Null => text := NULL_TEXT;
    case Bool(flag) => text := if flag then TRUE_TEXT else FALSE_TEXT;
    case Num(n) => text := num(n);
    case Str(s) => text := Quote(s);
    case Arr(elements) =>
      var items: seq<JsString> := [];
      for index := 0 to |elements|
        invariant |items| == index && forall i :: 0 <= i < index ==> items[i] == Text(num, elements[i])
      {
        var item := CanonicalJsonText(num, elements[index]);
        items := items + [item];
      }
      JoinItems(num, elements, items);
      text := [LEFT_BRACKET] + (Join(items) + [RIGHT_BRACKET]);
    case Obj(fields) =>
      var names := Sort(fields);
      var entries: seq<JsString> := [];
      for index := 0 to |names|
        invariant |entries| == index && forall i :: 0 <= i < index ==> entries[i] == FieldText(num, names[i])
      {
        assert names[index] in names && names[index] in fields;
        var encoded := CanonicalJsonText(num, names[index].value);
        entries := entries + [Quote(names[index].name) + ([COLON] + encoded)];
      }
      SortCommutes(fields);
      JoinFields(num, names, entries);
      text := [LEFT_BRACE] + (Join(entries) + [RIGHT_BRACE]);
  }
}
