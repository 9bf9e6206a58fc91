/**
 When the parsed table conforms to its schema.  The parser lets some mismatches through:
 a string where a table belongs, an object where a vector belongs, a list where a single
 string or table belongs.  The condition looks at the text's tree only.
 */
module Conformance {
  import opened Common
  import opened Lexer
  import opened TokenMachine
  import opened Json
  import opened Grammar
  import opened Accepts
  import opened Flat
  import opened ParserMachine
  import opened Evaluate

  /** The value has the shape its field calls for, as far as the parser would not notice otherwise. */
  predicate Shaped(env: Env, f: FieldDef, inVector: bool, j: Json)
    requires ValidSchema(env.types) && ValidField(env.types, f)
    decreases j, 1
  {
    match j
    case Leaf(t) => t.StringValue? ==> !f.elem.Sequence?
    case Object(fs) =>
      f.elem.Sequence? ==> (inVector || !f.repeating) && ShapedFields(env, f.ref.value, fs, {})
    case Array(items) =>
      if f.repeating then ShapedItems(env, f, items) else !f.elem.String? && !f.elem.Sequence?
  }

  predicate ShapedItems(env: Env, f: FieldDef, items: Items)
    requires ValidSchema(env.types) && ValidField(env.types, f)
    decreases items, 0
  {
    items.Item? ==> Shaped(env, f, true, items.value) && ShapedItems(env, f, items.rest)
  }

  /** Only the first value of each field counts; `seen` are the fields that have one. */
  predicate ShapedFields(env: Env, ty: nat, fs: Fields, seen: set<nat>)
    requires ValidSchema(env.types) && IsTable(env.types, ty)
    decreases fs, 0
  {
    fs.Member? ==>
      var i := FieldIndex(FieldsOf(env.types, ty), fs.name);
      i != -1 ==>
        (i !in seen ==> Shaped(env, FieldsOf(env.types, ty)[i], false, fs.value)) &&
        ShapedFields(env, ty, fs.rest, seen + {i})
  }

  /** Whatever is stored for the element has the type of the field. */
  predicate StoresOk(env: Env, f: FieldDef, x: Element) {
    StoreField(f, x).Some? ==> FieldOk(env.types, f, StoreField(f, x).value)
  }

  /** The same for an element of the field's vector. */
  predicate PushesOk(env: Env, f: FieldDef, x: Element) {
    Store(f.elem, x).Some? ==> ElemOk(env.types, f, Store(f.elem, x).value)
  }

  /** The same for the first element of each field that is not in use. */
  predicate WritesOk(env: Env, fs: seq<FieldDef>, xs: seq<FieldElement>, seen: set<nat>)
    requires Indexed(fs, xs)
  {
    forall i :: 0 <= i < |fs| && i !in seen && FirstFor(i, xs).Some? ==> StoresOk(env, fs[i], FirstFor(i, xs).value)
  }

  lemma TableConforms(env: Env, ty: nat, xs: seq<FieldElement>)
    requires IsTable(env.types, ty) && Indexed(FieldsOf(env.types, ty), xs)
    ensures TableOk(env.types, ty, WriteTable(FieldsOf(env.types, ty), xs)) <==>
      WritesOk(env, FieldsOf(env.types, ty), xs, {})
  {
    var fs := FieldsOf(env.types, ty);
    var t := WriteTable(fs, xs);
    forall i | 0 <= i < |fs|
      ensures t[i] == StoreOption(fs[i], FirstFor(i, xs))
    {
      WriteTableField(fs, xs, i);
    }
  }

  lemma FirstOf(fs: seq<FieldDef>, y: FieldElement, ys: seq<FieldElement>, i: nat)
    ensures FirstFor(i, [y] + ys) == if y.index == i then Some(y.element) else FirstFor(i, ys)
  {
    assert ([y] + ys)[1..] == ys;
  }

  lemma WritesFirst(env: Env, fs: seq<FieldDef>, y: FieldElement, ys: seq<FieldElement>, seen: set<nat>)
    requires Indexed(fs, [y] + ys) && Indexed(fs, ys) && y.index < |fs|
    ensures WritesOk(env, fs, [y] + ys, seen) <==>
      (y.index !in seen ==> StoresOk(env, fs[y.index], y.element)) && WritesOk(env, fs, ys, seen + {y.index})
  {
    forall i: nat | i < |fs|
      ensures FirstFor(i, [y] + ys) == if y.index == i then Some(y.element) else FirstFor(i, ys)
    {
      FirstOf(fs, y, ys, i);
    }
    if y.index !in seen {
      assert FirstFor(y.index, [y] + ys) == Some(y.element);
    }
    if WritesOk(env, fs, [y] + ys, seen) {
      forall i | 0 <= i < |fs| && i !in seen + {y.index} && FirstFor(i, ys).Some?
        ensures StoresOk(env, fs[i], FirstFor(i, ys).value)
      {
        assert FirstFor(i, [y] + ys) == FirstFor(i, ys);
      }
    }
  }

  lemma IntStores(env: Env, f: FieldDef, i: int)
    ensures PushesOk(env, f, IntElement(i))
    ensures !f.repeating ==> StoresOk(env, f, IntElement(i))
  {
  }

  lemma ScalarShape(env: Env, f: FieldDef, inVector: bool, t: Token)
    requires ValidSchema(env.types) && ValidField(env.types, f) && IsScalar(t)
    requires ScalarElement(env, f, inVector, t).Some?
    ensures var x := ScalarElement(env, f, inVector, t).value;
      (if inVector then PushesOk(env, f, x) else StoresOk(env, f, x)) <==> Shaped(env, f, inVector, Leaf(t))
  {
    var x := ScalarElement(env, f, inVector, t).value;
    match x
    case IntElement(i) => IntStores(env, f, i);
    case DoubleElement(text) =>
      assert t.NumberValue?;
      var v := VReal(Literal(text));
      assert ElemOk(env.types, f, v) <==> f.elem.Float? || f.elem.Double?;
      assert !inVector ==> !f.repeating;
    case OffsetElement(v) =>
      assert v == VString(t.text);
      assert ElemOk(env.types, f, v) <==> f.elem.String?;
  }

  lemma {:induction false} ValueShape(env: Env, f: FieldDef, inVector: bool, j: Json)
    requires ValidSchema(env.types) && ValidField(env.types, f) && Proper(j)
    requires EvalValue(env, f, inVector, j).Some?
    ensures var x := EvalValue(env, f, inVector, j).value;
      (if inVector then PushesOk(env, f, x) else StoresOk(env, f, x)) <==> Shaped(env, f, inVector, j)
    decreases j, 1
  {
    match j
    case Leaf(t) => ScalarShape(env, f, inVector, t);
    case Object(fs) =>
      var ty := f.ref.value;
      var xs := EvalFields(env, ty, fs).value;
      FieldsShape(env, ty, fs, {});
      TableConforms(env, ty, xs);
      var v := VTable(WriteTable(FieldsOf(env.types, ty), xs));
      assert EvalValue(env, f, inVector, j).value == OffsetElement(v);
      assert ElemOk(env.types, f, v) <==> ShapedFields(env, ty, fs, {});
      assert f.repeating ==> !FieldOk(env.types, f, v);
    case Array(items) =>
      var xs := EvalItems(env, f, items).value;
      if f.repeating {
        ItemsShape(env, f, items);
        VectorConforms(env, f, xs);
      } else {
        assert !FieldOk(env.types, f, VVector(StoreAll(f.elem, xs).value));
      }
  }

  lemma {:induction false} ItemsShape(env: Env, f: FieldDef, items: Items)
    requires ValidSchema(env.types) && ValidField(env.types, f) && ProperItems(items) && f.repeating
    requires EvalItems(env, f, items).Some?
    ensures var xs := EvalItems(env, f, items).value;
      (forall k :: 0 <= k < |xs| ==> PushesOk(env, f, xs[k])) <==> ShapedItems(env, f, items)
    decreases items, 0
  {
    if items.Item? {
      ValueShape(env, f, true, items.value);
      ItemsShape(env, f, items.rest);
      PushesFirst(env, f, EvalValue(env, f, true, items.value).value, EvalItems(env, f, items.rest).value);
    }
  }

  lemma PushesFirst(env: Env, f: FieldDef, x: Element, ys: seq<Element>)
    ensures (forall k :: 0 <= k < |[x] + ys| ==> PushesOk(env, f, ([x] + ys)[k])) <==>
      PushesOk(env, f, x) && forall k :: 0 <= k < |ys| ==> PushesOk(env, f, ys[k])
  {
    var xs := [x] + ys;
    assert xs[0] == x;
    assert forall k :: 0 <= k < |ys| ==> xs[k + 1] == ys[k];
    if forall k :: 0 <= k < |xs| ==> PushesOk(env, f, xs[k]) {
      forall k | 0 <= k < |ys| ensures PushesOk(env, f, ys[k]) {
        assert PushesOk(env, f, xs[k + 1]);
      }
    }
  }

  lemma {:induction false} StoredAll(e: Elem, xs: seq<Element>, k: nat)
    requires StoreAll(e, xs).Some? && k < |xs|
    ensures Store(e, xs[k]) == Some(StoreAll(e, xs).value[k])
    decreases |xs|
  {
    if k < |xs| - 1 {
      StoredAll(e, ButLast(xs), k);
    }
  }

  lemma VectorConforms(env: Env, f: FieldDef, xs: seq<Element>)
    requires f.repeating && StoreAll(f.elem, xs).Some?
    ensures StoresOk(env, f, OffsetElement(VVector(StoreAll(f.elem, xs).value))) <==>
      forall k :: 0 <= k < |xs| ==> PushesOk(env, f, xs[k])
  {
    var vs := StoreAll(f.elem, xs).value;
    forall k | 0 <= k < |xs|
      ensures Store(f.elem, xs[k]) == Some(vs[k])
    {
      StoredAll(f.elem, xs, k);
    }
    if StoresOk(env, f, OffsetElement(VVector(vs))) {
      assert forall k :: 0 <= k < |vs| ==> ElemOk(env.types, f, vs[k]);
    }
    if forall k :: 0 <= k < |xs| ==> PushesOk(env, f, xs[k]) {
      forall k | 0 <= k < |vs|
        ensures ElemOk(env.types, f, vs[k])
      {
        assert PushesOk(env, f, xs[k]);
      }
    }
  }

  lemma {:induction false} FieldsShape(env: Env, ty: nat, fs: Fields, seen: set<nat>)
    requires ValidSchema(env.types) && IsTable(env.types, ty) && ProperFields(fs) && EvalFields(env, ty, fs).Some?
    ensures WritesOk(env, FieldsOf(env.types, ty), EvalFields(env, ty, fs).value, seen) <==>
      ShapedFields(env, ty, fs, seen)
    decreases fs, 0
  {
    if fs.Member? {
      var defs := FieldsOf(env.types, ty);
      var i := FieldIndex(defs, fs.name);
      ValueShape(env, defs[i], false, fs.value);
      FieldsShape(env, ty, fs.rest, seen + {i});
      var x := EvalValue(env, defs[i], false, fs.value).value;
      WritesFirst(env, defs, FieldElement(i, x), EvalFields(env, ty, fs.rest).value, seen);
    }
  }

  /**
   The table an accepted object means conforms to the schema exactly when the object is
   shaped like it.
   */
  lemma ParsedConforms(env: Env, ty: nat, j: Json)
    requires ValidSchema(env.types) && IsTable(env.types, ty) && Proper(j) && j.Object?
    requires EvalObject(env, ty, j).Some?
    ensures TableOk(env.types, ty, EvalObject(env, ty, j).value) <==> ShapedFields(env, ty, j.fields, {})
  {
    FieldsShape(env, ty, j.fields, {});
    TableConforms(env, ty, EvalFields(env, ty, j.fields).value);
  }

  /** The tree of the text below, laid out as it stands there. */
  function SampleLayout(): Layout {
    LObject("", LLastField(Key("a", "a", "", ""), LString("x", "x"), ""))
  }

  lemma SampleSpelled()
    ensures Spelling("{\"a\":\"x\"}", Object(Member("a", Leaf(StringValue("x")), NoFields)))
  {
    var v := SampleLayout();
    OneCharSpells("a");
    OneCharSpells("x");
    assert IsSpace("");
    assert Ok(v);
    assert Text(v, "") == "{\"a\":\"x\"}" by {
      assert Text(LString("x", "x"), "" + ("}" + "")) == "\"x\"}";
      assert TextKey(Key("a", "a", "", ""), "\"x\"}") == "\"a\":\"x\"}";
    }
  }

  lemma OneCharSpells(s: string)
    requires |s| == 1 && s[0] != '\"' && s[0] != '\\'
    ensures Spells(s, s)
  {
    PlainReads(s, "");
    assert s + "\"" + "" == s + "\"";
  }

  /** A string where a table belongs is accepted: this text, with a field of a table type. */
  lemma StringForTable(converts: string -> bool)
    ensures var f := FieldDef("a", Sequence, false, Some(0));
      var env := Env([TableType([f], [0])], converts);
      && ValidSchema(env.types) && IsTable(env.types, 0)
      && Parse(env, 0, "{\"a\":\"x\"}").Accept?
      && !TableOk(env.types, 0, Parse(env, 0, "{\"a\":\"x\"}").table)
  {
    hide Tokens, Spelling, Consume;
    var f := FieldDef("a", Sequence, false, Some(0));
    var env := Env([TableType([f], [0])], converts);
    var j := Object(Member("a", Leaf(StringValue("x")), NoFields));
    assert FieldIndex([f], "a") == 0;
    assert !Shaped(env, f, false, Leaf(StringValue("x")));
    ParsedConforms(env, 0, j);
    SampleSpelled();
    SpellingAccepted("{\"a\":\"x\"}", j);
    ObjectParsed(env, 0, j);
  }
}
