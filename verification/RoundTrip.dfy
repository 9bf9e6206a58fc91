/** Printing a table and parsing the text gives the table back. */
module RoundTrip {
  import opened Common
  import opened Lexer
  import opened TokenMachine
  import opened Decimal
  import opened Json
  import opened Grammar
  import opened Accepts
  import opened Recovers
  import opened Flat
  import opened ParserMachine
  import opened Evaluate
  import opened Printer

  // ------------------------------------------------------------- what can be printed

  predicate Distinct(names: seq<string>) {
    forall i, j :: 0 <= i < j < |names| ==> names[i] != names[j]
  }

  function FieldNames(fs: seq<FieldDef>): (r: seq<string>)
    ensures |r| == |fs| && forall i :: 0 <= i < |fs| ==> r[i] == fs[i].name
  {
    seq(|fs|, i requires 0 <= i < |fs| => fs[i].name)
  }

  function EnumNames(vs: seq<EnumVal>): (r: seq<string>)
    ensures |r| == |vs| && forall i :: 0 <= i < |vs| ==> r[i] == vs[i].name
  {
    seq(|vs|, i requires 0 <= i < |vs| => vs[i].name)
  }

  predicate PlainNames(names: seq<string>) {
    Distinct(names) && forall i :: 0 <= i < |names| ==> Plain(names[i])
  }

  /** Names are distinct identifiers, and the reflection schema lists every field. */
  predicate Reflected(d: TypeDef) {
    match d
    case EnumType(vs) => PlainNames(EnumNames(vs))
    case TableType(fs, printed) =>
      && PlainNames(FieldNames(fs))
      && (forall i :: 0 <= i < |fs| ==> i in printed)
  }

  predicate ReflectedSchema(s: Schema) {
    ValidSchema(s) && forall ty :: 0 <= ty < |s| ==> Reflected(s[ty])
  }

  /**
   What survives printing and parsing: integers of 64 bits with sign (or enums of any
   width), strings, tables; inside vectors only strings that need no escaping, since
   those are printed as they are, and end at the first null character.
   */
  predicate PrintableElem(s: Schema, o: Options, f: FieldDef, raw: bool, v: Value)
    requires ValidSchema(s) && ValidField(s, f) && ElemOk(s, f, v)
    decreases v, 1
  {
    match v
    case VInt(i) => f.ref.None? ==> i < INT64
    case VReal(_) => false
    case VString(x) => raw ==> Plain(x) && '\0' !in x
    case VTable(t) => Printable(s, o, f.ref.value, t)
    case VVector(_) => false
  }

  predicate PrintableField(s: Schema, o: Options, f: FieldDef, v: Value)
    requires ValidSchema(s) && ValidField(s, f) && FieldOk(s, f, v)
    decreases v, 2
  {
    if f.repeating then
      |v.elems| <= o.maxVectorSize && forall k :: 0 <= k < |v.elems| ==> PrintableElem(s, o, f, true, v.elems[k])
    else PrintableElem(s, o, f, false, v)
  }

  predicate Printable(s: Schema, o: Options, ty: nat, t: Table)
    requires ValidSchema(s) && IsTable(s, ty) && TableOk(s, ty, t)
    decreases VTable(t), 0
  {
    forall i :: 0 <= i < |t| && t[i].Some? ==> PrintableField(s, o, FieldsOf(s, ty)[i], t[i].value)
  }

  // ------------------------------------------------------------------------- scalars

  lemma {:induction false} EnumRoundTrip(vs: seq<EnumVal>, i: int, k: nat)
    requires k <= |vs| && Distinct(EnumNames(vs)) && EnumNameFrom(vs, i, k).Some?
    ensures EnumNameFrom(vs, i, k).value in EnumNames(vs)
    ensures forall j :: 0 <= j <= k ==> EnumValueFrom(vs, EnumNameFrom(vs, i, k).value, j) == Some(i)
    decreases |vs| - k
  {
    var name := EnumNameFrom(vs, i, k).value;
    if vs[k].value == i {
      assert EnumNames(vs)[k] == name;
      var j := k;
      while j > 0
        invariant 0 <= j <= k
        invariant forall n :: j <= n <= k ==> EnumValueFrom(vs, name, n) == Some(i)
      {
        j := j - 1;
        assert EnumNames(vs)[j] != EnumNames(vs)[k];
      }
    } else {
      EnumRoundTrip(vs, i, k + 1);
    }
  }

  lemma PlainSpells(s: string)
    requires Plain(s)
    ensures Spells(s, s)
  {
    PlainReads(s, "");
    assert s + "\"" + "" == s + "\"";
  }

  lemma NumberRoundTrip(env: Env, f: FieldDef, inVector: bool, i: int)
    requires ValidField(env.types, f) && f.repeating == inVector && -INT64 <= i < INT64
    ensures Ok(Bare(Show(i)))
    ensures ScalarElement(env, f, inVector, NumberValue(Show(i))) == Some(IntElement(i))
  {
    ShowIsNumber(i);
    ShownAsInt(i);
  }

  /** An integer is printed so that it is read back to an integer that is stored as itself. */
  lemma IntRoundTrip(env: Env, f: FieldDef, inVector: bool, i: int)
    requires ReflectedSchema(env.types) && ValidField(env.types, f) && ElemOk(env.types, f, VInt(i))
    requires f.repeating == inVector && (f.ref.None? ==> i < INT64)
    ensures var l := IntLayout(env.types, f, i);
      && Ok(l) && Erase(l).Leaf? && IsScalar(Erase(l).token)
      && ScalarElement(env, f, inVector, Erase(l).token).Some?
      && Store(f.elem, ScalarElement(env, f, inVector, Erase(l).token).value) == Some(VInt(i))
  {
    if f.ref.Some? {
      var vs, j := env.types[f.ref.value].values, Cast(Long, i);
      assert Reflected(env.types[f.ref.value]);
      assert Cast(f.elem, j) == i by {
        CastBack(f.elem, i);
      }
      if EnumName(vs, j).Some? {
        EnumRoundTrip(vs, j, 0);
        PlainSpells(EnumName(vs, j).value);
      } else {
        NumberRoundTrip(env, f, inVector, j);
      }
    } else if !f.elem.Bool? {
      NumberRoundTrip(env, f, inVector, i);
    }
  }

  /** Through 64 bits with sign and back. */
  lemma CastBack(e: Elem, i: int)
    requires Integral(e) && InRange(e, i)
    ensures Cast(e, Cast(Long, i)) == i
  {
    if e.ULong? && i >= INT64 {
      var p := Power(64);
      assert (i - Low(Long)) / p == 1;
      assert Cast(Long, i) == i - p;
      assert (i - p) / p == -1;
    } else {
      assert InRange(Long, i) by {
        RangeOfLong(e, i);
      }
    }
  }

  lemma RangeOfLong(e: Elem, i: int)
    requires Integral(e) && InRange(e, i) && (e.ULong? ==> i < INT64)
    ensures InRange(Long, i)
  {
  }

  lemma {:induction false} CStringWhole(s: string)
    requires '\0' !in s
    ensures CString(s) == s
  {
    if s != "" {
      assert s[0] in s && forall c :: c in s[1..] ==> c in s;
      CStringWhole(s[1..]);
      assert s == [s[0]] + s[1..];
    }
  }

  // -------------------------------------------------------------------------- layouts

  lemma {:induction false} IndentIsSpace(depth: nat)
    ensures IsSpace(Indent(depth))
  {
    if depth > 0 {
      IndentIsSpace(depth - 1);
      SkipSpaceAppend(Indent(depth - 1), "  ");
      assert IsSpace("  ") by {
        assert "  "[1..] == " " && " "[1..] == "";
      }
    }
  }

  lemma WrappingIsSpace(wrap: bool, depth: nat)
    ensures IsSpace(Wrapping(wrap, depth)) && IsSpace(Separator(wrap, depth))
  {
    IndentIsSpace(depth);
    assert ("\n" + Indent(depth))[1..] == Indent(depth);
    assert " "[1..] == "";
  }

  lemma KeyOk(name: string)
    requires Plain(name)
    ensures OkKey(KeyLayout(name))
  {
    PlainSpells(name);
    assert " "[1..] == "";
  }

  // -------------------------------------------------------------------- the round trip

  lemma {:induction false} FieldFound(fs: seq<FieldDef>, i: nat, k: nat)
    requires k <= i < |fs| && Distinct(FieldNames(fs))
    ensures FieldIndexFrom(fs, fs[i].name, k) == i
    decreases i - k
  {
    if k < i {
      assert FieldNames(fs)[k] != FieldNames(fs)[i];
      FieldFound(fs, i, k + 1);
    }
  }

  /** The layout is well-formed and means an element that is stored as the value. */
  predicate GoodElem(env: Env, f: FieldDef, inVector: bool, l: Layout, v: Value)
    requires ValidSchema(env.types) && ValidField(env.types, f)
  {
    && Ok(l) && Proper(Erase(l)) && EvalValue(env, f, inVector, Erase(l)).Some?
    && Store(f.elem, EvalValue(env, f, inVector, Erase(l)).value) == Some(v)
  }

  predicate GoodItems(env: Env, f: FieldDef, l: LItems, vs: seq<Value>)
    requires ValidSchema(env.types) && ValidField(env.types, f)
  {
    && OkItems(l) && ProperItems(EraseItems(l)) && EvalItems(env, f, EraseItems(l)).Some?
    && StoreAll(f.elem, EvalItems(env, f, EraseItems(l)).value) == Some(vs)
  }

  predicate GoodField(env: Env, f: FieldDef, l: Layout, v: Value)
    requires ValidSchema(env.types) && ValidField(env.types, f)
  {
    && Ok(l) && Proper(Erase(l)) && EvalValue(env, f, false, Erase(l)).Some?
    && StoreField(f, EvalValue(env, f, false, Erase(l)).value) == Some(v)
  }

  predicate GoodFields(env: Env, ty: nat, l: LFields, t: Table, ids: seq<nat>)
    requires ValidSchema(env.types) && IsTable(env.types, ty)
    requires |t| == |FieldsOf(env.types, ty)| && forall k :: 0 <= k < |ids| ==> ids[k] < |t|
  {
    && OkFields(l) && (l.LNoFields? <==> ids == []) && ProperFields(EraseFields(l))
    && EvalFields(env, ty, EraseFields(l)).Some?
    && Means(FieldsOf(env.types, ty), t, ids, EvalFields(env, ty, EraseFields(l)).value)
  }

  lemma {:induction false} ElemRoundTrip(env: Env, o: Options, f: FieldDef, v: Value, depth: nat)
    requires ReflectedSchema(env.types) && ValidField(env.types, f) && ElemOk(env.types, f, v)
    requires PrintableElem(env.types, o, f, f.repeating, v)
    ensures GoodElem(env, f, f.repeating, ElemLayout(env.types, o, f, f.repeating, v, depth), v)
    decreases v, 1
  {
    match v
    case VInt(i) => IntRoundTrip(env, f, f.repeating, i);
    case VString(x) =>
      StringRoundTrip(env, o, f, x, depth);
    case VTable(t) => ObjectRoundTrip(env, o, f.ref.value, t, depth);
  }

  lemma StringRoundTrip(env: Env, o: Options, f: FieldDef, x: string, depth: nat)
    requires ReflectedSchema(env.types) && ValidField(env.types, f) && f.elem.String?
    requires PrintableElem(env.types, o, f, f.repeating, VString(x))
    ensures GoodElem(env, f, f.repeating, ElemLayout(env.types, o, f, f.repeating, VString(x), depth), VString(x))
  {
    if f.repeating {
      CStringWhole(x);
      PlainSpells(x);
    } else {
      EscapeSpells(x);
    }
  }

  lemma {:induction false} StoreFirst(e: Elem, x: Element, ys: seq<Element>)
    requires Store(e, x).Some? && StoreAll(e, ys).Some?
    ensures StoreAll(e, [x] + ys) == Some([Store(e, x).value] + StoreAll(e, ys).value)
    decreases |ys|
  {
    var v := Store(e, x).value;
    if ys == [] {
      assert ButLast([x] + ys) == [] && Last([x] + ys) == x;
      assert [] + [v] == [v] + [];
    } else {
      StoreFirst(e, x, ButLast(ys));
      assert ButLast([x] + ys) == [x] + ButLast(ys) && Last([x] + ys) == Last(ys);
      ConcatAssoc([v], StoreAll(e, ButLast(ys)).value, [Store(e, Last(ys)).value]);
    }
  }

  lemma LastItemGood(env: Env, f: FieldDef, l: Layout, w: string, v: Value)
    requires ValidSchema(env.types) && ValidField(env.types, f) && GoodElem(env, f, true, l, v) && IsSpace(w)
    ensures GoodItems(env, f, LLastItem(l, w), [v])
  {
    hide EvalValue, Store, IsSpace;
    var x := EvalValue(env, f, true, Erase(l)).value;
    StoreFirst(f.elem, x, []);
    assert [v] + [] == [v];
    assert EraseItems(LLastItem(l, w)) == Item(Erase(l), NoItems);
    assert OkItems(LLastItem(l, w)) && ProperItems(Item(Erase(l), NoItems));
    assert EvalItems(env, f, Item(Erase(l), NoItems)) == Some([x] + []);
  }

  lemma NextItemGood(env: Env, f: FieldDef, l: Layout, w: string, rest: LItems, v: Value, vs: seq<Value>)
    requires ValidSchema(env.types) && ValidField(env.types, f) && GoodElem(env, f, true, l, v) && IsSpace(w)
    requires GoodItems(env, f, rest, vs)
    ensures GoodItems(env, f, LItem(l, "", w, rest), [v] + vs)
  {
    hide EvalValue, Store, StoreAll;
    var x, xs := EvalValue(env, f, true, Erase(l)).value, EvalItems(env, f, EraseItems(rest)).value;
    StoreFirst(f.elem, x, xs);
    assert EraseItems(LItem(l, "", w, rest)) == Item(Erase(l), EraseItems(rest));
    assert EvalItems(env, f, Item(Erase(l), EraseItems(rest))) == Some([x] + xs);
  }

  lemma {:induction false} ItemsRoundTrip(env: Env, o: Options, f: FieldDef, v: Value, k: nat, depth: nat)
    requires ReflectedSchema(env.types) && ValidField(env.types, f) && f.repeating && FieldOk(env.types, f, v)
    requires PrintableField(env.types, o, f, v) && k < |v.elems|
    ensures GoodItems(env, f, ItemsLayout(env.types, o, f, v, k, depth), v.elems[k..])
    decreases v, 0, |v.elems| - k
  {
    hide GoodElem, GoodItems, IsSpace, Wrapping, ElemLayout;
    var wrap := o.multiLine && f.elem.Sequence?;
    var l := ElemLayout(env.types, o, f, true, v.elems[k], depth + 1);
    ElemRoundTrip(env, o, f, v.elems[k], depth + 1);
    if k == |v.elems| - 1 {
      WrappingIsSpace(wrap, depth);
      LastItemGood(env, f, l, Wrapping(wrap, depth), v.elems[k]);
      assert v.elems[k..] == [v.elems[k]];
    } else {
      WrappingIsSpace(wrap, depth + 1);
      ItemsRoundTrip(env, o, f, v, k + 1, depth);
      NextItemGood(env, f, l, Separator(wrap, depth + 1), ItemsLayout(env.types, o, f, v, k + 1, depth),
                   v.elems[k], v.elems[k + 1..]);
      assert v.elems[k..] == [v.elems[k]] + v.elems[k + 1..];
    }
  }

  /** A vector laid out item by item. */
  lemma VectorGood(env: Env, f: FieldDef, w: string, items: LItems, v: Value)
    requires ValidSchema(env.types) && ValidField(env.types, f) && f.repeating && IsSpace(w) && v.VVector?
    requires GoodItems(env, f, items, v.elems)
    ensures GoodField(env, f, LArray(w, items), v)
  {
    hide IsSpace, EvalItems, StoreAll;
  }

  lemma NoItemsGood(env: Env, f: FieldDef)
    requires ValidSchema(env.types) && ValidField(env.types, f)
    ensures GoodItems(env, f, LEnd(false), [])
  {
  }

  lemma {:induction false} FieldRoundTrip(env: Env, o: Options, f: FieldDef, v: Value, depth: nat)
    requires ReflectedSchema(env.types) && ValidField(env.types, f) && FieldOk(env.types, f, v)
    requires PrintableField(env.types, o, f, v)
    ensures GoodField(env, f, FieldLayout(env.types, o, f, v, depth), v)
    decreases v, 2
  {
    if !f.repeating {
      ElemRoundTrip(env, o, f, v, depth);
    } else {
      hide GoodField, GoodItems, IsSpace, Wrapping, ItemsLayout;
      var wrap := o.multiLine && f.elem.Sequence?;
      if v.elems == [] {
        WrappingIsSpace(wrap, depth);
        NoItemsGood(env, f);
        VectorGood(env, f, Wrapping(wrap, depth), LEnd(false), v);
      } else {
        WrappingIsSpace(wrap, depth + 1);
        ItemsRoundTrip(env, o, f, v, 0, depth);
        assert v.elems[0..] == v.elems;
        VectorGood(env, f, Wrapping(wrap, depth + 1), ItemsLayout(env.types, o, f, v, 0, depth), v);
      }
    }
  }

  /** The elements that the printed fields mean, field by field. */
  predicate Means(fs: seq<FieldDef>, t: Table, ids: seq<nat>, xs: seq<FieldElement>)
    requires |t| == |fs| && forall k :: 0 <= k < |ids| ==> ids[k] < |t|
  {
    |xs| == |ids| && forall k :: 0 <= k < |ids| ==>
      xs[k].index == ids[k] && StoreField(fs[ids[k]], xs[k].element) == t[ids[k]]
  }

  lemma MeansFirst(fs: seq<FieldDef>, t: Table, ids: seq<nat>, x: Element, ys: seq<FieldElement>)
    requires |t| == |fs| && ids != [] && forall k :: 0 <= k < |ids| ==> ids[k] < |t|
    requires StoreField(fs[ids[0]], x) == t[ids[0]] && Means(fs, t, ids[1..], ys)
    ensures Means(fs, t, ids, [FieldElement(ids[0], x)] + ys)
  {
  }

  lemma LastFieldGood(env: Env, ty: nat, key: Key, l: Layout, w: string, t: Table, i: nat)
    requires ValidSchema(env.types) && IsTable(env.types, ty) && i < |t| == |FieldsOf(env.types, ty)|
    requires OkKey(key) && IsSpace(w) && FieldIndex(FieldsOf(env.types, ty), key.name) == i && t[i].Some?
    requires ValidField(env.types, FieldsOf(env.types, ty)[i])
    requires GoodField(env, FieldsOf(env.types, ty)[i], l, t[i].value)
    ensures GoodFields(env, ty, LLastField(key, l, w), t, [i])
  {
    hide EvalValue, FieldIndex, StoreField;
    var fs := FieldsOf(env.types, ty);
    var x := EvalValue(env, fs[i], false, Erase(l)).value;
    assert EraseFields(LLastField(key, l, w)) == Member(key.name, Erase(l), NoFields);
    assert EvalFields(env, ty, Member(key.name, Erase(l), NoFields)) == Some([FieldElement(i, x)] + []);
    MeansFirst(fs, t, [i], x, []);
    assert ProperFields(Member(key.name, Erase(l), NoFields)) && OkFields(LLastField(key, l, w));
  }

  lemma NextFieldGood(env: Env, ty: nat, key: Key, l: Layout, w: string, rest: LFields, t: Table, ids: seq<nat>)
    requires ValidSchema(env.types) && IsTable(env.types, ty) && |t| == |FieldsOf(env.types, ty)|
    requires |ids| > 1 && forall k :: 0 <= k < |ids| ==> ids[k] < |t|
    requires OkKey(key) && IsSpace(w) && FieldIndex(FieldsOf(env.types, ty), key.name) == ids[0] && t[ids[0]].Some?
    requires ValidField(env.types, FieldsOf(env.types, ty)[ids[0]])
    requires GoodField(env, FieldsOf(env.types, ty)[ids[0]], l, t[ids[0]].value)
    requires GoodFields(env, ty, rest, t, ids[1..])
    ensures GoodFields(env, ty, LField(key, l, "", w, rest), t, ids)
  {
    hide EvalValue, FieldIndex, StoreField;
    var fs := FieldsOf(env.types, ty);
    var x := EvalValue(env, fs[ids[0]], false, Erase(l)).value;
    MeansFirst(fs, t, ids, x, EvalFields(env, ty, EraseFields(rest)).value);
  }

  lemma {:induction false} FieldsRoundTrip(env: Env, o: Options, ty: nat, t: Table, ids: seq<nat>, depth: nat)
    requires ReflectedSchema(env.types) && IsTable(env.types, ty) && TableOk(env.types, ty, t)
    requires Printable(env.types, o, ty, t)
    requires forall k :: 0 <= k < |ids| ==> ids[k] < |t| && t[ids[k]].Some?
    ensures GoodFields(env, ty, FieldsLayout(env.types, o, ty, t, ids, depth), t, ids)
    decreases VTable(t), 0, |ids|
  {
    if ids != [] {
      hide GoodField, GoodFields, Wrapping, FieldLayout, IsSpace, OkKey;
      var fs, i := FieldsOf(env.types, ty), ids[0];
      var wrap := Wraps(o, fs);
      NameFound(env.types, ty, i);
      FieldRoundTrip(env, o, fs[i], t[i].value, depth + 1);
      var key, l := KeyLayout(fs[i].name), FieldLayout(env.types, o, fs[i], t[i].value, depth + 1);
      if |ids| == 1 {
        WrappingIsSpace(wrap, depth);
        LastFieldGood(env, ty, key, l, Wrapping(wrap, depth), t, i);
        assert ids == [i];
      } else {
        WrappingIsSpace(wrap, depth + 1);
        FieldsRoundTrip(env, o, ty, t, ids[1..], depth);
        var rest := FieldsLayout(env.types, o, ty, t, ids[1..], depth);
        NextFieldGood(env, ty, key, l, Separator(wrap, depth + 1), rest, t, ids);
      }
    }
  }

  lemma NameFound(s: Schema, ty: nat, i: nat)
    requires ReflectedSchema(s) && IsTable(s, ty) && i < |FieldsOf(s, ty)|
    ensures OkKey(KeyLayout(FieldsOf(s, ty)[i].name))
    ensures FieldIndex(FieldsOf(s, ty), FieldsOf(s, ty)[i].name) == i
  {
    var fs := FieldsOf(s, ty);
    assert Reflected(s[ty]);
    assert FieldNames(fs)[i] == fs[i].name;
    KeyOk(fs[i].name);
    FieldFound(fs, i, 0);
  }

  lemma {:induction false} PresentComplete(t: Table, ids: seq<nat>, i: nat)
    requires i < |t| && t[i].Some? && i in ids
    ensures i in Present(t, ids)
  {
    if ids[0] != i {
      PresentComplete(t, ids[1..], i);
    }
  }

  lemma {:induction false} FirstMeant(fs: seq<FieldDef>, t: Table, ids: seq<nat>, xs: seq<FieldElement>, i: nat)
    requires |t| == |fs| && i < |t| && forall k :: 0 <= k < |ids| ==> ids[k] < |t|
    requires Means(fs, t, ids, xs)
    ensures StoreOption(fs[i], FirstFor(i, xs)) == if i in ids then t[i] else None
    decreases |ids|
  {
    if ids != [] && ids[0] != i {
      FirstMeant(fs, t, ids[1..], xs[1..], i);
    }
  }

  lemma {:induction false} ObjectRoundTrip(env: Env, o: Options, ty: nat, t: Table, depth: nat)
    requires ReflectedSchema(env.types) && IsTable(env.types, ty) && TableOk(env.types, ty, t)
    requires Printable(env.types, o, ty, t)
    ensures var l := ObjectLayout(env.types, o, ty, t, depth);
      Ok(l) && Proper(Erase(l)) && EvalObject(env, ty, Erase(l)) == Some(t)
    decreases VTable(t), 0
  {
    var fs := FieldsOf(env.types, ty);
    var ids := Present(t, env.types[ty].printed);
    assert Reflected(env.types[ty]);
    WrappingIsSpace(Wraps(o, fs), if ids == [] then depth else depth + 1);
    FieldsRoundTrip(env, o, ty, t, ids, depth);
    var xs := EvalFields(env, ty, EraseFields(FieldsLayout(env.types, o, ty, t, ids, depth))).value;
    var w := WriteTable(fs, xs);
    forall i | 0 <= i < |fs|
      ensures w[i] == t[i]
    {
      WriteTableField(fs, xs, i);
      FirstMeant(fs, t, ids, xs, i);
      if t[i].Some? {
        PresentComplete(t, env.types[ty].printed, i);
      }
    }
    assert w == t;
  }

  /**
   For every schema, every option and every printable table of it: parsing the printed
   text gives the table back.
   */
  lemma PrintParse(env: Env, o: Options, ty: nat, t: Table)
    requires ReflectedSchema(env.types) && IsTable(env.types, ty) && TableOk(env.types, ty, t)
    requires Printable(env.types, o, ty, t)
    ensures Parse(env, ty, Print(env.types, o, ty, t)) == Accept(t)
  {
    ObjectRoundTrip(env, o, ty, t, 0);
    var l := ObjectLayout(env.types, o, ty, t, 0);
    assert IsSpace("");
    assert Spelling(Print(env.types, o, ty, t), Erase(l));
    ParseMeaning(env, ty, Print(env.types, o, ty, t), t);
  }
}
