/**
 What a merged table holds, field by field, all the way down: stated of lookups by field
 ids, without the merge itself.
 */
module FieldPaths {
  import opened Common
  import opened Flat
  import opened Merge

  /** The value at the end of a path of field ids through sub-tables. */
  function At(t: Table, path: seq<nat>): Option<Value>
    decreases |path|
  {
    if path == [] || path[0] >= |t| || t[path[0]].None? then None
    else if |path| == 1 then t[path[0]]
    else if t[path[0]].value.VTable? then At(t[path[0]].value.fields, path[1..])
    else None
  }

  function AtOption(t: Option<Table>, path: seq<nat>): Option<Value> {
    if t.None? then None else At(t.value, path)
  }

  /** A path that the schema has: fields with a single sub-table, and any field at the end. */
  predicate SchemaPath(s: Schema, ty: nat, path: seq<nat>)
    requires ValidSchema(s) && IsTable(s, ty)
    decreases |path|
  {
    && path != [] && path[0] < |FieldsOf(s, ty)|
    && var f := FieldsOf(s, ty)[path[0]];
       |path| == 1 || (f.elem.Sequence? && !f.repeating && SchemaPath(s, f.ref.value, path[1..]))
  }

  /** The field at the end of the path. */
  function EndField(s: Schema, ty: nat, path: seq<nat>): FieldDef
    requires ValidSchema(s) && IsTable(s, ty) && SchemaPath(s, ty, path)
    decreases |path|
  {
    var f := FieldsOf(s, ty)[path[0]];
    if |path| == 1 then f else EndField(s, f.ref.value, path[1..])
  }

  /** The elements of a vector; none if there is no vector. */
  function ElemsAt(x: Option<Value>): seq<Value> {
    if x.Some? && x.value.VVector? then x.value.elems else []
  }

  /** The later value wins. */
  function Later(x: Option<Value>, y: Option<Value>): Option<Value> {
    if y.Some? then y else x
  }

  /** A vector of both vectors' elements, if there is one. */
  function Joined(x: Option<Value>, y: Option<Value>): Option<Value> {
    if x.None? && y.None? then None else Some(VVector(ElemsAt(x) + ElemsAt(y)))
  }

  /** What a merge of `x` and `y` puts at the end of a path. */
  predicate MergedTo(f: FieldDef, x: Option<Value>, y: Option<Value>, r: Option<Value>) {
    if f.repeating then r == Joined(x, y)
    else if f.elem.Sequence? then r.Some? <==> x.Some? || y.Some?
    else r == Later(x, y)
  }

  lemma JoinedMeaning(s: Schema, f: FieldDef, x: Option<Value>, y: Option<Value>)
    requires Supported(s) && ValidField(s, f) && !f.elem.UType? && FieldOptionOk(s, f, x) && FieldOptionOk(s, f, y)
    ensures MergedTo(f, x, y, Join(s, f, x, y))
  {
    if f.repeating {
      if x.Some? && y.Some? {
        JoinVectors(s, f, x.value, y.value);
      } else {
        JoinNeutral(s, f, x);
        JoinNeutral(s, f, y);
        assert ElemsAt(x) + [] == ElemsAt(x);
        assert [] + ElemsAt(y) == ElemsAt(y);
      }
    }
  }

  /** The fields of a merged table, one by one. */
  lemma JoinedField(s: Schema, ty: nat, a: Option<Table>, b: Option<Table>, i: nat)
    requires Supported(s) && IsTable(s, ty) && OptionOk(s, ty, a) && OptionOk(s, ty, b) && i < |FieldsOf(s, ty)|
    ensures var f := FieldsOf(s, ty)[i];
      && ValidField(s, f) && !f.elem.UType? && FieldOptionOk(s, f, Get(a, i)) && FieldOptionOk(s, f, Get(b, i))
      && MergeTables(s, ty, a, b)[i] == Join(s, f, Get(a, i), Get(b, i))
  {
  }

  /** Merging two single sub-tables, one of which may be missing. */
  lemma JoinedTable(s: Schema, f: FieldDef, x: Option<Value>, y: Option<Value>)
    requires Supported(s) && ValidField(s, f) && f.elem.Sequence? && !f.repeating
    requires FieldOptionOk(s, f, x) && FieldOptionOk(s, f, y)
    ensures (x.Some? ==> x.value.VTable?) && (y.Some? ==> y.value.VTable?)
    ensures OptionOk(s, f.ref.value, TableOf(x)) && OptionOk(s, f.ref.value, TableOf(y))
    ensures Join(s, f, x, y) ==
      if x.None? && y.None? then None else Some(VTable(MergeTables(s, f.ref.value, TableOf(x), TableOf(y))))
  {
    assert x.Some? ==> ElemOk(s, f, x.value);
    assert y.Some? ==> ElemOk(s, f, y.value);
  }

  /** The path goes on in the sub-table. */
  lemma AtStep(t: Table, path: seq<nat>)
    requires |path| > 1 && path[0] < |t| && (t[path[0]].Some? ==> t[path[0]].value.VTable?)
    ensures At(t, path) == AtOption(TableOf(t[path[0]]), path[1..])
  {
  }

  /**
   At the end of every path the merged table has: for a scalar or string the value of the
   second table, or that of the first if there is none; for a vector the elements of both,
   the first table's in front; a sub-table exactly if one of them has it.
   */
  lemma {:induction false} MergedAt(s: Schema, ty: nat, a: Option<Table>, b: Option<Table>, path: seq<nat>)
    requires Supported(s) && IsTable(s, ty) && OptionOk(s, ty, a) && OptionOk(s, ty, b) && SchemaPath(s, ty, path)
    ensures MergedTo(EndField(s, ty, path), AtOption(a, path), AtOption(b, path), At(MergeTables(s, ty, a, b), path))
    decreases |path|
  {
    hide Join, MergeTables, Get, MergedTo, OptionOk, FieldOptionOk;
    var i := path[0];
    var f := FieldsOf(s, ty)[i];
    Sizes(s, ty, a, b);
    JoinedField(s, ty, a, b, i);
    GetAt(a, i);
    GetAt(b, i);
    var x, y := Get(a, i), Get(b, i);
    if |path| == 1 {
      assert path == [i];
      JoinedMeaning(s, f, x, y);
    } else {
      JoinedTable(s, f, x, y);
      MergedAt(s, f.ref.value, TableOf(x), TableOf(y), path[1..]);
      PathInto(a, path);
      PathInto(b, path);
      AtStep(MergeTables(s, ty, a, b), path);
      NothingMerged(s, f.ref.value, path[1..]);
    }
  }

  lemma Sizes(s: Schema, ty: nat, a: Option<Table>, b: Option<Table>)
    requires Supported(s) && IsTable(s, ty) && OptionOk(s, ty, a) && OptionOk(s, ty, b)
    ensures (a.Some? ==> |a.value| == |FieldsOf(s, ty)|) && (b.Some? ==> |b.value| == |FieldsOf(s, ty)|)
    ensures |MergeTables(s, ty, a, b)| == |FieldsOf(s, ty)|
  {
  }

  lemma GetAt(t: Option<Table>, i: nat)
    requires t.Some? ==> i < |t.value|
    ensures Get(t, i) == AtOption(t, [i])
  {
  }

  lemma PathInto(t: Option<Table>, path: seq<nat>)
    requires |path| > 1 && (t.Some? ==> path[0] < |t.value|)
    requires Get(t, path[0]).Some? ==> Get(t, path[0]).value.VTable?
    ensures AtOption(t, path) == AtOption(TableOf(Get(t, path[0])), path[1..])
  {
  }

  lemma NothingMerged(s: Schema, ty: nat, path: seq<nat>)
    requires Supported(s) && IsTable(s, ty) && SchemaPath(s, ty, path)
    ensures MergedTo(EndField(s, ty, path), None, None, None)
  {
  }

  /** The table is the merge of the two, as far as paths can tell. */
  ghost predicate Merges(s: Schema, ty: nat, a: Option<Table>, b: Option<Table>, t: Table)
    requires ValidSchema(s) && IsTable(s, ty)
  {
    |t| == |FieldsOf(s, ty)| && forall path: seq<nat> :: SchemaPath(s, ty, path) ==>
      MergedTo(EndField(s, ty, path), AtOption(a, path), AtOption(b, path), At(t, path))
  }

  lemma MergedEverywhere(s: Schema, ty: nat, a: Option<Table>, b: Option<Table>)
    requires Supported(s) && IsTable(s, ty) && OptionOk(s, ty, a) && OptionOk(s, ty, b)
    ensures Merges(s, ty, a, b, MergeTables(s, ty, a, b))
  {
    hide MergeTables, MergedTo, SchemaPath, EndField, At, OptionOk;
    Sizes(s, ty, a, b);
    forall path: seq<nat> | SchemaPath(s, ty, path)
      ensures MergedTo(EndField(s, ty, path), AtOption(a, path), AtOption(b, path), At(MergeTables(s, ty, a, b), path))
    {
      MergedAt(s, ty, a, b, path);
    }
  }

  // ----------------------------------------------------------------- many tables in a row

  /** The value at the path in the last table that has one. */
  function LastAt(ts: seq<Table>, path: seq<nat>): Option<Value> {
    if ts == [] then None
    else if At(Last(ts), path).Some? then At(Last(ts), path)
    else LastAt(ButLast(ts), path)
  }

  /** The elements at the path in all tables, in order. */
  function AllAt(ts: seq<Table>, path: seq<nat>): seq<Value> {
    if ts == [] then [] else AllAt(ButLast(ts), path) + ElemsAt(At(Last(ts), path))
  }

  /** Some table has a value at the path. */
  predicate SomeAt(ts: seq<Table>, path: seq<nat>) {
    exists k :: 0 <= k < |ts| && At(ts[k], path).Some?
  }

  /** What tables merged one on top of the other have at the end of a path. */
  predicate Combined(f: FieldDef, ts: seq<Table>, path: seq<nat>, r: Option<Value>) {
    if f.repeating then r == if SomeAt(ts, path) then Some(VVector(AllAt(ts, path))) else None
    else if f.elem.Sequence? then r.Some? <==> SomeAt(ts, path)
    else r == LastAt(ts, path)
  }

  lemma SomeAtMore(ts: seq<Table>, t: Table, path: seq<nat>)
    ensures SomeAt(ts + [t], path) <==> SomeAt(ts, path) || At(t, path).Some?
  {
    var us := ts + [t];
    if SomeAt(ts, path) {
      var k :| 0 <= k < |ts| && At(ts[k], path).Some?;
      assert us[k] == ts[k];
    }
    if At(t, path).Some? {
      assert us[|ts|] == t;
    }
  }

  /** One more table on top. */
  lemma CombinedMore(f: FieldDef, ts: seq<Table>, t: Table, path: seq<nat>, x: Option<Value>, r: Option<Value>)
    requires Combined(f, ts, path, x) && MergedTo(f, x, At(t, path), r)
    ensures Combined(f, ts + [t], path, r)
  {
    SomeAtMore(ts, t, path);
    assert ButLast(ts + [t]) == ts && Last(ts + [t]) == t;
    if !SomeAt(ts, path) {
      NothingAt(ts, path);
    }
  }

  lemma {:induction false} NothingAt(ts: seq<Table>, path: seq<nat>)
    requires !SomeAt(ts, path)
    ensures AllAt(ts, path) == [] && LastAt(ts, path).None?
    decreases |ts|
  {
    if ts != [] {
      assert At(ts[|ts| - 1], path).None?;
      assert ts == ButLast(ts) + [Last(ts)];
      SomeAtMore(ButLast(ts), Last(ts), path);
      NothingAt(ButLast(ts), path);
    }
  }

  lemma CombinedOne(f: FieldDef, t: Table, path: seq<nat>)
    requires f.repeating && At(t, path).Some? ==> At(t, path).value.VVector?
    ensures Combined(f, [t], path, At(t, path))
  {
    assert ButLast([t]) == [] && Last([t]) == t && [t][0] == t;
    assert f.repeating && At(t, path).Some? ==> [] + At(t, path).value.elems == At(t, path).value.elems;
    assert SomeAt([t], path) <==> At(t, path).Some?;
  }

  lemma {:induction false} AtConforms(s: Schema, ty: nat, t: Table, path: seq<nat>)
    requires ValidSchema(s) && IsTable(s, ty) && TableOk(s, ty, t) && SchemaPath(s, ty, path)
    ensures At(t, path).Some? ==> FieldOk(s, EndField(s, ty, path), At(t, path).value)
    decreases |path|
  {
    var i := path[0];
    var f := FieldsOf(s, ty)[i];
    if |path| > 1 && t[i].Some? {
      assert FieldOk(s, f, t[i].value) && ElemOk(s, f, t[i].value);
      AtConforms(s, f.ref.value, t[i].value.fields, path[1..]);
    }
  }
}
