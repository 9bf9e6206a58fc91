/**
 `MergeFlatBuffers` as it works: a builder that grows downwards, a first pass over the
 fields that creates everything referred to by offset, and a second pass that fills in
 the table.
 */
module Merging {
  import opened Common
  import opened Flat
  import opened Merge
  import opened FieldPaths

  /** The builder.  An offset is the position of the object among those finished. */
  class Builder {
    var objects: seq<Value>
    var pending: seq<Value>      // the vector under construction, lowest address first
    var table: map<nat, Value>   // the table under construction

    constructor ()
      ensures objects == [] && pending == [] && table == map[]
    {
      objects, pending, table := [], [], map[];
    }

    method CreateString(s: string) returns (off: nat)
      modifies this`objects
      ensures objects == old(objects) + [VString(s)] && off == |old(objects)|
    {
      off := |objects|;
      objects := objects + [VString(s)];
    }

    method StartVector()
      modifies this`pending
      ensures pending == []
    {
      pending := [];
    }

    method PushElement(v: Value)
      modifies this`pending
      ensures pending == [v] + old(pending)
    {
      pending := [v] + pending;
    }

    method EndVector() returns (off: nat)
      modifies this`objects
      ensures objects == old(objects) + [VVector(pending)] && off == |old(objects)|
    {
      off := |objects|;
      objects := objects + [VVector(pending)];
    }

    method StartTable()
      modifies this`table
      ensures table == map[]
    {
      table := map[];
    }

    method AddElement(field: nat, v: Value)
      modifies this`table
      ensures table == old(table)[field := v]
    {
      table := table[field := v];
    }

    method EndTable(n: nat) returns (off: nat)
      modifies this`objects
      ensures off == |old(objects)|
      ensures objects == old(objects) + [VTable(Filled(table, n))]
    {
      off := |objects|;
      objects := objects + [VTable(Filled(table, n))];
    }
  }

  function Filled(m: map<nat, Value>, n: nat): (t: Table)
    ensures |t| == n && forall i :: 0 <= i < n ==> t[i] == if i in m then Some(m[i]) else None
  {
    seq(n, i => if i in m then Some(m[i]) else None)
  }

  function Elems(x: Option<Value>): seq<Value>
    requires x.Some? ==> x.value.VVector?
  {
    if x.None? then [] else x.value.elems
  }

  /** Pushes the elements of a vector of scalars, last to first. */
  method PushReversed(xs: seq<Value>, fbb: Builder)
    modifies fbb`pending
    ensures fbb.pending == xs + old(fbb.pending)
  {
    var i := |xs|;
    assert xs[i..] + fbb.pending == fbb.pending;
    while i > 0
      invariant 0 <= i <= |xs| && fbb.pending == xs[i..] + old(fbb.pending)
    {
      i := i - 1;
      fbb.PushElement(xs[i]);
      assert xs[i..] == [xs[i]] + xs[i + 1..];
    }
  }

  /** A vector of scalars: the second vector is packed first, both back to front. */
  method AddVector(xs: seq<Value>, ys: seq<Value>, fbb: Builder) returns (off: nat)
    modifies fbb
    ensures fbb.objects == old(fbb.objects) + [VVector(xs + ys)] && off == |old(fbb.objects)|
  {
    fbb.StartVector();
    PushReversed(ys, fbb);
    assert ys + [] == ys;
    PushReversed(xs, fbb);
    off := fbb.EndVector();
  }

  /** The objects at the offsets are those of the sequence, last to first. */
  predicate Refers(objects: seq<Value>, offs: seq<nat>, xs: seq<Value>) {
    |offs| == |xs| && forall m :: 0 <= m < |offs| ==> offs[m] < |objects| && objects[offs[m]] == xs[|xs| - 1 - m]
  }

  /** Creates copies of strings or tables, last to first. */
  method CopyReversed(s: Schema, f: FieldDef, x: Value, fbb: Builder) returns (offs: seq<nat>)
    requires Supported(s) && ValidField(s, f) && f.repeating && FieldOk(s, f, x)
    requires f.elem.String? || f.elem.Sequence?
    modifies fbb
    ensures old(fbb.objects) <= fbb.objects && Refers(fbb.objects, offs, x.elems)
    decreases Weight(x), 0
  {
    offs := [];
    var i := |x.elems|;
    while i > 0
      invariant 0 <= i <= |x.elems| && old(fbb.objects) <= fbb.objects
      invariant Refers(fbb.objects, offs, x.elems[i..])
    {
      i := i - 1;
      var v := x.elems[i];
      assert ElemOk(s, f, v);
      ghost var before := fbb.objects;
      var off;
      if v.VString? {
        off := fbb.CreateString(v.s);
      } else {
        WeightOfElem(x, i, |x.elems|);
        off := MergeFlatBuffers(s, f.ref.value, Some(v.fields), None, fbb);
        CopyTable(s, f.ref.value, v.fields);
      }
      assert before <= fbb.objects && fbb.objects[off] == v;
      assert x.elems[i..] == [v] + x.elems[i + 1..];
      offs := offs + [off];
    }
    assert x.elems[0..] == x.elems;
  }

  /** A vector of offsets: the copies first, then the vector that refers to them. */
  method AddVectorOfOffsets(s: Schema, f: FieldDef, x: Option<Value>, y: Option<Value>, fbb: Builder) returns (off: nat)
    requires Supported(s) && ValidField(s, f) && f.repeating && FieldOptionOk(s, f, x) && FieldOptionOk(s, f, y)
    requires f.elem.String? || f.elem.Sequence?
    modifies fbb
    ensures old(fbb.objects) <= fbb.objects && off < |fbb.objects|
    ensures fbb.objects[off] == VVector(Elems(x) + Elems(y))
    decreases WeightOf(x) + WeightOf(y), 1
  {
    hide Supported;
    ghost var before := fbb.objects;
    var offs := [];
    if y.Some? {
      offs := CopyReversed(s, f, y.value, fbb);
    }
    if x.Some? {
      ghost var objects := fbb.objects;
      var more := CopyReversed(s, f, x.value, fbb);
      RefersConcat(objects, fbb.objects, offs, more, Elems(x), Elems(y));
      offs := offs + more;
    } else {
      assert [] + Elems(y) == Elems(y);
    }
    off := VectorOfOffsets(offs, Elems(x) + Elems(y), fbb);
  }

  lemma RefersConcat(objects: seq<Value>, objects': seq<Value>, offs: seq<nat>, more: seq<nat>, xs: seq<Value>,
      ys: seq<Value>)
    requires objects <= objects' && Refers(objects, offs, ys) && Refers(objects', more, xs)
    ensures Refers(objects', offs + more, xs + ys)
  {
    var all := offs + more;
    forall m | 0 <= m < |all|
      ensures all[m] < |objects'| && objects'[all[m]] == (xs + ys)[|xs| + |ys| - 1 - m]
    {
      if m < |offs| {
        assert objects'[all[m]] == objects[offs[m]];
      } else {
        assert all[m] == more[m - |offs|];
      }
    }
  }

  /** The vector of the objects at the offsets, packed in the order of the offsets. */
  method VectorOfOffsets(offs: seq<nat>, ghost all: seq<Value>, fbb: Builder) returns (off: nat)
    requires Refers(fbb.objects, offs, all)
    modifies fbb
    ensures fbb.objects == old(fbb.objects) + [VVector(all)] && off == |old(fbb.objects)|
  {
    fbb.StartVector();
    for m := 0 to |offs|
      invariant fbb.pending == all[|all| - m..] && fbb.objects == old(fbb.objects)
    {
      fbb.PushElement(fbb.objects[offs[m]]);
      assert all[|all| - 1 - m..] == [all[|all| - 1 - m]] + all[|all| - m..];
    }
    assert all[0..] == all;
    off := fbb.EndVector();
  }

  /** Fields that the table refers to by offset. */
  predicate ByOffset(f: FieldDef) {
    !f.elem.UType? && (f.repeating || f.elem.String? || f.elem.Sequence?)
  }

  datatype FieldOffset = FieldOffset(field: nat, off: nat)

  /** What the first pass does for one field that has a value. */
  method AddOffsetField(s: Schema, f: FieldDef, x: Option<Value>, y: Option<Value>, fbb: Builder) returns (off: nat)
    requires Supported(s) && ValidField(s, f) && FieldOptionOk(s, f, x) && FieldOptionOk(s, f, y)
    requires ByOffset(f) && (x.Some? || y.Some?)
    modifies fbb
    ensures old(fbb.objects) <= fbb.objects && off < |fbb.objects|
    ensures Some(fbb.objects[off]) == MergeField(s, f, x, y)
    decreases WeightOf(x) + WeightOf(y), 2
  {
    if f.repeating {
      assert MergeField(s, f, x, y) == Some(VVector(Elems(x) + Elems(y))) by {
        if x.Some? {
          CopyVector(s, f, x.value, 0);
          assert x.value.elems[0..] == x.value.elems;
        }
        if y.Some? {
          CopyVector(s, f, y.value, 0);
          assert y.value.elems[0..] == y.value.elems;
        }
      }
      if f.elem.String? || f.elem.Sequence? {
        off := AddVectorOfOffsets(s, f, x, y, fbb);
      } else {
        off := AddVector(Elems(x), Elems(y), fbb);
      }
    } else if f.elem.String? {
      var v := if y.Some? then y.value else x.value;
      assert ElemOk(s, f, v);
      off := fbb.CreateString(v.s);
    } else {
      assert x.Some? ==> ElemOk(s, f, x.value);
      assert y.Some? ==> ElemOk(s, f, y.value);
      off := MergeFlatBuffers(s, f.ref.value, TableOf(x), TableOf(y), fbb);
    }
  }

  /** The list of the first pass: exactly the fields below `k` that are referred to by offset and have a value. */
  predicate Listed(fs: seq<FieldDef>, t: Table, objects: seq<Value>, list: seq<FieldOffset>, k: nat)
    requires k <= |fs| == |t|
  {
    && (forall m :: 0 <= m < |list| ==>
          && list[m].field < k && ByOffset(fs[list[m].field]) && list[m].off < |objects|
          && t[list[m].field] == Some(objects[list[m].off]))
    && (forall i :: 0 <= i < k && ByOffset(fs[i]) && t[i].Some? ==> i in FieldsIn(list))
  }

  function FieldsIn(list: seq<FieldOffset>): set<nat> {
    set m | 0 <= m < |list| :: list[m].field
  }

  lemma ListedMore(fs: seq<FieldDef>, t: Table, objects: seq<Value>, objects': seq<Value>,
      list: seq<FieldOffset>, k: nat, off: nat)
    requires k < |fs| == |t| && Listed(fs, t, objects, list, k) && objects <= objects'
    requires ByOffset(fs[k]) && off < |objects'| && t[k] == Some(objects'[off])
    ensures Listed(fs, t, objects', list + [FieldOffset(k, off)], k + 1)
  {
    var list' := list + [FieldOffset(k, off)];
    assert list'[|list|].field == k;
    forall i | i in FieldsIn(list)
      ensures i in FieldsIn(list')
    {
      var m :| 0 <= m < |list| && list[m].field == i;
      assert list'[m].field == i;
    }
  }

  lemma NoneListed(fs: seq<FieldDef>, t: Table, objects: seq<Value>)
    requires |fs| == |t|
    ensures Listed(fs, t, objects, [], 0)
  {
  }

  lemma ListedSame(fs: seq<FieldDef>, t: Table, objects: seq<Value>, list: seq<FieldOffset>, k: nat)
    requires k < |fs| == |t| && Listed(fs, t, objects, list, k) && !(ByOffset(fs[k]) && t[k].Some?)
    ensures Listed(fs, t, objects, list, k + 1)
  {
  }

  method MergeFlatBuffers(s: Schema, ty: nat, a: Option<Table>, b: Option<Table>, fbb: Builder) returns (off: nat)
    requires Supported(s) && IsTable(s, ty) && OptionOk(s, ty, a) && OptionOk(s, ty, b)
    modifies fbb
    ensures old(fbb.objects) <= fbb.objects && off < |fbb.objects|
    ensures fbb.objects[off] == VTable(MergeTables(s, ty, a, b)) && Merges(s, ty, a, b, fbb.objects[off].fields)
    decreases TableWeight(a) + TableWeight(b), 0
  {
    var fs := FieldsOf(s, ty);
    hide Listed, MergeField, Merges;
    ghost var t := MergeTables(s, ty, a, b);
    assert forall i :: 0 <= i < |fs| ==> t[i] == Join(s, fs[i], Get(a, i), Get(b, i));
    NoneListed(fs, t, fbb.objects);
    var list: seq<FieldOffset> := [];
    for k := 0 to |fs|
      invariant old(fbb.objects) <= fbb.objects && Listed(fs, t, fbb.objects, list, k)
    {
      var x, y := Get(a, k), Get(b, k);
      if ByOffset(fs[k]) && (x.Some? || y.Some?) {
        ghost var before := fbb.objects;
        var o := AddOffsetField(s, fs[k], x, y, fbb);
        ListedMore(fs, t, before, fbb.objects, list, k, o);
        list := list + [FieldOffset(k, o)];
      } else {
        ListedSame(fs, t, fbb.objects, list, k);
      }
    }
    FillTable(s, ty, a, b, list, fbb);
    off := fbb.EndTable(|fs|);
    MergedEverywhere(s, ty, a, b);
  }

  /** The table under construction holds exactly the values below `k` that are not referred to by offset. */
  predicate Scalars(fs: seq<FieldDef>, t: Table, table: map<nat, Value>, k: nat)
    requires k <= |fs| == |t|
  {
    && (forall i :: i in table ==> i < k && t[i] == Some(table[i]))
    && (forall i :: 0 <= i < k && !ByOffset(fs[i]) && t[i].Some? ==> i in table)
  }

  /** The second pass, scalars first. */
  method AddScalars(s: Schema, ty: nat, a: Option<Table>, b: Option<Table>, fbb: Builder)
    requires Supported(s) && IsTable(s, ty) && OptionOk(s, ty, a) && OptionOk(s, ty, b)
    modifies fbb`table
    ensures Scalars(FieldsOf(s, ty), MergeTables(s, ty, a, b), fbb.table, |FieldsOf(s, ty)|)
  {
    var fs := FieldsOf(s, ty);
    ghost var t := MergeTables(s, ty, a, b);
    fbb.StartTable();
    for k := 0 to |fs|
      invariant Scalars(fs, t, fbb.table, k)
    {
      MergedScalar(s, ty, a, b, k);
      var x, y := Get(a, k), Get(b, k);
      if !ByOffset(fs[k]) {
        if y.Some? {
          fbb.AddElement(k, y.value);
        } else if x.Some? {
          fbb.AddElement(k, x.value);
        }
      }
    }
  }

  lemma MergedScalar(s: Schema, ty: nat, a: Option<Table>, b: Option<Table>, k: nat)
    requires Supported(s) && IsTable(s, ty) && OptionOk(s, ty, a) && OptionOk(s, ty, b) && k < |FieldsOf(s, ty)|
    ensures !ByOffset(FieldsOf(s, ty)[k]) ==>
      MergeTables(s, ty, a, b)[k] == if Get(b, k).Some? then Get(b, k) else Get(a, k)
  {
    var f, x, y := FieldsOf(s, ty)[k], Get(a, k), Get(b, k);
    assert !f.elem.UType?;
    assert MergeTables(s, ty, a, b)[k] == Join(s, f, x, y);
    assert !ByOffset(f) && (x.Some? || y.Some?) ==> MergeField(s, f, x, y) == if y.Some? then y else x;
  }

  /** Then the offsets. */
  method FillTable(s: Schema, ty: nat, a: Option<Table>, b: Option<Table>, list: seq<FieldOffset>, fbb: Builder)
    requires Supported(s) && IsTable(s, ty) && OptionOk(s, ty, a) && OptionOk(s, ty, b)
    requires Listed(FieldsOf(s, ty), MergeTables(s, ty, a, b), fbb.objects, list, |FieldsOf(s, ty)|)
    modifies fbb`table
    ensures Filled(fbb.table, |FieldsOf(s, ty)|) == MergeTables(s, ty, a, b)
  {
    hide MergeTables, OptionOk;
    AddScalars(s, ty, a, b, fbb);
    ghost var t := MergeTables(s, ty, a, b);
    for m := 0 to |list|
      invariant Scalars(FieldsOf(s, ty), t, fbb.table, |t|)
      invariant forall n :: 0 <= n < m ==> list[n].field in fbb.table
    {
      fbb.AddElement(list[m].field, fbb.objects[list[m].off]);
    }
    forall i | 0 <= i < |t|
      ensures Filled(fbb.table, |t|)[i] == t[i]
    {
      if ByOffset(FieldsOf(s, ty)[i]) && t[i].Some? {
        var n :| 0 <= n < |list| && list[n].field == i;
      }
    }
  }
}
