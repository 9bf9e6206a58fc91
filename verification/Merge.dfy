/** `MergeFlatBuffers`: the merge of two tables, field by field, and its algebra. */
module Merge {
  import opened Common
  import opened Flat

  // ------------------------------------------------------------------------- weights

  /** The number of values in a tree: what the recursion uses up. */
  function Weight(v: Value): nat
    decreases v, 1, 0
  {
    match v
    case VTable(t) => 1 + WeightTo(v, |t|)
    case VVector(xs) => 1 + WeightTo(v, |xs|)
    case _ => 1
  }

  function WeightTo(v: Value, k: nat): nat
    requires (v.VTable? && k <= |v.fields|) || (v.VVector? && k <= |v.elems|)
    decreases v, 0, k
  {
    if k == 0 then 0
    else if v.VTable? then
      WeightTo(v, k - 1) + (match v.fields[k - 1] case None => 0 case Some(x) => Weight(x))
    else WeightTo(v, k - 1) + Weight(v.elems[k - 1])
  }

  lemma {:induction false} WeightOfField(v: Value, i: nat, k: nat)
    requires v.VTable? && i < k <= |v.fields| && v.fields[i].Some?
    ensures Weight(v.fields[i].value) <= WeightTo(v, k)
    decreases k
  {
    if i < k - 1 {
      WeightOfField(v, i, k - 1);
    }
  }

  lemma {:induction false} WeightOfElem(v: Value, i: nat, k: nat)
    requires v.VVector? && i < k <= |v.elems|
    ensures Weight(v.elems[i]) <= WeightTo(v, k)
    decreases k
  {
    if i < k - 1 {
      WeightOfElem(v, i, k - 1);
    }
  }

  function WeightOf(x: Option<Value>): nat {
    match x
    case None => 0
    case Some(v) => Weight(v)
  }

  function TableWeight(t: Option<Table>): nat {
    match t
    case None => 0
    case Some(u) => Weight(VTable(u))
  }

  // --------------------------------------------------------------------------- merge

  /** Unions are not supported: their type fields are skipped. */
  predicate Supported(s: Schema) {
    ValidSchema(s) && forall ty, i :: 0 <= ty < |s| && s[ty].TableType? && 0 <= i < |s[ty].fields| ==>
      !s[ty].fields[i].elem.UType?
  }

  predicate OptionOk(s: Schema, ty: nat, t: Option<Table>)
    requires IsTable(s, ty)
  {
    t.Some? ==> TableOk(s, ty, t.value)
  }

  function Get(t: Option<Table>, i: nat): (x: Option<Value>)
    requires t.Some? ==> i < |t.value|
    ensures x.Some? ==> t.Some? && WeightOf(x) < TableWeight(t)
  {
    if t.None? || t.value[i].None? then None
    else
      WeightOfField(VTable(t.value), i, |t.value|);
      t.value[i]
  }

  /** Merges `b` into `a`; a missing table stands for the null pointer. */
  function MergeTables(s: Schema, ty: nat, a: Option<Table>, b: Option<Table>): (t: Table)
    requires ValidSchema(s) && IsTable(s, ty) && OptionOk(s, ty, a) && OptionOk(s, ty, b)
    ensures TableOk(s, ty, t)
    decreases TableWeight(a) + TableWeight(b), 0
  {
    var fs := FieldsOf(s, ty);
    if a.None? && b.None? then EmptyTable(|fs|)
    else seq(|fs|, i requires 0 <= i < |fs| => Join(s, fs[i], Get(a, i), Get(b, i)))
  }

  function Join(s: Schema, f: FieldDef, x: Option<Value>, y: Option<Value>): (r: Option<Value>)
    requires ValidSchema(s) && ValidField(s, f) && FieldOptionOk(s, f, x) && FieldOptionOk(s, f, y)
    ensures FieldOptionOk(s, f, r)
    decreases WeightOf(x) + WeightOf(y), 2
  {
    if x.None? && y.None? then None else MergeField(s, f, x, y)
  }

  predicate FieldOptionOk(s: Schema, f: FieldDef, x: Option<Value>) {
    x.Some? ==> FieldOk(s, f, x.value)
  }

  /** One field of which at least one side has a value. */
  function MergeField(s: Schema, f: FieldDef, x: Option<Value>, y: Option<Value>): (r: Option<Value>)
    requires ValidSchema(s) && ValidField(s, f) && FieldOptionOk(s, f, x) && FieldOptionOk(s, f, y)
    requires x.Some? || y.Some?
    ensures FieldOptionOk(s, f, r)
    decreases WeightOf(x) + WeightOf(y), 1
  {
    if f.elem.UType? then None
    else if f.repeating then Some(VVector(CopyElems(s, f, x, 0) + CopyElems(s, f, y, 0)))
    else if f.elem.Sequence? then
      assert x.Some? ==> ElemOk(s, f, x.value);
      assert y.Some? ==> ElemOk(s, f, y.value);
      Some(VTable(MergeTables(s, f.ref.value, TableOf(x), TableOf(y))))
    else if y.Some? then y
    else x
  }

  function TableOf(x: Option<Value>): (t: Option<Table>)
    requires x.Some? ==> x.value.VTable?
    ensures TableWeight(t) == WeightOf(x)
  {
    match x
    case None => None
    case Some(v) => Some(v.fields)
  }

  /** Copies of the elements of a vector, from the `k`-th on. */
  function CopyElems(s: Schema, f: FieldDef, x: Option<Value>, k: nat): (r: seq<Value>)
    requires ValidSchema(s) && ValidField(s, f) && f.repeating && FieldOptionOk(s, f, x)
    requires x.Some? ==> k <= |x.value.elems|
    ensures forall i :: 0 <= i < |r| ==> ElemOk(s, f, r[i])
    decreases WeightOf(x), 0, if x.None? then 0 else |x.value.elems| - k
  {
    if x.None? || k == |x.value.elems| then []
    else
      var v := x.value.elems[k];
      assert ElemOk(s, f, v);
      WeightOfElem(x.value, k, |x.value.elems|);
      [if v.VTable? then VTable(MergeTables(s, f.ref.value, Some(v.fields), None)) else v] + CopyElems(s, f, x, k + 1)
  }

  // -------------------------------------------------------------------------- algebra

  /** Merging a value with nothing, from either side, copies it exactly. */
  lemma {:induction false} CopyField(s: Schema, f: FieldDef, v: Value)
    requires Supported(s) && ValidField(s, f) && !f.elem.UType? && FieldOk(s, f, v)
    ensures MergeField(s, f, Some(v), None) == Some(v) == MergeField(s, f, None, Some(v))
    decreases Weight(v), 1
  {
    if f.repeating {
      CopyVector(s, f, v, 0);
      assert v.elems[0..] == v.elems;
      assert v.elems + [] == v.elems && [] + v.elems == v.elems;
    } else if f.elem.Sequence? {
      assert ElemOk(s, f, v);
      CopyTable(s, f.ref.value, v.fields);
    }
  }

  lemma {:induction false} CopyVector(s: Schema, f: FieldDef, v: Value, k: nat)
    requires Supported(s) && ValidField(s, f) && !f.elem.UType? && f.repeating && FieldOk(s, f, v) && k <= |v.elems|
    ensures CopyElems(s, f, Some(v), k) == v.elems[k..]
    decreases Weight(v), 0, |v.elems| - k
  {
    if k < |v.elems| {
      var x := v.elems[k];
      assert ElemOk(s, f, x);
      WeightOfElem(v, k, |v.elems|);
      if x.VTable? {
        CopyTable(s, f.ref.value, x.fields);
      }
      CopyVector(s, f, v, k + 1);
      assert v.elems[k..] == [x] + v.elems[k + 1..];
    }
  }

  /** Merging with the null table copies the whole tree, with its vectors in order. */
  lemma {:induction false} CopyTable(s: Schema, ty: nat, t: Table)
    requires Supported(s) && IsTable(s, ty) && TableOk(s, ty, t)
    ensures MergeTables(s, ty, Some(t), None) == t == MergeTables(s, ty, None, Some(t))
    decreases Weight(VTable(t)), 0
  {
    forall i | 0 <= i < |t|
      ensures MergeTables(s, ty, Some(t), None)[i] == t[i] == MergeTables(s, ty, None, Some(t))[i]
    {
      if t[i].Some? {
        WeightOfField(VTable(t), i, |t|);
        CopyField(s, FieldsOf(s, ty)[i], t[i].value);
      }
    }
  }

  /** The empty table is neutral on both sides, like the null table. */
  lemma EmptyIsNeutral(s: Schema, ty: nat, t: Table)
    requires Supported(s) && IsTable(s, ty) && TableOk(s, ty, t)
    ensures TableOk(s, ty, EmptyTable(|t|))
    ensures MergeTables(s, ty, Some(t), Some(EmptyTable(|t|))) == t
    ensures MergeTables(s, ty, Some(EmptyTable(|t|)), Some(t)) == t
  {
    var e := EmptyTable(|t|);
    CopyTable(s, ty, t);
    assert MergeTables(s, ty, Some(t), Some(e)) == MergeTables(s, ty, Some(t), None);
    assert MergeTables(s, ty, Some(e), Some(t)) == MergeTables(s, ty, None, Some(t));
  }

  lemma {:induction false} JoinAssociative(s: Schema, f: FieldDef, x: Option<Value>, y: Option<Value>, z: Option<Value>)
    requires Supported(s) && ValidField(s, f) && !f.elem.UType?
    requires FieldOptionOk(s, f, x) && FieldOptionOk(s, f, y) && FieldOptionOk(s, f, z)
    ensures Join(s, f, Join(s, f, x, y), z) == Join(s, f, x, Join(s, f, y, z))
    decreases WeightOf(x), 1
  {
    if x.Some? {
      CopyField(s, f, x.value);
    }
    if y.Some? {
      CopyField(s, f, y.value);
    }
    if z.Some? {
      CopyField(s, f, z.value);
    }
    if x.Some? && y.Some? && z.Some? {
      if f.repeating {
        VectorsAssociative(s, f, x.value, y.value, z.value);
      } else if f.elem.Sequence? {
        assert ElemOk(s, f, x.value) && ElemOk(s, f, y.value) && ElemOk(s, f, z.value);
        MergeAssociative(s, f.ref.value, Some(x.value.fields), Some(y.value.fields), Some(z.value.fields));
      }
    } else {
      JoinWithNothing(s, f, x, y, z);
    }
  }

  lemma JoinWithNothing(s: Schema, f: FieldDef, x: Option<Value>, y: Option<Value>, z: Option<Value>)
    requires Supported(s) && ValidField(s, f) && !f.elem.UType?
    requires FieldOptionOk(s, f, x) && FieldOptionOk(s, f, y) && FieldOptionOk(s, f, z)
    requires x.None? || y.None? || z.None?
    ensures Join(s, f, Join(s, f, x, y), z) == Join(s, f, x, Join(s, f, y, z))
  {
    JoinNeutral(s, f, x);
    JoinNeutral(s, f, y);
    JoinNeutral(s, f, z);
    JoinNeutral(s, f, Join(s, f, x, y));
    JoinNeutral(s, f, Join(s, f, y, z));
  }

  lemma JoinNeutral(s: Schema, f: FieldDef, x: Option<Value>)
    requires Supported(s) && ValidField(s, f) && !f.elem.UType? && FieldOptionOk(s, f, x)
    ensures Join(s, f, x, None) == x == Join(s, f, None, x)
  {
    if x.Some? {
      CopyField(s, f, x.value);
    }
  }

  lemma JoinVectors(s: Schema, f: FieldDef, x: Value, y: Value)
    requires Supported(s) && ValidField(s, f) && !f.elem.UType? && f.repeating && FieldOk(s, f, x) && FieldOk(s, f, y)
    ensures Join(s, f, Some(x), Some(y)) == Some(VVector(x.elems + y.elems))
  {
    CopyVector(s, f, x, 0);
    CopyVector(s, f, y, 0);
    assert x.elems[0..] == x.elems && y.elems[0..] == y.elems;
  }

  lemma VectorsAssociative(s: Schema, f: FieldDef, x: Value, y: Value, z: Value)
    requires Supported(s) && ValidField(s, f) && !f.elem.UType? && f.repeating
    requires FieldOk(s, f, x) && FieldOk(s, f, y) && FieldOk(s, f, z)
    ensures Join(s, f, Join(s, f, Some(x), Some(y)), Some(z)) == Join(s, f, Some(x), Join(s, f, Some(y), Some(z)))
  {
    JoinVectors(s, f, x, y);
    JoinVectors(s, f, y, z);
    JoinVectors(s, f, VVector(x.elems + y.elems), z);
    JoinVectors(s, f, x, VVector(y.elems + z.elems));
    ConcatAssoc(x.elems, y.elems, z.elems);
  }

  /** Merging is associative, with null tables allowed anywhere. */
  lemma {:induction false} MergeAssociative(s: Schema, ty: nat, a: Option<Table>, b: Option<Table>, c: Option<Table>)
    requires Supported(s) && IsTable(s, ty) && OptionOk(s, ty, a) && OptionOk(s, ty, b) && OptionOk(s, ty, c)
    ensures MergeTables(s, ty, Some(MergeTables(s, ty, a, b)), c) ==
      MergeTables(s, ty, a, Some(MergeTables(s, ty, b, c)))
    decreases TableWeight(a), 0
  {
    var fs := FieldsOf(s, ty);
    var ab, bc := MergeTables(s, ty, a, b), MergeTables(s, ty, b, c);
    forall i | 0 <= i < |fs|
      ensures MergeTables(s, ty, Some(ab), c)[i] == MergeTables(s, ty, a, Some(bc))[i]
    {
      if Get(a, i).None? {
        JoinWithNothing(s, fs[i], None, Get(b, i), Get(c, i));
      } else {
        JoinAssociative(s, fs[i], Get(a, i), Get(b, i), Get(c, i));
      }
      assert Get(Some(ab), i) == Join(s, fs[i], Get(a, i), Get(b, i));
      assert Get(Some(bc), i) == Join(s, fs[i], Get(b, i), Get(c, i));
    }
  }
}
