/**
 `ExtentsTable`: the span of memory a table occupies, and why copying that span copies the
 table.
 */
module Extents {
  import opened Common
  import opened Flat
  import opened Buffer

  /** A range of memory, from `lo` up to `hi`, and the alignment it needs. */
  datatype Bounds = Bounds(lo: int, hi: int, align: nat)

  function Min(x: int, y: int): int { if x < y then x else y }

  function Max(x: int, y: int): int { if x < y then y else x }

  /** Grows the range to contain another. */
  function Extend(b: Bounds, lo: int, hi: int, align: nat): Bounds {
    Bounds(Min(b.lo, lo), Max(b.hi, hi), Max(b.align, align))
  }

  predicate Within(b: Bounds, c: Bounds) {
    c.lo <= b.lo && b.hi <= c.hi && b.align <= c.align
  }

  /** Inside the memory, or not further behind its end than aligning takes. */
  predicate Fits(b: Bounds, m: Memory) {
    (b.align == 4 || b.align == 8) && 0 <= b.lo <= b.hi <= AlignUp(|m|, b.align)
  }

  function AlignDown(x: nat, a: nat): nat
    requires a > 0
  {
    x - x % a
  }

  function AlignUp(x: nat, a: nat): nat
    requires a > 0
  {
    if x % a == 0 then x else x - x % a + a
  }

  function Aligned(b: Bounds): Bounds
    requires 0 <= b.lo && 0 <= b.hi && b.align > 0
  {
    Bounds(AlignDown(b.lo, b.align), AlignUp(b.hi, b.align), b.align)
  }

  lemma AlignedFits(b: Bounds, m: Memory)
    requires Fits(b, m)
    ensures Within(b, Aligned(b)) && Fits(Aligned(b), m)
    ensures Aligned(b).lo % b.align == 0 && Aligned(b).hi % b.align == 0
  {
    var k := UpIsMultiple(|m|, b.align);
    AlignsToMultiple(b.lo, b.align, k);
    AlignsToMultiple(b.hi, b.align, k);
  }

  lemma UpIsMultiple(x: nat, a: nat) returns (k: nat)
    requires a > 0
    ensures AlignUp(x, a) == a * k && x <= a * k
  {
    var q := x / a;
    assert x == a * q + x % a;
    if x % a == 0 {
      k := q;
    } else {
      k := q + 1;
      assert a * k == a * q + a;
    }
  }

  /** A larger alignment takes no less. */
  lemma UpGrows(x: nat, a: nat, b: nat)
    requires (a == 4 || a == 8) && (b == 4 || b == 8) && a <= b
    ensures x <= AlignUp(x, a) <= AlignUp(x, b)
  {
    var k := UpIsMultiple(x, b);
    var n := if a == b then k else 2 * k;
    assert a * n == b * k;
    AlignsToMultiple(x, a, n);
  }

  /** A memory that is a multiple of the alignment contains the range. */
  lemma FitsInside(b: Bounds, m: Memory)
    requires Fits(b, m) && |m| % b.align == 0
    ensures b.hi <= |m|
  {
  }

  lemma ExtendFits(b: Bounds, lo: int, hi: int, align: nat, m: Memory)
    requires Fits(b, m) && 0 <= lo <= hi && align in {1, 2, 4, 8}
    requires hi <= |m| || ((align == 4 || align == 8) && hi <= AlignUp(|m|, align))
    ensures Fits(Extend(b, lo, hi, align), m) && Within(b, Extend(b, lo, hi, align))
  {
    var a := Max(b.align, align);
    UpGrows(|m|, b.align, a);
    if align == 4 || align == 8 {
      UpGrows(|m|, align, a);
    }
  }

  lemma AlignsToMultiple(x: nat, a: nat, k: nat)
    requires a > 0 && x <= a * k
    ensures AlignDown(x, a) <= x <= AlignUp(x, a) <= a * k
    ensures AlignDown(x, a) % a == 0 && AlignUp(x, a) % a == 0
  {
    var q, r := x / a, x % a;
    assert x == a * q + r;
    assert AlignDown(x, a) == a * q + 0;
    DivisionUnique(a * q, a, q, 0);
    if r > 0 {
      NextMultiple(a, q, r, k);
      assert AlignUp(x, a) == a * (q + 1) + 0;
      DivisionUnique(a * (q + 1), a, q + 1, 0);
    }
  }

  lemma MulMonotone(a: nat, x: int, y: int)
    ensures x <= y ==> a * x <= a * y
  {
  }

  lemma NextMultiple(a: nat, q: nat, r: nat, k: nat)
    requires 0 < r < a && a * q + r <= a * k
    ensures a * (q + 1) == a * q + a <= a * k
  {
    MulMonotone(a, k, q);
    MulMonotone(a, q + 1, k);
  }

  // --------------------------------------------------------------- what the code computes

  function StringBounds(m: Memory, p: nat): Bounds
    requires StringAt(m, p)
  {
    Bounds(p, p + 4 + U32(m, p) + 1, 4)
  }

  /** The table's own bytes: the offset of its vtable, and the vtable. */
  function HeaderBounds(m: Memory, p: nat): (b: Bounds)
    requires VTableAt(m, p)
    ensures Fits(b, m) && b.lo <= p && p + 4 <= b.hi
  {
    var vt := VTableOf(m, p);
    UpGrows(|m|, 4, 4);
    Extend(Bounds(p, p + 4, 4), vt, vt + U16(m, vt), 4)
  }

  function TableBounds(s: Schema, ty: nat, m: Memory, p: nat): (b: Bounds)
    requires ValidSchema(s) && IsTable(s, ty) && TableAt(s, ty, m, p)
    ensures Fits(b, m) && b.lo <= p && p + 4 <= b.hi && b.lo % b.align == 0 && b.hi % b.align == 0
    decreases |m| - p, 4, 0
  {
    AlignedFits(FieldsBounds(s, ty, m, p, |FieldsOf(s, ty)|), m);
    Aligned(FieldsBounds(s, ty, m, p, |FieldsOf(s, ty)|))
  }

  /** The header and the first `k` fields. */
  function FieldsBounds(s: Schema, ty: nat, m: Memory, p: nat, k: nat): (b: Bounds)
    requires ValidSchema(s) && IsTable(s, ty) && TableAt(s, ty, m, p) && k <= |FieldsOf(s, ty)|
    ensures Fits(b, m) && Within(HeaderBounds(m, p), b)
    decreases |m| - p, 3, k
  {
    if k == 0 then HeaderBounds(m, p)
    else
      var b := FieldsBounds(s, ty, m, p, k - 1);
      if Has(m, p, k - 1) then FieldBounds(s, FieldsOf(s, ty)[k - 1], m, p + FieldOffset(m, p, k - 1), p, b) else b
  }

  /**
   A field: its inline bytes, as many as its element type has, even where a vector's
   offset stands there; then what it refers to.
   */
  function FieldBounds(s: Schema, f: FieldDef, m: Memory, q: nat, p: nat, acc: Bounds): (b: Bounds)
    requires ValidSchema(s) && ValidField(s, f) && p <= q && p < |m| && FieldAt(s, f, m, q, p) && Fits(acc, m)
    ensures Fits(b, m) && Within(acc, b)
    decreases |m| - p, 2, 0
  {
    var size := InlineSize(f.elem);
    if f.repeating then
      var v := Target(m, q);
      var c := Extend(acc, q, q + size, size);
      var d := Extend(c, v, Slot(v, U32(m, v), f.elem), 4);
      VectorCoversOffset(m, q, size);
      ExtendFits(acc, q, q + size, size, m);
      ExtendFits(c, v, Slot(v, U32(m, v), f.elem), 4, m);
      ElemsBounds(s, f, m, v, p, U32(m, v), d)
    else
      InlineFits(s, f, m, q, p);
      ExtendFits(acc, q, q + size, size, m);
      RefBounds(s, f, m, q, p, Extend(acc, q, q + size, size))
  }

  lemma InlineFits(s: Schema, f: FieldDef, m: Memory, q: nat, p: nat)
    requires ValidSchema(s) && ValidField(s, f) && p <= q && p < |m| && ElemAt(s, f, m, q, p)
    ensures q + InlineSize(f.elem) <= |m| && InlineSize(f.elem) in {1, 2, 4, 8}
  {
  }

  /** The inline bytes of a vector's field end before the vector does. */
  lemma VectorCoversOffset(m: Memory, q: nat, size: nat)
    requires OffsetAt(m, q) && Target(m, q) + 4 <= |m| && size in {1, 2, 4, 8}
    ensures q + 4 <= Target(m, q) && q + size <= Target(m, q) + 4
  {
  }

  /** What the first `k` elements of the vector at `v` refer to. */
  function ElemsBounds(s: Schema, f: FieldDef, m: Memory, v: nat, p: nat, k: nat, acc: Bounds): (b: Bounds)
    requires ValidSchema(s) && ValidField(s, f) && p <= v && p < |m| && Fits(acc, m)
    requires forall j :: 0 <= j < k ==> ElemAt(s, f, m, Slot(v, j, f.elem), p)
    ensures Fits(b, m) && Within(acc, b)
    decreases |m| - p, 1, k
  {
    if k == 0 then acc
    else RefBounds(s, f, m, Slot(v, k - 1, f.elem), p, ElemsBounds(s, f, m, v, p, k - 1, acc))
  }

  /** What an element at `q` refers to. */
  function RefBounds(s: Schema, f: FieldDef, m: Memory, q: nat, p: nat, acc: Bounds): (b: Bounds)
    requires ValidSchema(s) && ValidField(s, f) && p <= q && p < |m| && ElemAt(s, f, m, q, p) && Fits(acc, m)
    ensures Fits(b, m) && Within(acc, b)
    decreases |m| - p, 0, 0
  {
    if f.elem.String? then
      var t := StringBounds(m, Target(m, q));
      ExtendFits(acc, t.lo, t.hi, t.align, m);
      Extend(acc, t.lo, t.hi, t.align)
    else if f.elem.Sequence? then
      var t := TableBounds(s, f.ref.value, m, Target(m, q));
      ExtendFits(acc, t.lo, t.hi, t.align, m);
      Extend(acc, t.lo, t.hi, t.align)
    else acc
  }

  // ------------------------------------------------------- the span determines the table

  predicate SameByte(m: Memory, m': Memory, d: int, q: int) {
    0 <= q < |m| && 0 <= q - d < |m'| && m'[q - d] == m[q]
  }

  /** `m'` holds, moved down by `d`, what `m` holds between the bounds. */
  predicate Agree(m: Memory, m': Memory, d: int, b: Bounds) {
    forall q :: b.lo <= q < b.hi ==> SameByte(m, m', d, q)
  }

  lemma AgreeU16(m: Memory, m': Memory, d: int, b: Bounds, p: nat)
    requires Agree(m, m', d, b) && b.lo <= p && p + 2 <= b.hi
    ensures p + 2 <= |m| && 0 <= p - d && p - d + 2 <= |m'| && U16(m', p - d) == U16(m, p)
  {
    assert SameByte(m, m', d, p) && SameByte(m, m', d, p + 1);
  }

  lemma AgreeU32(m: Memory, m': Memory, d: int, b: Bounds, p: nat)
    requires Agree(m, m', d, b) && b.lo <= p && p + 4 <= b.hi
    ensures p + 4 <= |m| && 0 <= p - d && p - d + 4 <= |m'| && U32(m', p - d) == U32(m, p)
  {
    AgreeU16(m, m', d, b, p);
    AgreeU16(m, m', d, b, p + 2);
  }

  lemma AgreeSlice(m: Memory, m': Memory, d: int, b: Bounds, p: nat, n: nat)
    requires Agree(m, m', d, b) && b.lo <= p && p + n <= b.hi && n > 0
    ensures p + n <= |m| && 0 <= p - d && p - d + n <= |m'| && m'[p - d..p - d + n] == m[p..p + n]
  {
    assert SameByte(m, m', d, p) && SameByte(m, m', d, p + n - 1);
    var x, y := m'[p - d..p - d + n], m[p..p + n];
    forall i | 0 <= i < n
      ensures x[i] == y[i]
    {
      assert SameByte(m, m', d, p + i);
    }
  }

  lemma StringMoved(m: Memory, m': Memory, d: int, b: Bounds, p: nat)
    requires Agree(m, m', d, b) && StringAt(m, p) && Within(StringBounds(m, p), b)
    ensures 0 <= p - d && StringAt(m', p - d) && DecodeString(m', p - d) == DecodeString(m, p)
  {
    AgreeU32(m, m', d, b, p);
    AgreeSlice(m, m', d, b, p + 4, U32(m, p) + 1);
    var n := U32(m, p);
    assert m[p + 4..p + 4 + n] == m[p + 4..p + 4 + (n + 1)][..n];
    assert m'[p - d + 4..p - d + 4 + n] == m'[p - d + 4..p - d + 4 + (n + 1)][..n];
  }

  lemma HeaderMoved(m: Memory, m': Memory, d: int, b: Bounds, p: nat)
    requires Agree(m, m', d, b) && VTableAt(m, p) && Within(HeaderBounds(m, p), b)
    ensures 0 <= p - d && VTableAt(m', p - d) && VTableOf(m', p - d) == VTableOf(m, p) - d
    ensures forall i: nat :: FieldOffset(m', p - d, i) == FieldOffset(m, p, i)
  {
    hide U32, U16, Agree;
    AgreeU32(m, m', d, b, p);
    var vt := VTableOf(m, p);
    AgreeU16(m, m', d, b, vt);
    AgreeSlice(m, m', d, b, vt, U16(m, vt));
    forall i: nat
      ensures FieldOffset(m', p - d, i) == FieldOffset(m, p, i)
    {
      if 4 + 2 * i < U16(m, vt) {
        AgreeU16(m, m', d, b, vt + 4 + 2 * i);
      }
    }
  }

  lemma OffsetMoved(m: Memory, m': Memory, d: int, b: Bounds, q: nat)
    requires Agree(m, m', d, b) && OffsetAt(m, q) && b.lo <= q && q + 4 <= b.hi
    ensures 0 <= q - d && OffsetAt(m', q - d) && Target(m', q - d) == Target(m, q) - d
  {
    AgreeU32(m, m', d, b, q);
  }

  lemma {:induction false} RefMoved(s: Schema, f: FieldDef, m: Memory, q: nat, p: nat, acc: Bounds, m': Memory,
      d: int, b: Bounds)
    requires ValidSchema(s) && ValidField(s, f) && p <= q && p < |m| && ElemAt(s, f, m, q, p) && Fits(acc, m)
    requires Agree(m, m', d, b) && Within(RefBounds(s, f, m, q, p, acc), b)
    requires b.lo <= p && b.lo <= q && q + InlineSize(f.elem) <= b.hi
    ensures 0 <= p - d < |m'| && 0 <= q - d && ElemAt(s, f, m', q - d, p - d)
    ensures DecodeElem(s, f, m', q - d, p - d) == DecodeElem(s, f, m, q, p)
    decreases |m| - p, 0
  {
    hide U32, ValidSchema, StringAt, DecodeString, DecodeTable, TableAt, AlignUp, TableBounds;
    assert SameByte(m, m', d, p);
    if f.elem.String? {
      OffsetMoved(m, m', d, b, q);
      StringMoved(m, m', d, b, Target(m, q));
    } else if f.elem.Sequence? {
      OffsetMoved(m, m', d, b, q);
      TableMoved(s, f.ref.value, m, Target(m, q), m', d, b);
      assert Target(m', q - d) < |m'| by {
        TableInside(s, f.ref.value, m', Target(m', q - d));
      }
    } else {
      AgreeSlice(m, m', d, b, q, InlineSize(f.elem));
    }
  }

  lemma TableInside(s: Schema, ty: nat, m: Memory, p: nat)
    requires ValidSchema(s) && IsTable(s, ty) && TableAt(s, ty, m, p)
    ensures p < |m|
  {
  }

  lemma {:induction false} ElemsWithin(s: Schema, f: FieldDef, m: Memory, v: nat, p: nat, j: nat, k: nat, acc: Bounds)
    requires ValidSchema(s) && ValidField(s, f) && p <= v && p < |m| && Fits(acc, m) && j <= k
    requires forall j :: 0 <= j < k ==> ElemAt(s, f, m, Slot(v, j, f.elem), p)
    ensures Within(ElemsBounds(s, f, m, v, p, j, acc), ElemsBounds(s, f, m, v, p, k, acc))
    decreases k
  {
    if j < k {
      ElemsWithin(s, f, m, v, p, j, k - 1, acc);
    }
  }

  lemma {:induction false} FieldMoved(s: Schema, f: FieldDef, m: Memory, q: nat, p: nat, acc: Bounds,
      m': Memory, d: int, b: Bounds)
    requires ValidSchema(s) && ValidField(s, f) && p <= q && p < |m| && FieldAt(s, f, m, q, p) && Fits(acc, m)
    requires Agree(m, m', d, b) && Within(FieldBounds(s, f, m, q, p, acc), b) && b.lo <= p
    ensures 0 <= p - d < |m'| && 0 <= q - d && FieldAt(s, f, m', q - d, p - d)
    ensures DecodeField(s, f, m', q - d, p - d) == DecodeField(s, f, m, q, p)
    decreases |m| - p, 3
  {
    var size := InlineSize(f.elem);
    if f.repeating {
      VectorMoved(s, f, m, q, p, acc, m', d, b);
    } else {
      RefMoved(s, f, m, q, p, Extend(acc, q, q + size, size), m', d, b);
    }
  }

  /** The element at `q` is there and reads as `x`. */
  predicate ElemIs(s: Schema, f: FieldDef, m: Memory, q: nat, p: nat, x: Node)
    requires ValidSchema(s) && ValidField(s, f) && p <= q && p < |m|
  {
    ElemAt(s, f, m, q, p) && DecodeElem(s, f, m, q, p) == x
  }

  /** The vector at `v` has `n` elements that read as `x`. */
  predicate VectorIs(s: Schema, f: FieldDef, m: Memory, v: nat, p: nat, x: seq<Node>)
    requires ValidSchema(s) && ValidField(s, f) && p <= v && p < |m|
  {
    forall k :: 0 <= k < |x| ==> ElemIs(s, f, m, Slot(v, k, f.elem), p, x[k])
  }

  lemma VectorRead(s: Schema, f: FieldDef, m: Memory, q: nat, p: nat)
    requires ValidSchema(s) && ValidField(s, f) && f.repeating && p <= q && p < |m| && FieldAt(s, f, m, q, p)
    ensures DecodeField(s, f, m, q, p).Vector? && |DecodeField(s, f, m, q, p).elems| == U32(m, Target(m, q))
    ensures VectorIs(s, f, m, Target(m, q), p, DecodeField(s, f, m, q, p).elems)
  {
    var v, x := Target(m, q), DecodeField(s, f, m, q, p);
    forall k | 0 <= k < |x.elems|
      ensures ElemIs(s, f, m, Slot(v, k, f.elem), p, x.elems[k])
    {
      assert ElemAt(s, f, m, Slot(v, k, f.elem), p);
    }
  }

  lemma {:induction false} VectorMoved(s: Schema, f: FieldDef, m: Memory, q: nat, p: nat, acc: Bounds,
      m': Memory, d: int, b: Bounds)
    requires ValidSchema(s) && ValidField(s, f) && p <= q && p < |m| && FieldAt(s, f, m, q, p) && Fits(acc, m)
    requires Agree(m, m', d, b) && Within(FieldBounds(s, f, m, q, p, acc), b) && b.lo <= p && f.repeating
    ensures 0 <= p - d < |m'| && 0 <= q - d && FieldAt(s, f, m', q - d, p - d)
    ensures DecodeField(s, f, m', q - d, p - d) == DecodeField(s, f, m, q, p)
    decreases |m| - p, 2
  {
    hide U32, Agree, DecodeField, ElemsBounds, ElemAt, VectorIs, FieldBounds;
    var v, c := Target(m, q), InlineBounds(f, m, q, acc);
    VectorSpan(s, f, m, q, p, acc);
    VectorHeaderMoved(f, m, q, m', d, b);
    VectorRead(s, f, m, q, p);
    var x := DecodeField(s, f, m, q, p).elems;
    ElemsMoved(s, f, m, v, p, c, m', d, b, x);
    SameVector(s, f, m', q - d, p - d, x);
  }

  /** The offset of a vector and the vector, without what its elements refer to. */
  function InlineBounds(f: FieldDef, m: Memory, q: nat, acc: Bounds): Bounds
    requires OffsetAt(m, q) && Target(m, q) + 4 <= |m|
  {
    var size, v := InlineSize(f.elem), Target(m, q);
    Extend(Extend(acc, q, q + size, size), v, Slot(v, U32(m, v), f.elem), 4)
  }

  lemma VectorSpan(s: Schema, f: FieldDef, m: Memory, q: nat, p: nat, acc: Bounds)
    requires ValidSchema(s) && ValidField(s, f) && p <= q && p < |m| && FieldAt(s, f, m, q, p) && Fits(acc, m)
    requires f.repeating
    ensures var v, b := Target(m, q), FieldBounds(s, f, m, q, p, acc);
      && Fits(InlineBounds(f, m, q, acc), m)
      && (forall j :: 0 <= j < U32(m, v) ==> ElemAt(s, f, m, Slot(v, j, f.elem), p))
      && b == ElemsBounds(s, f, m, v, p, U32(m, v), InlineBounds(f, m, q, acc))
      && b.lo <= q && b.lo <= v && Slot(v, U32(m, v), f.elem) <= b.hi
  {
    VectorCoversOffset(m, q, InlineSize(f.elem));
  }

  lemma {:induction false} ElemsMoved(s: Schema, f: FieldDef, m: Memory, v: nat, p: nat, c: Bounds, m': Memory,
      d: int, b: Bounds, x: seq<Node>)
    requires ValidSchema(s) && ValidField(s, f) && p <= v && p < |m| && Fits(c, m)
    requires VectorIs(s, f, m, v, p, x)
    requires Agree(m, m', d, b) && Within(ElemsBounds(s, f, m, v, p, |x|, c), b)
    requires b.lo <= p && b.lo <= v && Slot(v, |x|, f.elem) <= b.hi
    ensures 0 <= p - d < |m'| && 0 <= v - d && VectorIs(s, f, m', v - d, p - d, x)
    decreases |m| - p, 1, 1
  {
    assert SameByte(m, m', d, p) && SameByte(m, m', d, v);
    forall k | 0 <= k < |x|
      ensures ElemIs(s, f, m', Slot(v - d, k, f.elem), p - d, x[k])
    {
      ElemMoved(s, f, m, v, p, k, |x|, c, m', d, b);
      assert ElemIs(s, f, m, Slot(v, k, f.elem), p, x[k]);
    }
  }

  lemma VectorHeaderMoved(f: FieldDef, m: Memory, q: nat, m': Memory, d: int, b: Bounds)
    requires OffsetAt(m, q) && Target(m, q) + 4 <= |m| && Agree(m, m', d, b)
    requires b.lo <= q && Slot(Target(m, q), U32(m, Target(m, q)), f.elem) <= b.hi
    ensures var v := Target(m, q);
      && 0 <= q - d && OffsetAt(m', q - d) && Target(m', q - d) == v - d && v - d + 4 <= |m'|
      && U32(m', v - d) == U32(m, v) && Slot(v - d, U32(m, v), f.elem) <= |m'|
  {
    var v := Target(m, q);
    OffsetMoved(m, m', d, b, q);
    AgreeU32(m, m', d, b, v);
    AgreeSlice(m, m', d, b, v, 4 + Stride(U32(m, v), f.elem));
  }

  lemma SameVector(s: Schema, f: FieldDef, m: Memory, q: nat, p: nat, x: seq<Node>)
    requires ValidSchema(s) && ValidField(s, f) && f.repeating && p <= q && p < |m| && OffsetAt(m, q)
    requires var v := Target(m, q); v + 4 <= |m| && |x| == U32(m, v) && Slot(v, |x|, f.elem) <= |m|
    requires VectorIs(s, f, m, Target(m, q), p, x)
    ensures FieldAt(s, f, m, q, p) && DecodeField(s, f, m, q, p) == Vector(x)
  {
    var v := Target(m, q);
    forall k | 0 <= k < |x|
      ensures ElemAt(s, f, m, Slot(v, k, f.elem), p) && DecodeElem(s, f, m, Slot(v, k, f.elem), p) == x[k]
    {
      assert ElemIs(s, f, m, Slot(v, k, f.elem), p, x[k]);
    }
    assert DecodeField(s, f, m, q, p).elems == x;
  }

  lemma {:induction false} ElemMoved(s: Schema, f: FieldDef, m: Memory, v: nat, p: nat, k: nat, n: nat,
      c: Bounds, m': Memory, d: int, b: Bounds)
    requires ValidSchema(s) && ValidField(s, f) && p <= v && p < |m| && Fits(c, m) && k < n
    requires forall j :: 0 <= j < n ==> ElemAt(s, f, m, Slot(v, j, f.elem), p)
    requires Agree(m, m', d, b) && Within(ElemsBounds(s, f, m, v, p, n, c), b)
    requires b.lo <= p && b.lo <= v && Slot(v, n, f.elem) <= b.hi
    ensures 0 <= p - d < |m'| && 0 <= v - d && ElemAt(s, f, m', Slot(v - d, k, f.elem), p - d)
    ensures DecodeElem(s, f, m', Slot(v - d, k, f.elem), p - d) ==
      DecodeElem(s, f, m, Slot(v, k, f.elem), p)
    decreases |m| - p, 1, 0
  {
    hide U32, DecodeElem, ElemAt, RefBounds, ValidSchema;
    var size := InlineSize(f.elem);
    var q := Slot(v, k, f.elem);
    StrideGrows(k, n, f.elem);
    assert SameByte(m, m', d, v);
    ElemsWithin(s, f, m, v, p, k + 1, n, c);
    RefMoved(s, f, m, q, p, ElemsBounds(s, f, m, v, p, k, c), m', d, b);
  }

  lemma {:induction false} FieldsWithin(s: Schema, ty: nat, m: Memory, p: nat, j: nat, k: nat)
    requires ValidSchema(s) && IsTable(s, ty) && TableAt(s, ty, m, p) && j <= k <= |FieldsOf(s, ty)|
    ensures Within(FieldsBounds(s, ty, m, p, j), FieldsBounds(s, ty, m, p, k))
    decreases k
  {
    if j < k {
      FieldsWithin(s, ty, m, p, j, k - 1);
    }
  }

  lemma {:induction false} MemberMoved(s: Schema, ty: nat, m: Memory, p: nat, i: nat, m': Memory, d: int, b: Bounds)
    requires ValidSchema(s) && IsTable(s, ty) && TableAt(s, ty, m, p)
    requires i < |FieldsOf(s, ty)| && Has(m, p, i)
    requires Agree(m, m', d, b) && Within(FieldsBounds(s, ty, m, p, |FieldsOf(s, ty)|), b)
    ensures var q := p + FieldOffset(m, p, i);
      && 0 <= p - d < |m'| && 0 <= q - d && FieldAt(s, FieldsOf(s, ty)[i], m', q - d, p - d)
      && DecodeField(s, FieldsOf(s, ty)[i], m', q - d, p - d) == DecodeField(s, FieldsOf(s, ty)[i], m, q, p)
    decreases |m| - p, 4
  {
    hide Agree, FieldAt, DecodeField, U16, U32, FieldBounds;
    FieldsWithin(s, ty, m, p, i + 1, |FieldsOf(s, ty)|);
    FieldMoved(s, FieldsOf(s, ty)[i], m, p + FieldOffset(m, p, i), p, FieldsBounds(s, ty, m, p, i), m', d, b);
  }

  /** Any memory that agrees on the span of a table holds, at the same distance, the same table. */
  lemma {:induction false} TableMoved(s: Schema, ty: nat, m: Memory, p: nat, m': Memory, d: int, b: Bounds)
    requires ValidSchema(s) && IsTable(s, ty) && TableAt(s, ty, m, p)
    requires Agree(m, m', d, b) && Within(TableBounds(s, ty, m, p), b)
    ensures 0 <= p - d && TableAt(s, ty, m', p - d)
    ensures DecodeTable(s, ty, m', p - d) == DecodeTable(s, ty, m, p)
    decreases |m| - p, 6
  {
    hide Agree, FieldAt, DecodeTable, U16, U32, FieldsBounds, AlignUp, AlignDown;
    var fs := FieldsOf(s, ty);
    var all := FieldsBounds(s, ty, m, p, |fs|);
    AlignedFits(all, m);
    HeaderMoved(m, m', d, b, p);
    var p' := p - d;
    forall i | 0 <= i < |fs| && Has(m', p', i)
      ensures FieldAt(s, fs[i], m', p' + FieldOffset(m', p', i), p')
    {
      MemberMoved(s, ty, m, p, i, m', d, b);
    }
    SameRecord(s, ty, m, p, m', d, b);
  }

  lemma DecodedField(s: Schema, ty: nat, m: Memory, p: nat, i: nat)
    requires ValidSchema(s) && IsTable(s, ty) && TableAt(s, ty, m, p) && i < |FieldsOf(s, ty)|
    ensures DecodeTable(s, ty, m, p).fields[i] ==
      if Has(m, p, i) then Some(DecodeField(s, FieldsOf(s, ty)[i], m, p + FieldOffset(m, p, i), p)) else None
  {
  }

  lemma {:induction false} SameRecord(s: Schema, ty: nat, m: Memory, p: nat, m': Memory, d: int, b: Bounds)
    requires ValidSchema(s) && IsTable(s, ty) && TableAt(s, ty, m, p)
    requires Agree(m, m', d, b) && Within(FieldsBounds(s, ty, m, p, |FieldsOf(s, ty)|), b)
    requires 0 <= p - d && TableAt(s, ty, m', p - d)
    requires forall i: nat :: FieldOffset(m', p - d, i) == FieldOffset(m, p, i)
    ensures DecodeTable(s, ty, m', p - d) == DecodeTable(s, ty, m, p)
    decreases |m| - p, 5
  {
    hide Agree, FieldAt, DecodeField, U16, U32, FieldsBounds;
    var x, y := DecodeTable(s, ty, m', p - d).fields, DecodeTable(s, ty, m, p).fields;
    forall i | 0 <= i < |FieldsOf(s, ty)|
      ensures x[i] == y[i]
    {
      DecodedField(s, ty, m, p, i);
      DecodedField(s, ty, m', p - d, i);
      if Has(m, p, i) {
        MemberMoved(s, ty, m, p, i, m', d, b);
      }
    }
    assert x == y;
  }
}
