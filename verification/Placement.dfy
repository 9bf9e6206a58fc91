/**
 Where values may stand: every scalar, offset and length at a multiple of its size.  The
 multiples are counted from the start of a memory, or, in a builder, from its end.
 */
module Placement {
  import opened Common
  import opened Flat
  import opened Buffer
  import opened Extents

  /** The position is a multiple of the size, counted from `-shift`. */
  predicate PlacedAt(q: int, size: nat, shift: int)
    requires size > 0
  {
    (q + shift) % size == 0
  }

  /** The table at `p`, its vtable, its fields, and all that they refer to. */
  predicate TablePlaced(s: Schema, ty: nat, m: Memory, p: nat, shift: int)
    requires ValidSchema(s) && IsTable(s, ty) && TableAt(s, ty, m, p)
    decreases |m| - p, 2
  {
    && PlacedAt(p, 4, shift) && PlacedAt(VTableOf(m, p), 2, shift)
    && forall i :: 0 <= i < |FieldsOf(s, ty)| && Has(m, p, i) ==>
         FieldPlaced(s, FieldsOf(s, ty)[i], m, p + FieldOffset(m, p, i), p, shift)
  }

  /** A field: a single value, or the offset of a vector, the length of the vector and its elements. */
  predicate FieldPlaced(s: Schema, f: FieldDef, m: Memory, q: nat, p: nat, shift: int)
    requires ValidSchema(s) && ValidField(s, f) && p <= q && p < |m| && FieldAt(s, f, m, q, p)
    decreases |m| - p, 1
  {
    if f.repeating then
      var v := Target(m, q);
      && PlacedAt(q, 4, shift) && PlacedAt(v, 4, shift)
      && forall k :: 0 <= k < U32(m, v) ==> ElemPlaced(s, f, m, Slot(v, k, f.elem), p, shift)
    else ElemPlaced(s, f, m, q, p, shift)
  }

  /** A value, and the string or table it is the offset of. */
  predicate ElemPlaced(s: Schema, f: FieldDef, m: Memory, q: nat, p: nat, shift: int)
    requires ValidSchema(s) && ValidField(s, f) && p <= q && p < |m| && ElemAt(s, f, m, q, p)
    decreases |m| - p, 0
  {
    && PlacedAt(q, InlineSize(f.elem), shift)
    && (f.elem.String? ==> PlacedAt(Target(m, q), 4, shift))
    && (f.elem.Sequence? ==> TablePlaced(s, f.ref.value, m, Target(m, q), shift))
  }

  /** Everything in its place, counted from the start of the memory. */
  predicate WellPlaced(s: Schema, ty: nat, m: Memory, p: nat)
    requires ValidSchema(s) && IsTable(s, ty) && TableAt(s, ty, m, p)
  {
    TablePlaced(s, ty, m, p, 0)
  }

  /** Everything in its place, counted from the end of the buffer. */
  predicate WellPlacedFromEnd(s: Schema, ty: nat, m: Memory, p: nat)
    requires ValidSchema(s) && IsTable(s, ty) && TableAt(s, ty, m, p)
  {
    TablePlaced(s, ty, m, p, -|m|)
  }

  // ----------------------------------------------------------- the alignment suffices

  /** What a field has inline, or its vector has, needs no more than the alignment computed. */
  lemma FieldNeeds(s: Schema, f: FieldDef, m: Memory, q: nat, p: nat, acc: Bounds)
    requires ValidSchema(s) && ValidField(s, f) && p <= q && p < |m| && FieldAt(s, f, m, q, p) && Fits(acc, m)
    ensures InlineSize(f.elem) <= FieldBounds(s, f, m, q, p, acc).align
  {
    hide ElemsBounds, RefBounds, U32, AlignUp;
    if f.repeating {
      VectorSpan(s, f, m, q, p, acc);
    }
  }

  /** The alignment of a table is at least the size of each value it has. */
  lemma AlignmentSuffices(s: Schema, ty: nat, m: Memory, p: nat, i: nat)
    requires ValidSchema(s) && IsTable(s, ty) && TableAt(s, ty, m, p)
    requires i < |FieldsOf(s, ty)| && Has(m, p, i)
    ensures InlineSize(FieldsOf(s, ty)[i].elem) <= TableBounds(s, ty, m, p).align
  {
    hide FieldBounds, U32, U16, AlignUp, AlignDown, FieldAt;
    FieldsWithin(s, ty, m, p, i + 1, |FieldsOf(s, ty)|);
    FieldNeeds(s, FieldsOf(s, ty)[i], m, p + FieldOffset(m, p, i), p, FieldsBounds(s, ty, m, p, i));
  }

  // -------------------------------------------------------------- moving by a multiple

  lemma SumPlaced1(x: int, y: int)
    ensures (x + y) % 1 == 0
  {
  }

  lemma SumPlaced2(x: int, y: int)
    requires x % 2 == 0 && y % 4 == 0
    ensures (x + y) % 2 == 0
  {
  }

  lemma SumPlaced4(x: int, y: int)
    requires x % 4 == 0 && y % 4 == 0
    ensures (x + y) % 4 == 0
  {
  }

  lemma SumPlaced8(x: int, y: int)
    requires x % 8 == 0 && y % 8 == 0
    ensures (x + y) % 8 == 0
  {
  }

  lemma EightIsFour(y: int)
    requires y % 8 == 0
    ensures y % 4 == 0
  {
  }

  /** Multiples of the alignment are multiples of every size up to it. */
  lemma SumPlaced(x: int, y: int, size: nat, align: nat)
    requires size in {1, 2, 4, 8} && (align == 4 || align == 8) && size <= align
    requires x % size == 0 && y % align == 0
    ensures (x + y) % size == 0
  {
    if align == 8 {
      EightIsFour(y);
    }
    if size == 1 {
      SumPlaced1(x, y);
    } else if size == 2 {
      SumPlaced2(x, y);
    } else if size == 4 {
      SumPlaced4(x, y);
    } else {
      SumPlaced8(x, y);
    }
  }

  /** The distance of the move, counted where each memory counts from, is a multiple of the alignment. */
  predicate Aligns(b: Bounds, d: int, shift: int, shift': int) {
    (b.align == 4 || b.align == 8) && (shift' - d - shift) % b.align == 0
  }

  lemma StaysPlaced(q: int, size: nat, b: Bounds, d: int, shift: int, shift': int)
    requires size in {1, 2, 4, 8} && size <= b.align && Aligns(b, d, shift, shift') && PlacedAt(q, size, shift)
    ensures PlacedAt(q - d, size, shift')
  {
    SumPlaced(q + shift, shift' - d - shift, size, b.align);
    assert q - d + shift' == (q + shift) + (shift' - d - shift);
  }

  lemma {:induction false} ElemPlacedMoved(s: Schema, f: FieldDef, m: Memory, q: nat, p: nat, acc: Bounds, m': Memory,
      d: int, b: Bounds, shift: int, shift': int)
    requires ValidSchema(s) && ValidField(s, f) && p <= q && p < |m| && ElemAt(s, f, m, q, p) && Fits(acc, m)
    requires Agree(m, m', d, b) && Within(RefBounds(s, f, m, q, p, acc), b)
    requires b.lo <= p && b.lo <= q && q + InlineSize(f.elem) <= b.hi
    requires Aligns(b, d, shift, shift') && InlineSize(f.elem) <= b.align && ElemPlaced(s, f, m, q, p, shift)
    ensures 0 <= p - d < |m'| && 0 <= q - d && ElemAt(s, f, m', q - d, p - d)
    ensures ElemPlaced(s, f, m', q - d, p - d, shift')
    decreases |m| - p, 0
  {
    hide U32, ValidSchema, StringAt, DecodeString, DecodeTable, TableAt, AlignUp, TableBounds, PlacedAt, Aligns, Agree;
    hide TablePlaced, DecodeElem;
    RefMoved(s, f, m, q, p, acc, m', d, b);
    StaysPlaced(q, InlineSize(f.elem), b, d, shift, shift');
    if f.elem.String? {
      OffsetMoved(m, m', d, b, q);
      StaysPlaced(Target(m, q), 4, b, d, shift, shift');
    } else if f.elem.Sequence? {
      OffsetMoved(m, m', d, b, q);
      TablePlacedMoved(s, f.ref.value, m, Target(m, q), m', d, b, shift, shift');
    }
  }

  /** Where a memory agrees on the span of a table, moved by a multiple of its alignment, all stays in place. */
  lemma {:induction false} TablePlacedMoved(s: Schema, ty: nat, m: Memory, p: nat, m': Memory, d: int, b: Bounds,
      shift: int, shift': int)
    requires ValidSchema(s) && IsTable(s, ty) && TableAt(s, ty, m, p)
    requires Agree(m, m', d, b) && Within(TableBounds(s, ty, m, p), b)
    requires Aligns(b, d, shift, shift') && TablePlaced(s, ty, m, p, shift)
    ensures 0 <= p - d && TableAt(s, ty, m', p - d) && TablePlaced(s, ty, m', p - d, shift')
    decreases |m| - p, 6
  {
    hide Agree, FieldAt, DecodeTable, U16, U32, FieldsBounds, AlignUp, AlignDown, PlacedAt, Aligns, FieldPlaced;
    var fs := FieldsOf(s, ty);
    var all := FieldsBounds(s, ty, m, p, |fs|);
    AlignedFits(all, m);
    HeaderMoved(m, m', d, b, p);
    TableMoved(s, ty, m, p, m', d, b);
    StaysPlaced(p, 4, b, d, shift, shift');
    StaysPlaced(VTableOf(m, p), 2, b, d, shift, shift');
    var p' := p - d;
    forall i | 0 <= i < |fs| && Has(m', p', i)
      ensures FieldPlaced(s, fs[i], m', p' + FieldOffset(m', p', i), p', shift')
    {
      MemberPlacedMoved(s, ty, m, p, i, m', d, b, shift, shift');
    }
  }

  lemma {:induction false} MemberPlacedMoved(s: Schema, ty: nat, m: Memory, p: nat, i: nat, m': Memory, d: int,
      b: Bounds, shift: int, shift': int)
    requires ValidSchema(s) && IsTable(s, ty) && TableAt(s, ty, m, p)
    requires i < |FieldsOf(s, ty)| && Has(m, p, i)
    requires Agree(m, m', d, b) && Within(FieldsBounds(s, ty, m, p, |FieldsOf(s, ty)|), b)
    requires Aligns(b, d, shift, shift') && TablePlaced(s, ty, m, p, shift)
    ensures var q := p + FieldOffset(m, p, i);
      && 0 <= p - d < |m'| && 0 <= q - d && FieldAt(s, FieldsOf(s, ty)[i], m', q - d, p - d)
      && FieldPlaced(s, FieldsOf(s, ty)[i], m', q - d, p - d, shift')
    decreases |m| - p, 5
  {
    hide Agree, FieldAt, U16, U32, FieldBounds, FieldPlaced, Aligns;
    var f, q, acc := FieldsOf(s, ty)[i], p + FieldOffset(m, p, i), FieldsBounds(s, ty, m, p, i);
    FieldsWithin(s, ty, m, p, i + 1, |FieldsOf(s, ty)|);
    FieldNeeds(s, f, m, q, p, acc);
    FieldPlacedMoved(s, f, m, q, p, acc, m', d, b, shift, shift');
  }

  lemma {:induction false} FieldPlacedMoved(s: Schema, f: FieldDef, m: Memory, q: nat, p: nat, acc: Bounds,
      m': Memory, d: int, b: Bounds, shift: int, shift': int)
    requires ValidSchema(s) && ValidField(s, f) && p <= q && p < |m| && FieldAt(s, f, m, q, p) && Fits(acc, m)
    requires Agree(m, m', d, b) && Within(FieldBounds(s, f, m, q, p, acc), b) && b.lo <= p
    requires Aligns(b, d, shift, shift') && InlineSize(f.elem) <= b.align && FieldPlaced(s, f, m, q, p, shift)
    ensures 0 <= p - d < |m'| && 0 <= q - d && FieldAt(s, f, m', q - d, p - d)
    ensures FieldPlaced(s, f, m', q - d, p - d, shift')
    decreases |m| - p, 3
  {
    hide Aligns, PlacedAt, Agree, DecodeField, TableAt, U32, ElemsBounds, RefBounds, AlignUp, ElemPlaced, ElemAt;
    var size := InlineSize(f.elem);
    FieldMoved(s, f, m, q, p, acc, m', d, b);
    if f.repeating {
      VectorPlacedMoved(s, f, m, q, p, acc, m', d, b, shift, shift');
    } else {
      InlineFits(s, f, m, q, p);
      ExtendFits(acc, q, q + size, size, m);
      ElemPlacedMoved(s, f, m, q, p, Extend(acc, q, q + size, size), m', d, b, shift, shift');
    }
  }

  lemma {:induction false} VectorPlacedMoved(s: Schema, f: FieldDef, m: Memory, q: nat, p: nat, acc: Bounds,
      m': Memory, d: int, b: Bounds, shift: int, shift': int)
    requires ValidSchema(s) && ValidField(s, f) && p <= q && p < |m| && FieldAt(s, f, m, q, p) && Fits(acc, m)
    requires Agree(m, m', d, b) && Within(FieldBounds(s, f, m, q, p, acc), b) && b.lo <= p && f.repeating
    requires Aligns(b, d, shift, shift') && InlineSize(f.elem) <= b.align && FieldPlaced(s, f, m, q, p, shift)
    requires 0 <= p - d < |m'| && 0 <= q - d && FieldAt(s, f, m', q - d, p - d)
    ensures FieldPlaced(s, f, m', q - d, p - d, shift')
    decreases |m| - p, 2
  {
    hide U32, Agree, ElemsBounds, ElemAt, FieldBounds, Aligns, PlacedAt, ElemPlaced;
    var v, c := Target(m, q), InlineBounds(f, m, q, acc);
    VectorSpan(s, f, m, q, p, acc);
    VectorHeaderMoved(f, m, q, m', d, b);
    StaysPlaced(q, 4, b, d, shift, shift');
    StaysPlaced(v, 4, b, d, shift, shift');
    var v', p' := v - d, p - d;
    forall k | 0 <= k < U32(m, v)
      ensures ElemPlaced(s, f, m', Slot(v', k, f.elem), p', shift')
    {
      SlotPlacedMoved(s, f, m, v, p, k, U32(m, v), c, m', d, b, shift, shift');
    }
  }

  lemma {:induction false} SlotPlacedMoved(s: Schema, f: FieldDef, m: Memory, v: nat, p: nat, k: nat, n: nat,
      c: Bounds, m': Memory, d: int, b: Bounds, shift: int, shift': int)
    requires ValidSchema(s) && ValidField(s, f) && p <= v && p < |m| && Fits(c, m) && k < n
    requires forall j :: 0 <= j < n ==> ElemAt(s, f, m, Slot(v, j, f.elem), p)
    requires Agree(m, m', d, b) && Within(ElemsBounds(s, f, m, v, p, n, c), b)
    requires b.lo <= p && b.lo <= v && Slot(v, n, f.elem) <= b.hi
    requires Aligns(b, d, shift, shift') && InlineSize(f.elem) <= b.align
    requires ElemPlaced(s, f, m, Slot(v, k, f.elem), p, shift)
    ensures 0 <= p - d < |m'| && 0 <= v - d && ElemAt(s, f, m', Slot(v - d, k, f.elem), p - d)
    ensures ElemPlaced(s, f, m', Slot(v - d, k, f.elem), p - d, shift')
    decreases |m| - p, 1, 0
  {
    hide U32, ElemAt, RefBounds, ValidSchema, ElemPlaced, Aligns;
    var q := Slot(v, k, f.elem);
    StrideGrows(k, n, f.elem);
    assert SameByte(m, m', d, v);
    ElemsWithin(s, f, m, v, p, k + 1, n, c);
    ElemPlacedMoved(s, f, m, q, p, ElemsBounds(s, f, m, v, p, k, c), m', d, b, shift, shift');
  }
}
