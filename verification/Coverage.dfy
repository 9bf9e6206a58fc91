/** What `ExtentsTable` computes, said of ranges: the smallest aligned one that holds the whole table. */
module Coverage {
  import opened Common
  import opened Flat
  import opened Buffer
  import opened Extents

  /** The range holds the bytes from `lo` to `hi`, and is aligned for them. */
  predicate Contains(c: Bounds, lo: int, hi: int, align: nat) {
    c.lo <= lo && hi <= c.hi && align <= c.align
  }

  /** The range starts and ends at multiples of its alignment. */
  predicate AlignedRange(c: Bounds) {
    (c.align == 4 || c.align == 8) && 0 <= c.lo && c.lo % c.align == 0 && c.hi % c.align == 0
  }

  /** The range holds the table: its vtable, its fields, and all that they refer to. */
  predicate TableCovered(s: Schema, ty: nat, m: Memory, p: nat, c: Bounds)
    requires ValidSchema(s) && IsTable(s, ty) && TableAt(s, ty, m, p)
    decreases |m| - p, 2
  {
    var vt := VTableOf(m, p);
    && Contains(c, p, p + 4, 4) && Contains(c, vt, vt + U16(m, vt), 4)
    && forall i :: 0 <= i < |FieldsOf(s, ty)| && Has(m, p, i) ==>
         FieldCovered(s, FieldsOf(s, ty)[i], m, p + FieldOffset(m, p, i), p, c)
  }

  predicate FieldCovered(s: Schema, f: FieldDef, m: Memory, q: nat, p: nat, c: Bounds)
    requires ValidSchema(s) && ValidField(s, f) && p <= q && p < |m| && FieldAt(s, f, m, q, p)
    decreases |m| - p, 1
  {
    && Contains(c, q, q + InlineSize(f.elem), InlineSize(f.elem))
    && if f.repeating then
         var v := Target(m, q);
         && Contains(c, v, Slot(v, U32(m, v), f.elem), 4)
         && forall k :: 0 <= k < U32(m, v) ==> RefCovered(s, f, m, Slot(v, k, f.elem), p, c)
       else RefCovered(s, f, m, q, p, c)
  }

  /** The string, with the zero behind it, or the table that a value is the offset of. */
  predicate RefCovered(s: Schema, f: FieldDef, m: Memory, q: nat, p: nat, c: Bounds)
    requires ValidSchema(s) && ValidField(s, f) && p <= q && p < |m| && ElemAt(s, f, m, q, p)
    decreases |m| - p, 0
  {
    && (f.elem.String? ==> var t := Target(m, q); Contains(c, t, t + 4 + U32(m, t) + 1, 4))
    && (f.elem.Sequence? ==> TableCovered(s, f.ref.value, m, Target(m, q), c))
  }

  // ------------------------------------------------------------------------- alignment

  lemma MultipleBelow(x: nat, y: nat, a: nat)
    requires a > 0 && y % a == 0 && y <= x
    ensures y <= AlignDown(x, a)
  {
    var k, q, r := y / a, x / a, x % a;
    assert y == a * k && x == a * q + r;
    MulMonotone(a, q + 1, k);
    Distribute(a, q);
    MulMonotone(a, k, q);
  }

  lemma Distribute(a: nat, q: int)
    ensures a * (q + 1) == a * q + a
  {
  }

  lemma MultipleAbove(x: nat, y: nat, a: nat)
    requires a > 0 && y % a == 0 && x <= y
    ensures AlignUp(x, a) <= y
  {
    var k := y / a;
    assert y == a * k;
    AlignsToMultiple(x, a, k);
  }

  lemma SmallerAlignment(x: int, a: nat, b: nat)
    requires (a == 4 || a == 8) && (b == 4 || b == 8) && a <= b && x % b == 0
    ensures x % a == 0
  {
  }

  /** Aligning a range keeps it inside every aligned range it was inside of. */
  lemma AlignedInside(b: Bounds, c: Bounds)
    requires (b.align == 4 || b.align == 8) && 0 <= b.lo <= b.hi && AlignedRange(c)
    ensures Within(Aligned(b), c) <==> Within(b, c)
  {
    var k := UpIsMultiple(b.lo, b.align);
    AlignsToMultiple(b.lo, b.align, k);
    k := UpIsMultiple(b.hi, b.align);
    AlignsToMultiple(b.hi, b.align, k);
    if Within(b, c) {
      SmallerAlignment(c.lo, b.align, c.align);
      SmallerAlignment(c.hi, b.align, c.align);
      MultipleBelow(b.lo, c.lo, b.align);
      MultipleAbove(b.hi, c.hi, b.align);
    }
  }

  // ----------------------------------------------------------------------- the theorem

  lemma ExtendInside(b: Bounds, lo: int, hi: int, align: nat, c: Bounds)
    ensures Within(Extend(b, lo, hi, align), c) <==> Within(b, c) && Contains(c, lo, hi, align)
  {
  }

  lemma {:induction false} RefInside(s: Schema, f: FieldDef, m: Memory, q: nat, p: nat, acc: Bounds, c: Bounds)
    requires ValidSchema(s) && ValidField(s, f) && p <= q && p < |m| && ElemAt(s, f, m, q, p) && Fits(acc, m)
    requires AlignedRange(c)
    ensures Within(RefBounds(s, f, m, q, p, acc), c) <==> Within(acc, c) && RefCovered(s, f, m, q, p, c)
    decreases |m| - p, 0
  {
    hide U32, Within, Extend, Contains, TableCovered, TableAt, TableBounds, AlignUp;
    if f.elem.String? {
      var t := StringBounds(m, Target(m, q));
      ExtendInside(acc, t.lo, t.hi, t.align, c);
    } else if f.elem.Sequence? {
      var t := TableBounds(s, f.ref.value, m, Target(m, q));
      ExtendInside(acc, t.lo, t.hi, t.align, c);
      WithinIsContains(t, c);
      SpanIsSmallest(s, f.ref.value, m, Target(m, q), c);
    }
  }

  lemma WithinIsContains(b: Bounds, c: Bounds)
    ensures Within(b, c) <==> Contains(c, b.lo, b.hi, b.align)
  {
  }

  lemma {:induction false} ElemsInside(s: Schema, f: FieldDef, m: Memory, v: nat, p: nat, n: nat, acc: Bounds,
      c: Bounds)
    requires ValidSchema(s) && ValidField(s, f) && p <= v && p < |m| && Fits(acc, m) && AlignedRange(c)
    requires forall j :: 0 <= j < n ==> ElemAt(s, f, m, Slot(v, j, f.elem), p)
    ensures Within(ElemsBounds(s, f, m, v, p, n, acc), c) <==>
      Within(acc, c) && forall k :: 0 <= k < n ==> RefCovered(s, f, m, Slot(v, k, f.elem), p, c)
    decreases |m| - p, 1, n
  {
    hide Within, RefCovered, RefBounds, ElemAt, AlignUp;
    if n > 0 {
      ElemsInside(s, f, m, v, p, n - 1, acc, c);
      RefInside(s, f, m, Slot(v, n - 1, f.elem), p, ElemsBounds(s, f, m, v, p, n - 1, acc), c);
    }
  }

  lemma {:induction false} FieldInside(s: Schema, f: FieldDef, m: Memory, q: nat, p: nat, acc: Bounds, c: Bounds)
    requires ValidSchema(s) && ValidField(s, f) && p <= q && p < |m| && FieldAt(s, f, m, q, p) && Fits(acc, m)
    requires AlignedRange(c)
    ensures Within(FieldBounds(s, f, m, q, p, acc), c) <==> Within(acc, c) && FieldCovered(s, f, m, q, p, c)
    decreases |m| - p, 2
  {
    hide Within, Extend, Contains, RefCovered, RefBounds, ElemsBounds, ElemAt, AlignUp, U32;
    var size := InlineSize(f.elem);
    ExtendInside(acc, q, q + size, size, c);
    if f.repeating {
      var v := Target(m, q);
      VectorSpan(s, f, m, q, p, acc);
      ExtendInside(Extend(acc, q, q + size, size), v, Slot(v, U32(m, v), f.elem), 4, c);
      ElemsInside(s, f, m, v, p, U32(m, v), InlineBounds(f, m, q, acc), c);
    } else {
      InlineFits(s, f, m, q, p);
      ExtendFits(acc, q, q + size, size, m);
      RefInside(s, f, m, q, p, Extend(acc, q, q + size, size), c);
    }
  }

  lemma {:induction false} FieldsInside(s: Schema, ty: nat, m: Memory, p: nat, k: nat, c: Bounds)
    requires ValidSchema(s) && IsTable(s, ty) && TableAt(s, ty, m, p) && k <= |FieldsOf(s, ty)| && AlignedRange(c)
    ensures Within(FieldsBounds(s, ty, m, p, k), c) <==>
      && Within(HeaderBounds(m, p), c)
      && forall i :: 0 <= i < k && Has(m, p, i) ==>
           FieldCovered(s, FieldsOf(s, ty)[i], m, p + FieldOffset(m, p, i), p, c)
    decreases |m| - p, 3, k
  {
    hide Within, FieldCovered, FieldBounds, FieldAt, AlignUp, FieldOffset, HeaderBounds;
    if k > 0 {
      FieldsInside(s, ty, m, p, k - 1, c);
      if Has(m, p, k - 1) {
        var b := FieldsBounds(s, ty, m, p, k - 1);
        FieldInside(s, FieldsOf(s, ty)[k - 1], m, p + FieldOffset(m, p, k - 1), p, b, c);
      }
    }
  }

  /** An aligned range holds the table exactly if it holds the span computed: that is the smallest one. */
  lemma {:induction false} SpanIsSmallest(s: Schema, ty: nat, m: Memory, p: nat, c: Bounds)
    requires ValidSchema(s) && IsTable(s, ty) && TableAt(s, ty, m, p) && AlignedRange(c)
    ensures TableCovered(s, ty, m, p, c) <==> Within(TableBounds(s, ty, m, p), c)
    decreases |m| - p, 4
  {
    hide Within, FieldCovered, FieldsBounds, FieldAt, AlignUp, AlignDown, FieldOffset, U16, U32;
    AlignedInside(FieldsBounds(s, ty, m, p, |FieldsOf(s, ty)|), c);
    FieldsInside(s, ty, m, p, |FieldsOf(s, ty)|, c);
    HeaderInside(m, p, c);
  }

  lemma HeaderInside(m: Memory, p: nat, c: Bounds)
    requires VTableAt(m, p)
    ensures var vt := VTableOf(m, p);
      Within(HeaderBounds(m, p), c) <==> Contains(c, p, p + 4, 4) && Contains(c, vt, vt + U16(m, vt), 4)
  {
  }
}
