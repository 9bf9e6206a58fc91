/** `ExtentsTable` and `CopyFlatBuffer` as methods: the loops over fields and elements, and the block copy. */
module BlockCopy {
  import opened Common
  import opened Flat
  import opened Buffer
  import opened Extents
  import opened Placement

  /** Moves a bound down to a multiple of the alignment, byte by byte. */
  method AlignLow(lo: nat, align: nat) returns (r: nat)
    requires align > 0
    ensures r == AlignDown(lo, align)
  {
    r := lo;
    while r % align != 0
      invariant AlignDown(r, align) == AlignDown(lo, align)
      decreases r
    {
      DownStep(r, align);
      r := r - 1;
    }
  }

  lemma DownStep(x: nat, a: nat)
    requires a > 0 && x % a != 0
    ensures x > 0 && AlignDown(x - 1, a) == AlignDown(x, a)
  {
    var q, r := x / a, x % a;
    assert x == a * q + r;
    assert x - 1 == a * q + (r - 1);
    DivisionUnique(x - 1, a, q, r - 1);
  }

  /** Moves a bound up to a multiple of the alignment, byte by byte. */
  method AlignHigh(hi: nat, align: nat) returns (r: nat)
    requires align > 0
    ensures r == AlignUp(hi, align)
  {
    r := hi;
    ghost var top := AlignUp(hi, align);
    UpIsAligned(hi, align);
    while r % align != 0
      invariant hi <= r <= top && AlignUp(r, align) == top
      decreases top - r
    {
      UpStep(r, align);
      r := r + 1;
    }
  }

  lemma UpIsAligned(x: nat, a: nat)
    requires a > 0
    ensures AlignUp(x, a) % a == 0 && x <= AlignUp(x, a)
  {
    if x % a != 0 {
      var q := x / a + 1;
      assert AlignUp(x, a) == a * q by {
        assert x == a * (x / a) + x % a;
        assert a * q == a * (x / a) + a;
      }
      DivisionUnique(a * q, a, q, 0);
    }
  }

  lemma UpStep(x: nat, a: nat)
    requires a > 0 && x % a != 0
    ensures AlignUp(x + 1, a) == AlignUp(x, a) && x < AlignUp(x, a)
  {
    var q, r := x / a, x % a;
    assert x == a * q + r;
    if r + 1 < a {
      DivisionUnique(x + 1, a, q, r + 1);
    } else {
      assert x + 1 == a * (q + 1) + 0 by {
        assert a * (q + 1) == a * q + a;
      }
      DivisionUnique(x + 1, a, q + 1, 0);
    }
  }

  /** The span of a table and everything it refers to. */
  method ExtentsTable(s: Schema, ty: nat, m: Memory, p: nat) returns (b: Bounds)
    requires ValidSchema(s) && IsTable(s, ty) && TableAt(s, ty, m, p)
    ensures b == TableBounds(s, ty, m, p)
    decreases |m| - p, 1
  {
    hide U32, FieldAt, FieldBounds, AlignUp, AlignDown;
    var vt := VTableOf(m, p);
    b := Extend(Bounds(p, p + 4, 4), vt, vt + U16(m, vt), 4);
    for i := 0 to |FieldsOf(s, ty)|
      invariant b == FieldsBounds(s, ty, m, p, i)
    {
      if Has(m, p, i) {
        b := ExtentsField(s, FieldsOf(s, ty)[i], m, p + FieldOffset(m, p, i), p, b);
      }
    }
    var lo := AlignLow(b.lo, b.align);
    var hi := AlignHigh(b.hi, b.align);
    b := Bounds(lo, hi, b.align);
  }

  method ExtentsField(s: Schema, f: FieldDef, m: Memory, q: nat, p: nat, acc: Bounds) returns (b: Bounds)
    requires ValidSchema(s) && ValidField(s, f) && p <= q && p < |m| && FieldAt(s, f, m, q, p) && Fits(acc, m)
    ensures b == FieldBounds(s, f, m, q, p, acc)
    decreases |m| - p, 0, 2
  {
    hide U32, RefBounds, AlignUp, ElemsBounds, FieldAt, ElemAt;
    var size := InlineSize(f.elem);
    b := Extend(acc, q, q + size, size);
    if f.repeating {
      VectorSpan(s, f, m, q, p, acc);
      VectorRefs(s, f, m, q, p);
      var v := Target(m, q);
      VectorCoversOffset(m, q, size);
      b := Extend(b, v, Slot(v, U32(m, v), f.elem), 4);
      b := ExtentsElems(s, f, m, v, p, U32(m, v), b);
    } else {
      SingleRef(s, f, m, q, p);
      ExtendFits(acc, q, q + size, size, m);
      b := ExtentsRef(s, f, m, q, p, b);
    }
  }

  lemma VectorRefs(s: Schema, f: FieldDef, m: Memory, q: nat, p: nat)
    requires ValidSchema(s) && ValidField(s, f) && p <= q && p < |m| && FieldAt(s, f, m, q, p) && f.repeating
    ensures OffsetAt(m, q) && Target(m, q) + 4 <= |m| && Slot(Target(m, q), U32(m, Target(m, q)), f.elem) <= |m|
  {
    hide U32, ElemAt;
  }

  lemma SingleRef(s: Schema, f: FieldDef, m: Memory, q: nat, p: nat)
    requires ValidSchema(s) && ValidField(s, f) && p <= q && p < |m| && FieldAt(s, f, m, q, p) && !f.repeating
    ensures ElemAt(s, f, m, q, p) && q + InlineSize(f.elem) <= |m| && InlineSize(f.elem) in {1, 2, 4, 8}
  {
    InlineFits(s, f, m, q, p);
  }

  /** The loop over the elements of a vector. */
  method ExtentsElems(s: Schema, f: FieldDef, m: Memory, v: nat, p: nat, n: nat, acc: Bounds) returns (b: Bounds)
    requires ValidSchema(s) && ValidField(s, f) && p <= v && p < |m| && Fits(acc, m)
    requires forall j :: 0 <= j < n ==> ElemAt(s, f, m, Slot(v, j, f.elem), p)
    ensures b == ElemsBounds(s, f, m, v, p, n, acc)
    decreases |m| - p, 0, 1
  {
    hide U32, RefBounds, ElemAt, AlignUp;
    b := acc;
    for k := 0 to n
      invariant b == ElemsBounds(s, f, m, v, p, k, acc)
    {
      b := ExtentsRef(s, f, m, Slot(v, k, f.elem), p, b);
    }
  }

  method ExtentsRef(s: Schema, f: FieldDef, m: Memory, q: nat, p: nat, acc: Bounds) returns (b: Bounds)
    requires ValidSchema(s) && ValidField(s, f) && p <= q && p < |m| && ElemAt(s, f, m, q, p) && Fits(acc, m)
    ensures b == RefBounds(s, f, m, q, p, acc)
    decreases |m| - p, 0, 0
  {
    b := acc;
    if f.elem.String? {
      var t := StringBounds(m, Target(m, q));
      b := Extend(acc, t.lo, t.hi, t.align);
    } else if f.elem.Sequence? {
      var t := ExtentsTable(s, f.ref.value, m, Target(m, q));
      b := Extend(acc, t.lo, t.hi, t.align);
    }
  }

  /** The bytes needed to reach a multiple of the alignment. */
  function Padding(size: nat, align: nat): (n: nat)
    requires align == 4 || align == 8
    ensures n < align && (size + n) % align == 0
  {
    PaddingFits(size, align);
    if size % align == 0 then 0 else align - size % align
  }

  lemma PaddingFits(size: nat, align: nat)
    requires align == 4 || align == 8
    ensures 0 <= size % align < align && (size + (align - size % align)) % align == 0
  {
    if align == 4 {
      PadFour(size);
    } else {
      PadEight(size);
    }
  }

  lemma PadFour(size: nat)
    ensures (size + (4 - size % 4)) % 4 == 0
  {
  }

  lemma PadEight(size: nat)
    ensures (size + (8 - size % 8)) % 8 == 0
  {
  }

  function Zeros(n: nat): (z: Memory)
    ensures |z| == n
  {
    seq(n, _ => 0)
  }

  /** The builder's buffer, which grows at its front; offsets count from its end. */
  class BufferBuilder {
    var buf: Memory

    constructor ()
      ensures buf == []
    {
      buf := [];
    }

    method Align(align: nat)
      requires align == 4 || align == 8
      modifies this
      ensures buf == Zeros(Padding(|old(buf)|, align)) + old(buf)
    {
      buf := Zeros(Padding(|buf|, align)) + buf;
    }

    method PushBytes(bytes: Memory)
      modifies this
      ensures buf == bytes + old(buf)
    {
      buf := bytes + buf;
    }
  }

  /**
   Copies the block that holds the table.  At the offset returned, the buffer holds the
   same table; everything that was in the buffer is still there, at the same offsets from
   its end; and if every value the table reaches was at a multiple of its size, counted from
   the start of the memory, it is so again, counted from the end of the buffer.
   */
  method CopyFlatBuffer(s: Schema, ty: nat, m: Memory, p: nat, fbb: BufferBuilder) returns (off: nat)
    requires ValidSchema(s) && IsTable(s, ty) && TableAt(s, ty, m, p)
    requires |m| % TableBounds(s, ty, m, p).align == 0
    modifies fbb
    ensures 0 < off <= |fbb.buf|
    ensures TableAt(s, ty, fbb.buf, |fbb.buf| - off)
    ensures DecodeTable(s, ty, fbb.buf, |fbb.buf| - off) == DecodeTable(s, ty, m, p)
    ensures |old(fbb.buf)| <= |fbb.buf| && fbb.buf[|fbb.buf| - |old(fbb.buf)|..] == old(fbb.buf)
    ensures (off + p) % TableBounds(s, ty, m, p).align == 0
    ensures WellPlaced(s, ty, m, p) ==> WellPlacedFromEnd(s, ty, fbb.buf, |fbb.buf| - off)
  {
    hide TableAt, DecodeTable, TableBounds, TablePlaced;
    var b := ExtentsTable(s, ty, m, p);
    FitsInside(b, m);
    fbb.Align(b.align);
    ghost var aligned := fbb.buf;
    fbb.PushBytes(m[b.lo..b.hi]);
    off := |fbb.buf| + (b.hi - p) - (b.hi - b.lo);
    BlockCopied(s, ty, m, p, aligned);
    assert off + p == |aligned| + b.hi;
    SumOfMultiples(|aligned|, b.hi, b.align);
    if WellPlaced(s, ty, m, p) {
      BlockPlaced(s, ty, m, p, aligned);
    }
  }

  /** Put in front of a multiple of its alignment, everything is in its place, counted from the end. */
  lemma BlockPlaced(s: Schema, ty: nat, m: Memory, p: nat, rest: Memory)
    requires ValidSchema(s) && IsTable(s, ty) && TableAt(s, ty, m, p) && WellPlaced(s, ty, m, p)
    requires |m| % TableBounds(s, ty, m, p).align == 0 && |rest| % TableBounds(s, ty, m, p).align == 0
    ensures TableBounds(s, ty, m, p).hi <= |m|
    ensures var b := TableBounds(s, ty, m, p);
      var buf := m[b.lo..b.hi] + rest;
      TableAt(s, ty, buf, p - b.lo) && WellPlacedFromEnd(s, ty, buf, p - b.lo)
  {
    hide TableAt, DecodeTable, Agree, TableBounds, TablePlaced;
    var b := TableBounds(s, ty, m, p);
    FitsInside(b, m);
    var buf := m[b.lo..b.hi] + rest;
    BlockAgrees(m, b, buf);
    SumOfMultiples(|rest|, b.hi, b.align);
    NegatedMultiple(|rest| + b.hi, b.align);
    assert -|buf| - b.lo == -(|rest| + b.hi);
    TablePlacedMoved(s, ty, m, p, buf, b.lo, b, 0, -|buf|);
  }

  lemma NegatedMultiple(x: int, a: int)
    requires (a == 4 || a == 8) && x % a == 0
    ensures (-x) % a == 0
  {
  }

  /** The span of a table, put in front of anything, holds the table. */
  lemma BlockCopied(s: Schema, ty: nat, m: Memory, p: nat, rest: Memory)
    requires ValidSchema(s) && IsTable(s, ty) && TableAt(s, ty, m, p)
    requires |m| % TableBounds(s, ty, m, p).align == 0
    ensures TableBounds(s, ty, m, p).hi <= |m|
    ensures var b := TableBounds(s, ty, m, p);
      var buf := m[b.lo..b.hi] + rest;
      TableAt(s, ty, buf, p - b.lo) && DecodeTable(s, ty, buf, p - b.lo) == DecodeTable(s, ty, m, p)
  {
    hide TableAt, DecodeTable, Agree, TableBounds;
    var b := TableBounds(s, ty, m, p);
    FitsInside(b, m);
    var buf := m[b.lo..b.hi] + rest;
    BlockAgrees(m, b, buf);
    TableMoved(s, ty, m, p, buf, b.lo, b);
  }

  lemma BlockAgrees(m: Memory, b: Bounds, buf: Memory)
    requires 0 <= b.lo <= b.hi <= |m| && b.hi - b.lo <= |buf| && buf[..b.hi - b.lo] == m[b.lo..b.hi]
    ensures Agree(m, buf, b.lo, b)
  {
    forall q | b.lo <= q < b.hi
      ensures SameByte(m, buf, b.lo, q)
    {
      assert buf[..b.hi - b.lo][q - b.lo] == m[b.lo..b.hi][q - b.lo];
    }
  }

  lemma SumOfMultiples(x: int, y: int, a: int)
    requires (a == 4 || a == 8) && x % a == 0 && y % a == 0
    ensures (x + y) % a == 0
  {
  }
}
