/** The flatbuffer format: reading a typed tree out of bytes. */
module Buffer {
  import opened Common
  import opened Flat

  type byte = b: int | 0 <= b < 256

  /** Memory from an address that is a multiple of eight. */
  type Memory = seq<byte>

  function U16(m: Memory, p: nat): nat
    requires p + 2 <= |m|
  {
    m[p] as int + 0x100 * (m[p + 1] as int)
  }

  function U32(m: Memory, p: nat): nat
    requires p + 4 <= |m|
  {
    U16(m, p) + 0x1_0000 * U16(m, p + 2)
  }

  function S32(m: Memory, p: nat): int
    requires p + 4 <= |m|
  {
    var u := U32(m, p);
    if u < 0x8000_0000 then u else u - 0x1_0000_0000
  }

  /** Scalars are kept as their bytes. */
  datatype Node =
    | Raw(bytes: seq<byte>)
    | Text(bytes: seq<byte>)
    | Record(fields: seq<Option<Node>>)
    | Vector(elems: seq<Node>)

  /** The size of a value of the type inside a table or vector. */
  function InlineSize(e: Elem): (n: nat)
    ensures n in {1, 2, 4, 8}
  {
    Bits(e) / 8
  }

  /** The size of `k` elements. */
  function Stride(k: nat, e: Elem): nat {
    if k == 0 then 0 else Stride(k - 1, e) + InlineSize(e)
  }

  lemma {:induction false} StrideGrows(j: nat, k: nat, e: Elem)
    requires j < k
    ensures Stride(j, e) + InlineSize(e) <= Stride(k, e)
    decreases k
  {
    if j < k - 1 {
      StrideGrows(j, k - 1, e);
    }
  }

  /** Where the `k`-th element of the vector at `v` is. */
  function Slot(v: nat, k: nat, e: Elem): nat {
    v + 4 + Stride(k, e)
  }

  // --------------------------------------------------------------------------- strings

  predicate StringAt(m: Memory, p: nat) {
    p + 4 <= |m| && p + 4 + U32(m, p) + 1 <= |m|
  }

  function DecodeString(m: Memory, p: nat): Node
    requires StringAt(m, p)
  {
    Text(m[p + 4..p + 4 + U32(m, p)])
  }

  // ---------------------------------------------------------------------------- vtables

  function VTableOf(m: Memory, p: nat): int
    requires p + 4 <= |m|
  {
    p - S32(m, p)
  }

  predicate VTableAt(m: Memory, p: nat) {
    && p + 4 <= |m|
    && 0 <= VTableOf(m, p) && VTableOf(m, p) + 4 <= |m|
    && U16(m, VTableOf(m, p)) >= 4 && U16(m, VTableOf(m, p)) % 2 == 0
    && VTableOf(m, p) + U16(m, VTableOf(m, p)) <= |m|
  }

  /** Where field `i` of the table at `p` is, or zero if it has no value. */
  function FieldOffset(m: Memory, p: nat, i: nat): nat
    requires VTableAt(m, p)
  {
    var vt := VTableOf(m, p);
    if 4 + 2 * i < U16(m, vt) then U16(m, vt + 4 + 2 * i) else 0
  }

  predicate Has(m: Memory, p: nat, i: nat)
    requires VTableAt(m, p)
  {
    FieldOffset(m, p, i) != 0
  }

  /** An offset that points behind itself. */
  predicate OffsetAt(m: Memory, q: nat) {
    q + 4 <= |m| && U32(m, q) >= 4
  }

  function Target(m: Memory, q: nat): nat
    requires OffsetAt(m, q)
  {
    q + U32(m, q)
  }

  // ------------------------------------------------------------------------ typed trees

  /** The bytes of the memory hold a table of the type at `p`. */
  predicate TableAt(s: Schema, ty: nat, m: Memory, p: nat)
    requires ValidSchema(s) && IsTable(s, ty)
    decreases |m| - p, 2
  {
    VTableAt(m, p) && forall i :: 0 <= i < |FieldsOf(s, ty)| && Has(m, p, i) ==>
      FieldAt(s, FieldsOf(s, ty)[i], m, p + FieldOffset(m, p, i), p)
  }

  /** A field at `q`, in a table at `p` before it. */
  predicate FieldAt(s: Schema, f: FieldDef, m: Memory, q: nat, p: nat)
    requires ValidSchema(s) && ValidField(s, f) && p <= q && p < |m|
    decreases |m| - p, 1
  {
    if f.repeating then
      OffsetAt(m, q) &&
      var v := Target(m, q);
      v + 4 <= |m| && Slot(v, U32(m, v), f.elem) <= |m| &&
      forall k :: 0 <= k < U32(m, v) ==> ElemAt(s, f, m, Slot(v, k, f.elem), p)
    else ElemAt(s, f, m, q, p)
  }

  predicate ElemAt(s: Schema, f: FieldDef, m: Memory, q: nat, p: nat)
    requires ValidSchema(s) && ValidField(s, f) && p <= q && p < |m|
    decreases |m| - p, 0
  {
    if f.elem.String? then OffsetAt(m, q) && StringAt(m, Target(m, q))
    else if f.elem.Sequence? then
      OffsetAt(m, q) && Target(m, q) < |m| && TableAt(s, f.ref.value, m, Target(m, q))
    else q + InlineSize(f.elem) <= |m|
  }

  function DecodeTable(s: Schema, ty: nat, m: Memory, p: nat): Node
    requires ValidSchema(s) && IsTable(s, ty) && TableAt(s, ty, m, p)
    decreases |m| - p, 2
  {
    var fs := FieldsOf(s, ty);
    Record(seq(|fs|, i requires 0 <= i < |fs| =>
      if Has(m, p, i) then Some(DecodeField(s, fs[i], m, p + FieldOffset(m, p, i), p)) else None))
  }

  function DecodeField(s: Schema, f: FieldDef, m: Memory, q: nat, p: nat): Node
    requires ValidSchema(s) && ValidField(s, f) && p <= q && p < |m| && FieldAt(s, f, m, q, p)
    decreases |m| - p, 1
  {
    if f.repeating then
      var v := Target(m, q);
      Vector(seq(U32(m, v), k requires 0 <= k < U32(m, v) =>
        DecodeElem(s, f, m, Slot(v, k, f.elem), p)))
    else DecodeElem(s, f, m, q, p)
  }

  function DecodeElem(s: Schema, f: FieldDef, m: Memory, q: nat, p: nat): Node
    requires ValidSchema(s) && ValidField(s, f) && p <= q && p < |m| && ElemAt(s, f, m, q, p)
    decreases |m| - p, 0
  {
    if f.elem.String? then DecodeString(m, Target(m, q))
    else if f.elem.Sequence? then DecodeTable(s, f.ref.value, m, Target(m, q))
    else Raw(m[q..q + InlineSize(f.elem)])
  }
}
