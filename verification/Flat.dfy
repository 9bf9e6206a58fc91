/**
 Schemas and the values that flatbuffers hold, as trees.  A table is a sequence with one
 optional value per field of its type.
 */
module Flat {
  import opened Common

  datatype Elem =
    | UType | Bool | Char | UChar | Short | UShort | Int | UInt | Long | ULong
    | Float | Double | String | Sequence

  /** A field; `ref` names the table type of a sequence or the enum of an integer. */
  datatype FieldDef = FieldDef(name: string, elem: Elem, repeating: bool, ref: Option<nat>)

  datatype EnumVal = EnumVal(name: string, value: int)

  /**
   A table's fields in the order of their ids, and `printed`, the order in which the
   reflection schema lists them; or an enum.
   */
  datatype TypeDef =
    | TableType(fields: seq<FieldDef>, printed: seq<nat>)
    | EnumType(values: seq<EnumVal>)

  type Schema = seq<TypeDef>

  predicate Integral(e: Elem) {
    e.Char? || e.UChar? || e.Short? || e.UShort? || e.Int? || e.UInt? || e.Long? || e.ULong?
  }

  predicate Scalar(e: Elem) {
    Integral(e) || e.Bool? || e.Float? || e.Double?
  }

  predicate IsTable(s: Schema, ty: nat) {
    ty < |s| && s[ty].TableType?
  }

  /** Sequences refer to tables; anything else may refer to an enum only if it is an integer. */
  predicate ValidField(s: Schema, f: FieldDef) {
    if f.elem.Sequence? then f.ref.Some? && IsTable(s, f.ref.value)
    else f.ref.Some? ==> Integral(f.elem) && f.ref.value < |s| && s[f.ref.value].EnumType?
  }

  predicate ValidSchema(s: Schema) {
    forall ty, i :: 0 <= ty < |s| && s[ty].TableType? && 0 <= i < |s[ty].fields| ==> ValidField(s, s[ty].fields[i])
  }

  function FieldsOf(s: Schema, ty: nat): seq<FieldDef>
    requires IsTable(s, ty)
  {
    s[ty].fields
  }

  /** A floating point value, kept as what it was converted from. */
  datatype Real = Literal(text: string) | OfInt(i: int)

  datatype Value =
    | VInt(i: int)
    | VReal(r: Real)
    | VString(s: string)
    | VTable(fields: seq<Option<Value>>)
    | VVector(elems: seq<Value>)

  type Table = seq<Option<Value>>

  function EmptyTable(n: nat): (t: Table)
    ensures |t| == n && forall i :: 0 <= i < n ==> t[i] == None
  {
    seq(n, _ => None)
  }

  // ----------------------------------------------------------- integers of each width

  function Bits(e: Elem): nat {
    match e
    case UType => 8
    case Bool => 8
    case Char => 8
    case UChar => 8
    case Short => 16
    case UShort => 16
    case Int => 32
    case UInt => 32
    case Float => 32
    case String => 32
    case Sequence => 32
    case Long => 64
    case ULong => 64
    case Double => 64
  }

  function Power(bits: nat): (p: nat)
    requires bits in {8, 16, 32, 64}
  {
    if bits == 8 then 0x100 else if bits == 16 then 0x1_0000
    else if bits == 32 then 0x1_0000_0000 else 0x1_0000_0000_0000_0000
  }

  predicate Signed(e: Elem) {
    e.Char? || e.Short? || e.Int? || e.Long?
  }

  function Low(e: Elem): int {
    if Signed(e) then -(Power(Bits(e)) / 2) else 0
  }

  /** One more than the largest integer of the type. */
  function High(e: Elem): int {
    if e.Bool? then 2 else if Signed(e) then Power(Bits(e)) / 2 else Power(Bits(e))
  }

  predicate InRange(e: Elem, i: int) {
    Low(e) <= i < High(e)
  }

  /** The integer congruent to `i` modulo `p` that is at least `low` and below `low + p`. */
  function Wrap(i: int, low: int, p: int): (r: int)
    requires p > 0
    ensures low <= r < low + p
    ensures low <= i < low + p ==> r == i
  {
    WrapInRange(i, low, p);
    i - p * ((i - low) / p)
  }

  lemma WrapInRange(i: int, low: int, p: int)
    requires p > 0
    ensures var r := i - p * ((i - low) / p); low <= r < low + p && (low <= i < low + p ==> r == i)
  {
    var d, m := (i - low) / p, (i - low) % p;
    assert i - low == p * d + m;
    if low <= i < low + p {
      DivisionUnique(i - low, p, 0, i - low);
    }
  }

  /** The conversion of an integer to the type: modulo its width, or to zero and one. */
  function Cast(e: Elem, i: int): (r: int)
    requires Integral(e) || e.Bool?
    ensures InRange(e, r)
    ensures InRange(e, i) ==> r == i
  {
    if e.Bool? then (if i == 0 then 0 else 1) else Wrap(i, Low(e), Power(Bits(e)))
  }

  // ------------------------------------------------------------------- conformance

  /** A value of the field's element type. */
  predicate ElemOk(s: Schema, f: FieldDef, v: Value)
    decreases v, 1
  {
    match v
    case VInt(i) => (Integral(f.elem) || f.elem.Bool?) && InRange(f.elem, i)
    case VReal(_) => f.elem.Float? || f.elem.Double?
    case VString(_) => f.elem.String?
    case VTable(t) => f.elem.Sequence? && f.ref.Some? && IsTable(s, f.ref.value) && TableOk(s, f.ref.value, t)
    case VVector(_) => false
  }

  predicate FieldOk(s: Schema, f: FieldDef, v: Value)
    decreases v, 2
  {
    if f.repeating then v.VVector? && forall i :: 0 <= i < |v.elems| ==> ElemOk(s, f, v.elems[i])
    else ElemOk(s, f, v)
  }

  predicate TableOk(s: Schema, ty: nat, t: Table)
    requires IsTable(s, ty)
    decreases VTable(t), 0
  {
    |t| == |FieldsOf(s, ty)| &&
    forall i :: 0 <= i < |t| && t[i].Some? ==> FieldOk(s, FieldsOf(s, ty)[i], t[i].value)
  }
}
