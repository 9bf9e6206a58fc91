/**
 The printer: which layout it chooses for a table.  `ObjectToString` and `FieldToString`,
 which append the text piece by piece, are methods of `Printing`.
 */
module Printer {
  import opened Common
  import opened Lexer
  import opened Decimal
  import opened Grammar
  import opened Flat

  /** The options, and the text chosen for floating point values. */
  datatype Options = Options(multiLine: bool, maxVectorSize: nat, reals: Real -> string)

  function Indent(depth: nat): string {
    if depth == 0 then "" else Indent(depth - 1) + "  "
  }

  /** A newline, and two spaces for every level. */
  function Wrapping(wrap: bool, depth: nat): string {
    if wrap then "\n" + Indent(depth) else ""
  }

  function Separator(wrap: bool, depth: nat): string {
    if wrap then Wrapping(true, depth) else " "
  }

  function EnumNameFrom(vs: seq<EnumVal>, i: int, k: nat): Option<string>
    requires k <= |vs|
    decreases |vs| - k
  {
    if k == |vs| then None
    else if vs[k].value == i then Some(vs[k].name)
    else EnumNameFrom(vs, i, k + 1)
  }

  /** The enumerator's name, if the value has one. */
  function EnumName(vs: seq<EnumVal>, i: int): Option<string> {
    EnumNameFrom(vs, i, 0)
  }

  function Bare(text: string): Layout {
    LNumber(text, text)
  }

  /** An integer, by the name of its enumerator if it has one. */
  function IntLayout(s: Schema, f: FieldDef, i: int): Layout
    requires ValidField(s, f)
  {
    if f.ref.Some? && !f.elem.Sequence? then
      match EnumName(s[f.ref.value].values, Cast(Long, i))
      case Some(name) => LString(name, name)
      case None => Bare(Show(Cast(Long, i)))
    else if f.elem.Bool? then LWord(false, i != 0)
    else Bare(Show(i))
  }

  /** A string as C sees it: up to the first null character. */
  function CString(s: string): string {
    if s == "" || s[0] == '\0' then "" else [s[0]] + CString(s[1..])
  }

  /** The fields in the order given that have a value. */
  function Present(t: Table, ids: seq<nat>): (r: seq<nat>)
    ensures forall k :: 0 <= k < |r| ==> r[k] in ids && r[k] < |t| && t[r[k]].Some?
  {
    if ids == [] then []
    else if ids[0] < |t| && t[ids[0]].Some? then [ids[0]] + Present(t, ids[1..])
    else Present(t, ids[1..])
  }

  /** Tables and vectors make the table that holds them span several lines. */
  predicate CausesWrapping(f: FieldDef) {
    f.repeating || f.elem.Sequence?
  }

  predicate Wraps(o: Options, fs: seq<FieldDef>) {
    o.multiLine && exists i :: 0 <= i < |fs| && CausesWrapping(fs[i])
  }

  /** A single value; inside a vector (`raw`) strings are not escaped. */
  function ElemLayout(s: Schema, o: Options, f: FieldDef, raw: bool, v: Value, depth: nat): Layout
    requires ValidSchema(s) && ValidField(s, f) && ElemOk(s, f, v)
    decreases v, 2
  {
    match v
    case VInt(i) => IntLayout(s, f, i)
    case VReal(r) => Bare(o.reals(r))
    case VString(x) => if raw then LString(CString(x), CString(x)) else LString(Escape(x), x)
    case VTable(t) => ObjectLayout(s, o, f.ref.value, t, depth)
    case VVector(_) => LWord(false, false)
  }

  function FieldLayout(s: Schema, o: Options, f: FieldDef, v: Value, depth: nat): Layout
    requires ValidSchema(s) && ValidField(s, f) && FieldOk(s, f, v)
    decreases v, 3
  {
    if !f.repeating then ElemLayout(s, o, f, false, v, depth)
    else if |v.elems| > o.maxVectorSize then Truncated(|v.elems|)
    else
      var wrap := o.multiLine && f.elem.Sequence?;
      if v.elems == [] then LArray(Wrapping(wrap, depth), LEnd(false))
      else LArray(Wrapping(wrap, depth + 1), ItemsLayout(s, o, f, v, 0, depth))
  }

  /** What stands in for a vector that is too long. */
  function Truncated(n: nat): Layout {
    var text := "... " + Show(n) + " elements ...";
    LArray(" ", LLastItem(LString(text, text), " "))
  }

  /** The elements from the `k`-th on. */
  function ItemsLayout(s: Schema, o: Options, f: FieldDef, v: Value, k: nat, depth: nat): LItems
    requires ValidSchema(s) && ValidField(s, f) && f.repeating && FieldOk(s, f, v) && k < |v.elems|
    decreases v, 0, |v.elems| - k
  {
    var wrap := o.multiLine && f.elem.Sequence?;
    var x := ElemLayout(s, o, f, true, v.elems[k], depth + 1);
    if k == |v.elems| - 1 then LLastItem(x, Wrapping(wrap, depth))
    else LItem(x, "", Separator(wrap, depth + 1), ItemsLayout(s, o, f, v, k + 1, depth))
  }

  function KeyLayout(name: string): Key {
    Key(name, name, "", " ")
  }

  /** The fields listed in `ids`, all of them present. */
  function FieldsLayout(s: Schema, o: Options, ty: nat, t: Table, ids: seq<nat>, depth: nat): LFields
    requires ValidSchema(s) && IsTable(s, ty) && TableOk(s, ty, t)
    requires forall k :: 0 <= k < |ids| ==> ids[k] < |t| && t[ids[k]].Some?
    decreases VTable(t), 0, |ids|
  {
    if ids == [] then LNoFields
    else
      var wrap := Wraps(o, FieldsOf(s, ty));
      var f := FieldsOf(s, ty)[ids[0]];
      var v := FieldLayout(s, o, f, t[ids[0]].value, depth + 1);
      if |ids| == 1 then LLastField(KeyLayout(f.name), v, Wrapping(wrap, depth))
      else
        LField(KeyLayout(f.name), v, "", Separator(wrap, depth + 1),
               FieldsLayout(s, o, ty, t, ids[1..], depth))
  }

  /** The layout the printer chooses for a table. */
  function ObjectLayout(s: Schema, o: Options, ty: nat, t: Table, depth: nat): (v: Layout)
    requires ValidSchema(s) && IsTable(s, ty) && TableOk(s, ty, t)
    ensures v.LObject?
    decreases VTable(t), 1
  {
    var wrap := Wraps(o, FieldsOf(s, ty));
    var ids := Present(t, s[ty].printed);
    LObject(Wrapping(wrap, if ids == [] then depth else depth + 1), FieldsLayout(s, o, ty, t, ids, depth))
  }

  /** The printed text of a table. */
  function Print(s: Schema, o: Options, ty: nat, t: Table): string
    requires ValidSchema(s) && IsTable(s, ty) && TableOk(s, ty, t)
  {
    Text(ObjectLayout(s, o, ty, t, 0), "")
  }
}
