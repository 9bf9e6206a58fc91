/** What the printed text looks like: where its lines break, and how each value is written. */
module Shown {
  import opened Common
  import opened Lexer
  import opened Decimal
  import opened Grammar
  import opened Flat
  import opened Printer
  import opened Printing

  function Spaces(n: nat): (s: string)
    ensures |s| == n && forall i :: 0 <= i < n ==> s[i] == ' '
  {
    seq(n, _ => ' ')
  }

  /** The start of a new line at the given depth, two spaces a level; nothing if lines are not broken. */
  function NewLine(breaks: bool, depth: nat): string {
    if breaks then "\n" + Spaces(2 * depth) else ""
  }

  /** What separates two entries. */
  function Between(breaks: bool, depth: nat): string {
    "," + if breaks then NewLine(true, depth) else " "
  }

  function Joined(xs: seq<string>, separator: string): string {
    if xs == [] then "" else if |xs| == 1 then xs[0] else xs[0] + (separator + Joined(xs[1..], separator))
  }

  /** The entries between brackets, each on a line of its own if lines are broken. */
  function Bracketed(open: string, entries: seq<string>, close: string, breaks: bool, depth: nat): string {
    if entries == [] then open + (NewLine(breaks, depth) + close)
    else
      open + (NewLine(breaks, depth + 1) +
        (Joined(entries, Between(breaks, depth + 1)) + (NewLine(breaks, depth) + close)))
  }

  lemma {:induction false} IndentIsSpaces(depth: nat)
    ensures Indent(depth) == Spaces(2 * depth)
    decreases depth
  {
    if depth > 0 {
      IndentIsSpaces(depth - 1);
      assert Spaces(2 * depth) == Spaces(2 * (depth - 1)) + "  ";
    }
  }

  lemma WrappingIsNewLine(wrap: bool, depth: nat)
    ensures Wrapping(wrap, depth) == NewLine(wrap, depth)
    ensures "," + Separator(wrap, depth) == Between(wrap, depth)
  {
    IndentIsSpaces(depth);
  }

  // ---------------------------------------------------------------------------- tables

  /** The type of the table has a field that is a vector or a table. */
  predicate HasNested(fs: seq<FieldDef>) {
    exists i :: 0 <= i < |fs| && (fs[i].repeating || fs[i].elem.Sequence?)
  }

  function FieldText(s: Schema, o: Options, f: FieldDef, v: Value, depth: nat): string
    requires ValidSchema(s) && ValidField(s, f) && FieldOk(s, f, v)
  {
    Text(FieldLayout(s, o, f, v, depth), "")
  }

  /** A field: its name in quotes, a colon and its value. */
  function MemberText(s: Schema, o: Options, ty: nat, t: Table, i: nat, depth: nat): string
    requires ValidSchema(s) && IsTable(s, ty) && TableOk(s, ty, t) && i < |t| && t[i].Some?
  {
    var f := FieldsOf(s, ty)[i];
    "\"" + (f.name + ("\": " + FieldText(s, o, f, t[i].value, depth)))
  }

  function MemberTexts(s: Schema, o: Options, ty: nat, t: Table, ids: seq<nat>, depth: nat): (r: seq<string>)
    requires ValidSchema(s) && IsTable(s, ty) && TableOk(s, ty, t)
    requires forall k :: 0 <= k < |ids| ==> ids[k] < |t| && t[ids[k]].Some?
    ensures |r| == |ids|
  {
    if ids == [] then [] else [MemberText(s, o, ty, t, ids[0], depth)] + MemberTexts(s, o, ty, t, ids[1..], depth)
  }

  lemma MemberShown(s: Schema, o: Options, ty: nat, t: Table, i: nat, depth: nat, r: string)
    requires ValidSchema(s) && IsTable(s, ty) && TableOk(s, ty, t) && i < |t| && t[i].Some?
    ensures var f := FieldsOf(s, ty)[i];
      TextKey(KeyLayout(f.name), Text(FieldLayout(s, o, f, t[i].value, depth), r)) ==
        MemberText(s, o, ty, t, i, depth) + r
  {
    hide Text, FieldLayout;
    var f := FieldsOf(s, ty)[i];
    var l, x := FieldLayout(s, o, f, t[i].value, depth), FieldText(s, o, f, t[i].value, depth);
    TextAppend(l, "", r);
    assert "" + r == r;
    KeyShown(f.name, x + r);
    ConcatAssoc("\": ", x, r);
    ConcatAssoc(f.name, "\": " + x, r);
    ConcatAssoc("\"", f.name + ("\": " + x), r);
  }

  lemma KeyShown(name: string, r: string)
    ensures TextKey(KeyLayout(name), r) == "\"" + (name + ("\": " + r))
  {
    assert "\"" + ("" + (":" + (" " + r))) == "\": " + r;
  }

  lemma {:induction false} FieldsShown(s: Schema, o: Options, ty: nat, t: Table, ids: seq<nat>, depth: nat, r: string)
    requires ValidSchema(s) && IsTable(s, ty) && TableOk(s, ty, t) && ids != []
    requires forall k :: 0 <= k < |ids| ==> ids[k] < |t| && t[ids[k]].Some?
    ensures var wrap := Wraps(o, FieldsOf(s, ty));
      TextFields(FieldsLayout(s, o, ty, t, ids, depth), r) ==
        Joined(MemberTexts(s, o, ty, t, ids, depth + 1), Between(wrap, depth + 1)) + (NewLine(wrap, depth) + r)
    decreases |ids|
  {
    hide Text, FieldLayout, MemberText, Wraps, NewLine, Between, Wrapping, Separator, TextKey, KeyLayout, TableOk;
    var wrap, x := Wraps(o, FieldsOf(s, ty)), MemberText(s, o, ty, t, ids[0], depth + 1);
    var end := NewLine(wrap, depth) + r;
    WrappingIsNewLine(wrap, depth);
    WrappingIsNewLine(wrap, depth + 1);
    if |ids| == 1 {
      assert ids[1..] == [];
      MemberShown(s, o, ty, t, ids[0], depth + 1, end);
    } else {
      var rest := TextFields(FieldsLayout(s, o, ty, t, ids[1..], depth), r);
      var more, sep := Joined(MemberTexts(s, o, ty, t, ids[1..], depth + 1), Between(wrap, depth + 1)),
        Between(wrap, depth + 1);
      FieldsShown(s, o, ty, t, ids[1..], depth, r);
      MemberShown(s, o, ty, t, ids[0], depth + 1, "" + ("," + (Separator(wrap, depth + 1) + rest)));
      Glue(Separator(wrap, depth + 1), sep, rest, x, more, end);
      JoinedMore(x, MemberTexts(s, o, ty, t, ids[1..], depth + 1), sep);
    }
  }

  lemma Glue(w: string, sep: string, rest: string, x: string, more: string, end: string)
    requires "," + w == sep && rest == more + end
    ensures x + ("" + ("," + (w + rest))) == (x + (sep + more)) + end
  {
    assert "" + ("," + (w + rest)) == "," + (w + rest);
    ConcatAssoc(",", w, rest);
    ConcatAssoc(sep, more, end);
    ConcatAssoc(x, sep + more, end);
  }

  lemma JoinedMore(x: string, xs: seq<string>, separator: string)
    requires xs != []
    ensures Joined([x] + xs, separator) == x + (separator + Joined(xs, separator))
  {
    assert ([x] + xs)[1..] == xs;
  }

  /**
   A table, at a depth: the fields that have a value between braces.  They stand on lines of
   their own exactly if the output may have several lines and the table's type has a field
   that is a vector or a table.
   */
  lemma ObjectShown(s: Schema, o: Options, ty: nat, t: Table, depth: nat)
    requires ValidSchema(s) && IsTable(s, ty) && TableOk(s, ty, t)
    ensures var ids := Present(t, s[ty].printed);
      Text(ObjectLayout(s, o, ty, t, depth), "") ==
        Bracketed("{", MemberTexts(s, o, ty, t, ids, depth + 1), "}", o.multiLine && HasNested(FieldsOf(s, ty)), depth)
  {
    hide FieldsLayout, TextFields, MemberTexts, NewLine, Between, Wrapping, Joined, TableOk;
    var ids, wrap := Present(t, s[ty].printed), Wraps(o, FieldsOf(s, ty));
    assert wrap == (o.multiLine && HasNested(FieldsOf(s, ty)));
    WrappingIsNewLine(wrap, depth);
    WrappingIsNewLine(wrap, depth + 1);
    assert "}" + "" == "}";
    if ids == [] {
      NoFieldsShown(s, o, ty, t, depth);
    } else {
      FieldsShown(s, o, ty, t, ids, depth, "}");
    }
  }

  lemma NoFieldsShown(s: Schema, o: Options, ty: nat, t: Table, depth: nat)
    requires ValidSchema(s) && IsTable(s, ty) && TableOk(s, ty, t)
    ensures TextFields(FieldsLayout(s, o, ty, t, [], depth), "}") == "}"
    ensures MemberTexts(s, o, ty, t, [], depth + 1) == []
  {
  }

  // --------------------------------------------------------------------------- vectors

  function ElemText(s: Schema, o: Options, f: FieldDef, v: Value, depth: nat): string
    requires ValidSchema(s) && ValidField(s, f) && ElemOk(s, f, v)
  {
    Text(ElemLayout(s, o, f, true, v, depth), "")
  }

  function ElemTexts(s: Schema, o: Options, f: FieldDef, vs: seq<Value>, depth: nat): (r: seq<string>)
    requires ValidSchema(s) && ValidField(s, f) && forall k :: 0 <= k < |vs| ==> ElemOk(s, f, vs[k])
    ensures |r| == |vs|
  {
    if vs == [] then [] else [ElemText(s, o, f, vs[0], depth)] + ElemTexts(s, o, f, vs[1..], depth)
  }

  lemma {:induction false} ItemsShown(s: Schema, o: Options, f: FieldDef, v: Value, k: nat, depth: nat, r: string)
    requires ValidSchema(s) && ValidField(s, f) && f.repeating && FieldOk(s, f, v) && k < |v.elems|
    ensures forall j :: 0 <= j < |v.elems[k..]| ==> ElemOk(s, f, v.elems[k..][j])
    ensures var wrap := o.multiLine && f.elem.Sequence?;
      TextItems(ItemsLayout(s, o, f, v, k, depth), r) ==
        Joined(ElemTexts(s, o, f, v.elems[k..], depth + 1), Between(wrap, depth + 1)) + (NewLine(wrap, depth) + r)
    decreases |v.elems| - k
  {
    hide Text, ElemLayout, NewLine, Between, Wrapping, Separator;
    var wrap, xs := o.multiLine && f.elem.Sequence?, v.elems[k..];
    var l, end := ElemLayout(s, o, f, true, v.elems[k], depth + 1), NewLine(wrap, depth) + r;
    WrappingIsNewLine(wrap, depth);
    WrappingIsNewLine(wrap, depth + 1);
    assert xs[0] == v.elems[k] && xs[1..] == v.elems[k + 1..];
    if k == |v.elems| - 1 {
      assert xs[1..] == [];
      TextAppend(l, "", end);
      assert "" + end == end;
    } else {
      var rest := TextItems(ItemsLayout(s, o, f, v, k + 1, depth), r);
      var sep := Between(wrap, depth + 1);
      ItemsShown(s, o, f, v, k + 1, depth, r);
      var more := ElemTexts(s, o, f, xs[1..], depth + 1);
      var tail := "" + ("," + (Separator(wrap, depth + 1) + rest));
      TextAppend(l, "", tail);
      assert "" + tail == tail;
      Glue(Separator(wrap, depth + 1), sep, rest, Text(l, ""), Joined(more, sep), end);
      JoinedMore(Text(l, ""), more, sep);
    }
  }

  /**
   A vector that is not too long: its elements between square brackets, on lines of their
   own exactly if the output may have several lines and they are tables.
   */
  lemma VectorShown(s: Schema, o: Options, f: FieldDef, v: Value, depth: nat)
    requires ValidSchema(s) && ValidField(s, f) && f.repeating && FieldOk(s, f, v) && |v.elems| <= o.maxVectorSize
    ensures forall k :: 0 <= k < |v.elems| ==> ElemOk(s, f, v.elems[k])
    ensures FieldText(s, o, f, v, depth) ==
      Bracketed("[", ElemTexts(s, o, f, v.elems, depth + 1), "]", o.multiLine && f.elem.Sequence?, depth)
  {
    hide ItemsLayout, TextItems, ElemTexts, NewLine, Between, Wrapping, Joined;
    var wrap := o.multiLine && f.elem.Sequence?;
    WrappingIsNewLine(wrap, depth);
    WrappingIsNewLine(wrap, depth + 1);
    assert "]" + "" == "]";
    if v.elems == [] {
      NoItemsShown(s, o, f, depth);
    } else {
      assert v.elems[0..] == v.elems;
      ItemsShown(s, o, f, v, 0, depth, "]");
    }
  }

  lemma NoItemsShown(s: Schema, o: Options, f: FieldDef, depth: nat)
    requires ValidSchema(s) && ValidField(s, f)
    ensures TextItems(LEnd(false), "]") == "]" && ElemTexts(s, o, f, [], depth + 1) == []
  {
    assert "" + "]" == "]";
  }

  // --------------------------------------------------------------------- single values

  /** A floating point number shows as its own text, a string in quotes, a flag as a word. */
  lemma ValueShown(s: Schema, o: Options, f: FieldDef, v: Value, depth: nat)
    requires ValidSchema(s) && ValidField(s, f) && !f.repeating && FieldOk(s, f, v)
    ensures ElemOk(s, f, v)
    ensures v.VReal? ==> FieldText(s, o, f, v, depth) == o.reals(v.r)
    ensures v.VString? ==> FieldText(s, o, f, v, depth) == "\"" + (Escape(v.s) + "\"")
    ensures v.VInt? && f.elem.Bool? && f.ref.None? ==>
      FieldText(s, o, f, v, depth) == if v.i == 0 then "false" else "true"
    ensures v.VInt? && !f.elem.Bool? && f.ref.None? ==> FieldText(s, o, f, v, depth) == Show(v.i)
    ensures v.VTable? ==> FieldText(s, o, f, v, depth) == Text(ObjectLayout(s, o, f.ref.value, v.fields, depth), "")
  {
    hide Show, Escape, ObjectLayout;
    assert ElemOk(s, f, v);
    assert FieldLayout(s, o, f, v, depth) == ElemLayout(s, o, f, false, v, depth);
    assert "\"" + "" == "\"" && "" + "false" == "false" && "" + "true" == "true";
    assert "false" + "" == "false" && "true" + "" == "true";
    assert v.VReal? ==> o.reals(v.r) + "" == o.reals(v.r);
    assert v.VInt? ==> Show(v.i) + "" == Show(v.i);
  }
}
