/** The printer's methods: they append to a string builder and together print the layout of `Printer`. */
module Printing {
  import opened Common
  import opened Lexer
  import opened Decimal
  import opened Grammar
  import opened Flat
  import opened Printer

  class StringBuilder {
    var str: string

    constructor ()
      ensures str == ""
    {
      str := "";
    }

    method Append(s: string)
      modifies this
      ensures str == old(str) + s
    {
      str := str + s;
    }
  }

  /** Adds a newline and the indentation. */
  method AddWrapping(out: StringBuilder, depth: nat)
    modifies out
    ensures out.str == old(out.str) + Wrapping(true, depth)
  {
    out.Append("\n");
    ghost var start := out.str;
    assert start + Indent(0) == start;
    for i := 0 to depth
      invariant out.str == start + Indent(i)
    {
      out.Append("  ");
      ConcatAssoc(start, Indent(i), "  ");
    }
    ConcatAssoc(old(out.str), "\n", Indent(depth));
  }

  /** Adds a string between quotes, character by character. */
  method AddEscaped(out: StringBuilder, s: string)
    modifies out
    ensures out.str == old(out.str) + Quoted(Escape(s), "")
  {
    out.Append("\"");
    ghost var start := out.str;
    assert s[0..] == s;
    for i := 0 to |s|
      invariant out.str + Escape(s[i..]) == start + Escape(s)
    {
      assert s[i..][0] == s[i] && s[i..][1..] == s[i + 1..];
      ghost var before := out.str;
      out.Append(EscapeChar(s[i]));
      ConcatAssoc(before, EscapeChar(s[i]), Escape(s[i + 1..]));
    }
    assert out.str + "" == out.str;
    out.Append("\"");
    assert out.str == old(out.str) + ("\"" + (Escape(s) + ("\"" + "")));
  }

  method AddQuoted(out: StringBuilder, s: string)
    modifies out
    ensures out.str == old(out.str) + Quoted(s, "")
  {
    out.Append("\"");
    out.Append(s);
    out.Append("\"");
  }

  method IntOrEnumToString(s: Schema, f: FieldDef, i: int, out: StringBuilder)
    requires ValidField(s, f)
    modifies out
    ensures out.str == old(out.str) + Text(IntLayout(s, f, i), "")
  {
    if f.ref.Some? && !f.elem.Sequence? {
      var name := EnumName(s[f.ref.value].values, Cast(Long, i));
      if name.Some? {
        AddQuoted(out, name.value);
      } else {
        out.Append(Show(Cast(Long, i)));
        assert Show(Cast(Long, i)) + "" == Show(Cast(Long, i));
      }
    } else if f.elem.Bool? {
      out.Append(if i != 0 then "true" else "false");
    } else {
      out.Append(Show(i));
      assert Show(i) + "" == Show(i);
    }
  }

  method ElemToString(s: Schema, o: Options, f: FieldDef, raw: bool, v: Value, out: StringBuilder, depth: nat)
    requires ValidSchema(s) && ValidField(s, f) && ElemOk(s, f, v)
    modifies out
    ensures out.str == old(out.str) + Text(ElemLayout(s, o, f, raw, v, depth), "")
    decreases v, 2
  {
    match v
    case VInt(i) => IntOrEnumToString(s, f, i, out);
    case VReal(r) =>
      out.Append(o.reals(r));
      assert o.reals(r) + "" == o.reals(r);
    case VString(x) =>
      if raw {
        AddQuoted(out, CString(x));
      } else {
        AddEscaped(out, x);
      }
    case VTable(t) => ObjectToString(s, o, f.ref.value, t, out, depth);
  }

  // What is left to print at each point of the two loops.

  lemma {:induction false} TextAppend(v: Layout, a: string, b: string)
    ensures Text(v, a) + b == Text(v, a + b)
    decreases v
  {
    match v
    case LObject(w, fs) =>
      TextFieldsAppend(fs, "}" + a, b);
      BracketAppend("{", w, TextFields(fs, "}" + a), b);
      ConcatAssoc("}", a, b);
    case LArray(w, xs) =>
      TextItemsAppend(xs, "]" + a, b);
      BracketAppend("[", w, TextItems(xs, "]" + a), b);
      ConcatAssoc("]", a, b);
    case LString(raw, _) => QuotedAppend(raw, a, b);
    case LNumber(raw, _) => ConcatAssoc(raw, a, b);
    case LWord(dash, word) => BracketAppend(Dash(dash), if word then "true" else "false", a, b);
  }

  lemma BracketAppend(x: string, w: string, a: string, b: string)
    ensures (x + (w + a)) + b == x + (w + (a + b))
  {
    ConcatAssoc(w, a, b);
    ConcatAssoc(x, w + a, b);
  }

  lemma QuotedAppend(raw: string, a: string, b: string)
    ensures Quoted(raw, a) + b == Quoted(raw, a + b)
  {
    ConcatAssoc("\"", a, b);
    BracketAppend("\"", raw, "\"" + a, b);
  }

  lemma KeyAppend(k: Key, a: string, b: string)
    ensures TextKey(k, a) + b == TextKey(k, a + b)
  {
    ConcatAssoc(k.w', a, b);
    ConcatAssoc(":", k.w' + a, b);
    ConcatAssoc(k.w, ":" + (k.w' + a), b);
    QuotedAppend(k.raw, k.w + (":" + (k.w' + a)), b);
  }

  lemma CommaAppend(w: string, w': string, a: string, b: string)
    ensures w + ("," + (w' + a)) + b == w + ("," + (w' + (a + b)))
  {
    ConcatAssoc(w', a, b);
    ConcatAssoc(",", w' + a, b);
    ConcatAssoc(w, "," + (w' + a), b);
  }

  lemma {:induction false} TextFieldsAppend(fs: LFields, a: string, b: string)
    ensures TextFields(fs, a) + b == TextFields(fs, a + b)
    decreases fs
  {
    match fs
    case LNoFields =>
    case LMissing(key, dash) =>
      KeyAppend(key, Dash(dash) + a, b);
      ConcatAssoc(Dash(dash), a, b);
    case LLastField(key, v, w) =>
      KeyAppend(key, Text(v, w + a), b);
      TextAppend(v, w + a, b);
      ConcatAssoc(w, a, b);
    case LField(key, v, w, w', rest) =>
      var r := TextFields(rest, a);
      KeyAppend(key, Text(v, w + ("," + (w' + r))), b);
      TextAppend(v, w + ("," + (w' + r)), b);
      CommaAppend(w, w', r, b);
      TextFieldsAppend(rest, a, b);
  }

  lemma {:induction false} TextItemsAppend(xs: LItems, a: string, b: string)
    ensures TextItems(xs, a) + b == TextItems(xs, a + b)
    decreases xs
  {
    match xs
    case LEnd(dash) => ConcatAssoc(Dash(dash), a, b);
    case LLastItem(v, w) =>
      TextAppend(v, w + a, b);
      ConcatAssoc(w, a, b);
    case LItem(v, w, w', rest) =>
      var r := TextItems(rest, a);
      TextAppend(v, w + ("," + (w' + r)), b);
      CommaAppend(w, w', r, b);
      TextItemsAppend(rest, a, b);
  }

  /** The comma between two items, with the space that follows it. */
  function Comma(wrap: bool, depth: nat): string {
    "," + Separator(wrap, depth)
  }

  /** After a value: the rest of the text, `more` items to come. */
  function ItemsLeft(s: Schema, o: Options, f: FieldDef, v: Value, k: nat, depth: nat): string
    requires ValidSchema(s) && ValidField(s, f) && f.repeating && FieldOk(s, f, v) && k <= |v.elems|
  {
    var wrap := o.multiLine && f.elem.Sequence?;
    if k == |v.elems| then Wrapping(wrap, depth) + "]"
    else
      (if k == 0 then Wrapping(wrap, depth + 1) else Comma(wrap, depth + 1)) +
      TextItems(ItemsLayout(s, o, f, v, k, depth), "]")
  }

  lemma ItemsLeftStep(s: Schema, o: Options, f: FieldDef, v: Value, k: nat, depth: nat)
    requires ValidSchema(s) && ValidField(s, f) && f.repeating && FieldOk(s, f, v) && k < |v.elems|
    ensures TextItems(ItemsLayout(s, o, f, v, k, depth), "]") ==
      Text(ElemLayout(s, o, f, true, v.elems[k], depth + 1), "") + ItemsLeft(s, o, f, v, k + 1, depth)
  {
    var x := ElemLayout(s, o, f, true, v.elems[k], depth + 1);
    var left := ItemsLeft(s, o, f, v, k + 1, depth);
    TextAppend(x, "", left);
    assert "" + left == left;
    if k < |v.elems| - 1 {
      var wrap := o.multiLine && f.elem.Sequence?;
      var r := TextItems(ItemsLayout(s, o, f, v, k + 1, depth), "]");
      ConcatAssoc(",", Separator(wrap, depth + 1), r);
      assert "" + ("," + (Separator(wrap, depth + 1) + r)) == left;
    }
  }

  /** What stands in for a vector that is too long is well-formed. */
  lemma TruncatedOk(n: nat)
    ensures Ok(Truncated(n))
  {
    var text := "... " + Show(n) + " elements ...";
    assert AllDigits(Show(n));
    assert Plain(text);
    PlainReads(text, "");
    assert text + "\"" + "" == text + "\"";
    assert " "[1..] == "";
  }

  method AddTruncated(out: StringBuilder, n: nat)
    modifies out
    ensures out.str == old(out.str) + Text(Truncated(n), "")
    ensures Ok(Truncated(n))
  {
    TruncatedOk(n);
    out.Append("[ \"... ");
    out.Append(Show(n));
    out.Append(" elements ...\" ]");
    TruncatedText(n);
    ConcatAssoc(old(out.str), "[ \"... ", Show(n));
    ConcatAssoc(old(out.str), "[ \"... " + Show(n), " elements ...\" ]");
  }

  lemma TruncatedText(n: nat)
    ensures Text(Truncated(n), "") == "[ \"... " + Show(n) + " elements ...\" ]"
  {
    var m := Show(n);
    var text := "... " + m + " elements ...";
    assert TextItems(LLastItem(LString(text, text), " "), "]" + "") == Quoted(text, " " + ("]" + ""));
    assert Text(Truncated(n), "") == "[" + (" " + Quoted(text, " " + ("]" + "")));
    assert Quoted(text, " " + ("]" + "")) == "\"... " + m + " elements ...\" ]";
  }

  /** The comma (unless this is the first item) and the line break or space in front of an item. */
  method AddSeparator(out: StringBuilder, sep: bool, wrap: bool, depth: nat)
    modifies out
    ensures out.str == old(out.str) + if sep then Comma(wrap, depth) else Wrapping(wrap, depth)
  {
    if sep {
      out.Append(if wrap then "," else ", ");
    }
    if wrap {
      AddWrapping(out, depth);
    }
  }

  method AddClosing(out: StringBuilder, bracket: string, wrap: bool, depth: nat)
    modifies out
    ensures out.str == old(out.str) + (Wrapping(wrap, depth) + bracket)
  {
    if wrap {
      AddWrapping(out, depth);
    }
    out.Append(bracket);
    ConcatAssoc(old(out.str), Wrapping(wrap, depth), bracket);
    assert "" + bracket == bracket;
  }

  /** The bracket, and then all the elements. */
  lemma ArrayText(s: Schema, o: Options, f: FieldDef, v: Value, depth: nat)
    requires ValidSchema(s) && ValidField(s, f) && f.repeating && FieldOk(s, f, v) && |v.elems| <= o.maxVectorSize
    ensures Text(FieldLayout(s, o, f, v, depth), "") == "[" + ItemsLeft(s, o, f, v, 0, depth)
  {
    hide ItemsLayout, Wrapping;
    assert "]" + "" == "]";
    assert Dash(false) + "]" == "]";
  }

  method VectorToString(s: Schema, o: Options, f: FieldDef, v: Value, out: StringBuilder, depth: nat)
    requires ValidSchema(s) && ValidField(s, f) && f.repeating && FieldOk(s, f, v)
    modifies out
    ensures out.str == old(out.str) + Text(FieldLayout(s, o, f, v, depth), "")
    decreases v, 3
  {
    if |v.elems| > o.maxVectorSize {
      AddTruncated(out, |v.elems|);
      return;
    }
    ArrayText(s, o, f, v, depth);
    hide Text, FieldLayout, TextItems, ItemsLayout, ElemLayout, Wrapping;
    var wrap := o.multiLine && f.elem.Sequence?;
    out.Append("[");
    ghost var start := out.str;
    for k := 0 to |v.elems|
      invariant out.str + ItemsLeft(s, o, f, v, k, depth) == start + ItemsLeft(s, o, f, v, 0, depth)
    {
      ghost var before := out.str;
      ghost var r := TextItems(ItemsLayout(s, o, f, v, k, depth), "]");
      AddSeparator(out, k != 0, wrap, depth + 1);
      ConcatAssoc(before, if k == 0 then Wrapping(wrap, depth + 1) else Comma(wrap, depth + 1), r);
      ItemsLeftStep(s, o, f, v, k, depth);
      ghost var mid := out.str;
      ElemToString(s, o, f, true, v.elems[k], out, depth + 1);
      ConcatAssoc(mid, Text(ElemLayout(s, o, f, true, v.elems[k], depth + 1), ""), ItemsLeft(s, o, f, v, k + 1, depth));
    }
    AddClosing(out, "]", wrap, depth);
    assert "]" + "" == "]";
    ConcatAssoc(old(out.str), "[", ItemsLeft(s, o, f, v, 0, depth));
  }

  method FieldToString(s: Schema, o: Options, f: FieldDef, v: Value, out: StringBuilder, depth: nat)
    requires ValidSchema(s) && ValidField(s, f) && FieldOk(s, f, v)
    modifies out
    ensures out.str == old(out.str) + Text(FieldLayout(s, o, f, v, depth), "")
    decreases v, 4
  {
    if f.repeating {
      VectorToString(s, o, f, v, out, depth);
    } else {
      ElemToString(s, o, f, false, v, out, depth);
    }
  }

  /** The rest of an object's text when the fields `ids` are still to come and `sep` says whether one came before. */
  function FieldsLeft(s: Schema, o: Options, ty: nat, t: Table, ids: seq<nat>, sep: bool, depth: nat): string
    requires ValidSchema(s) && IsTable(s, ty) && TableOk(s, ty, t)
    requires forall k :: 0 <= k < |ids| ==> ids[k] < |t| && t[ids[k]].Some?
  {
    var wrap := Wraps(o, FieldsOf(s, ty));
    if ids == [] then Wrapping(wrap, depth) + "}"
    else
      (if sep then Comma(wrap, depth + 1) else Wrapping(wrap, depth + 1)) +
      TextFields(FieldsLayout(s, o, ty, t, ids, depth), "}")
  }

  /** A key in front of the text of its value. */
  lemma KeyText(name: string, r: string)
    ensures TextKey(KeyLayout(name), r) == "\"" + name + "\": " + r
  {
    assert "" + (":" + (" " + r)) == ": " + r;
  }

  /** The text that follows the first field. */
  function AfterFirst(s: Schema, o: Options, ty: nat, t: Table, ids: seq<nat>, depth: nat): string
    requires ValidSchema(s) && IsTable(s, ty) && TableOk(s, ty, t) && ids != []
    requires forall k :: 0 <= k < |ids| ==> ids[k] < |t| && t[ids[k]].Some?
  {
    var wrap := Wraps(o, FieldsOf(s, ty));
    if |ids| == 1 then Wrapping(wrap, depth) + "}"
    else "" + ("," + (Separator(wrap, depth + 1) + TextFields(FieldsLayout(s, o, ty, t, ids[1..], depth), "}")))
  }

  lemma FirstField(s: Schema, o: Options, ty: nat, t: Table, ids: seq<nat>, depth: nat)
    requires ValidSchema(s) && IsTable(s, ty) && TableOk(s, ty, t) && ids != []
    requires forall k :: 0 <= k < |ids| ==> ids[k] < |t| && t[ids[k]].Some?
    ensures var f := FieldsOf(s, ty)[ids[0]];
      TextFields(FieldsLayout(s, o, ty, t, ids, depth), "}") ==
      TextKey(KeyLayout(f.name),
              Text(FieldLayout(s, o, f, t[ids[0]].value, depth + 1), AfterFirst(s, o, ty, t, ids, depth)))
  {
    hide Text, FieldLayout, Wrapping, Separator, TextKey, Wraps;
  }

  lemma AfterFirstIs(s: Schema, o: Options, ty: nat, t: Table, ids: seq<nat>, depth: nat)
    requires ValidSchema(s) && IsTable(s, ty) && TableOk(s, ty, t) && ids != []
    requires forall k :: 0 <= k < |ids| ==> ids[k] < |t| && t[ids[k]].Some?
    ensures AfterFirst(s, o, ty, t, ids, depth) == FieldsLeft(s, o, ty, t, ids[1..], true, depth)
  {
    hide TextFields, FieldsLayout, Wrapping, Wraps;
    if |ids| > 1 {
      var wrap := Wraps(o, FieldsOf(s, ty));
      ConcatAssoc(",", Separator(wrap, depth + 1), TextFields(FieldsLayout(s, o, ty, t, ids[1..], depth), "}"));
    }
  }

  lemma FieldsLeftStep(s: Schema, o: Options, ty: nat, t: Table, ids: seq<nat>, depth: nat)
    requires ValidSchema(s) && IsTable(s, ty) && TableOk(s, ty, t) && ids != []
    requires forall k :: 0 <= k < |ids| ==> ids[k] < |t| && t[ids[k]].Some?
    ensures var f := FieldsOf(s, ty)[ids[0]];
      TextFields(FieldsLayout(s, o, ty, t, ids, depth), "}") ==
      ("\"" + f.name + "\": ") + (Text(FieldLayout(s, o, f, t[ids[0]].value, depth + 1), "") +
        FieldsLeft(s, o, ty, t, ids[1..], true, depth))
  {
    hide Text, FieldLayout, TextKey, TextFields, FieldsLayout, AfterFirst, FieldsLeft;
    var f := FieldsOf(s, ty)[ids[0]];
    var v := FieldLayout(s, o, f, t[ids[0]].value, depth + 1);
    var left := FieldsLeft(s, o, ty, t, ids[1..], true, depth);
    FirstField(s, o, ty, t, ids, depth);
    AfterFirstIs(s, o, ty, t, ids, depth);
    TextAppend(v, "", left);
    assert "" + left == left;
    KeyText(f.name, Text(v, left));
  }

  method ShouldWrap(o: Options, fs: seq<FieldDef>) returns (wrap: bool)
    ensures wrap == Wraps(o, fs)
  {
    wrap := false;
    if o.multiLine {
      for i := 0 to |fs|
        invariant !wrap && forall j :: 0 <= j < i ==> !CausesWrapping(fs[j])
      {
        if CausesWrapping(fs[i]) {
          return true;
        }
      }
    }
  }

  method OneField(s: Schema, o: Options, f: FieldDef, v: Value, out: StringBuilder, depth: nat)
    requires ValidSchema(s) && ValidField(s, f) && FieldOk(s, f, v)
    modifies out
    ensures out.str == old(out.str) + (("\"" + f.name + "\": ") + Text(FieldLayout(s, o, f, v, depth), ""))
    decreases v, 5
  {
    out.Append("\"");
    out.Append(f.name);
    out.Append("\": ");
    ghost var mid := out.str;
    assert mid == old(out.str) + ("\"" + f.name + "\": ");
    FieldToString(s, o, f, v, out, depth);
    ConcatAssoc(old(out.str), "\"" + f.name + "\": ", Text(FieldLayout(s, o, f, v, depth), ""));
  }

  /** The next of the fields `ids` that are still to come. */
  method NextMember(s: Schema, o: Options, ty: nat, t: Table, i: nat, ghost ids: seq<nat>,
                    sep: bool, wrap: bool, out: StringBuilder, depth: nat)
    requires ValidSchema(s) && IsTable(s, ty) && TableOk(s, ty, t) && wrap == Wraps(o, FieldsOf(s, ty))
    requires forall k :: 0 <= k < |ids| ==> ids[k] < |t| && t[ids[k]].Some?
    requires ids != [] && ids[0] == i
    modifies out
    ensures out.str + FieldsLeft(s, o, ty, t, ids[1..], true, depth) ==
      old(out.str) + FieldsLeft(s, o, ty, t, ids, sep, depth)
    decreases VTable(t), 0
  {
    AddSeparator(out, sep, wrap, depth + 1);
    var f := FieldsOf(s, ty)[i];
    OneField(s, o, f, t[i].value, out, depth + 1);
    FieldsLeftStep(s, o, ty, t, ids, depth);
    Regroup(old(out.str), if sep then Comma(wrap, depth + 1) else Wrapping(wrap, depth + 1),
            "\"" + f.name + "\": ", Text(FieldLayout(s, o, f, t[i].value, depth + 1), ""),
            FieldsLeft(s, o, ty, t, ids[1..], true, depth));
  }

  /** Prints a table: its present fields in reflection order. */
  method ObjectToString(s: Schema, o: Options, ty: nat, t: Table, out: StringBuilder, depth: nat)
    requires ValidSchema(s) && IsTable(s, ty) && TableOk(s, ty, t)
    modifies out
    ensures out.str == old(out.str) + Text(ObjectLayout(s, o, ty, t, depth), "")
    decreases VTable(t), 1
  {
    var wrap := ShouldWrap(o, FieldsOf(s, ty));
    var printed := s[ty].printed;
    out.Append("{");
    ghost var start := out.str;
    ghost var all := FieldsLeft(s, o, ty, t, Present(t, printed), false, depth);
    var sep := false;
    assert printed[0..] == printed;
    for k := 0 to |printed|
      invariant out.str + FieldsLeft(s, o, ty, t, Present(t, printed[k..]), sep, depth) == start + all
    {
      var i := printed[k];
      assert printed[k..][0] == i && printed[k..][1..] == printed[k + 1..];
      if i < |t| && t[i].Some? {
        ghost var ids := Present(t, printed[k..]);
        assert ids[0] == i && ids[1..] == Present(t, printed[k + 1..]);
        NextMember(s, o, ty, t, i, ids, sep, wrap, out, depth);
        sep := true;
      }
    }
    AddClosing(out, "}", wrap, depth);
    assert out.str == start + all;
    ObjectText(s, o, ty, t, depth);
    ConcatAssoc(old(out.str), "{", all);
  }

  lemma ObjectText(s: Schema, o: Options, ty: nat, t: Table, depth: nat)
    requires ValidSchema(s) && IsTable(s, ty) && TableOk(s, ty, t)
    ensures Text(ObjectLayout(s, o, ty, t, depth), "") ==
      "{" + FieldsLeft(s, o, ty, t, Present(t, s[ty].printed), false, depth)
  {
    assert "}" + "" == "}";
  }

  lemma Regroup(a: string, b: string, c: string, d: string, e: string)
    ensures (a + b) + (c + d) + e == a + (b + (c + (d + e)))
  {
    ConcatAssoc(c, d, e);
    ConcatAssoc(a + b, c + d, e);
    ConcatAssoc(a, b, c + (d + e));
  }
}
