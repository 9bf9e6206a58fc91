/**
 What a tree means under a schema, and the proof that the two pushdown machines compute
 it: a text is parsed to a table exactly when it spells an object that means that table.
 */
module Evaluate {
  import opened Common
  import opened TokenMachine
  import opened Json
  import opened Grammar
  import opened Accepts
  import opened Recovers
  import opened Flat
  import opened ParserMachine

  /** The element a value makes in a field, or in the field's vector. */
  function EvalValue(env: Env, f: FieldDef, inVector: bool, j: Json): Option<Element>
    requires ValidSchema(env.types) && ValidField(env.types, f) && Proper(j)
    decreases j, 1
  {
    match j
    case Leaf(t) => ScalarElement(env, f, inVector, t)
    case Object(fs) =>
      if !f.elem.Sequence? then None
      else
        (match EvalFields(env, f.ref.value, fs)
        case None => None
        case Some(xs) => Some(OffsetElement(VTable(WriteTable(FieldsOf(env.types, f.ref.value), xs)))))
    case Array(items) =>
      if inVector then None
      else
        match EvalItems(env, f, items)
        case None => None
        case Some(xs) => VectorElement(f, xs)
  }

  function VectorElement(f: FieldDef, xs: seq<Element>): Option<Element> {
    match StoreAll(f.elem, xs)
    case None => None
    case Some(vs) => Some(OffsetElement(VVector(vs)))
  }

  function EvalItems(env: Env, f: FieldDef, items: Items): Option<seq<Element>>
    requires ValidSchema(env.types) && ValidField(env.types, f) && ProperItems(items)
    decreases items, 0
  {
    match items
    case NoItems => Some([])
    case Item(v, rest) =>
      match (EvalValue(env, f, true, v), EvalItems(env, f, rest))
      case (Some(x), Some(xs)) => Some([x] + xs)
      case (_, _) => None
  }

  function EvalFields(env: Env, ty: nat, fs: Fields): (r: Option<seq<FieldElement>>)
    requires ValidSchema(env.types) && IsTable(env.types, ty) && ProperFields(fs)
    ensures r.Some? ==> Indexed(FieldsOf(env.types, ty), r.value)
    decreases fs, 0
  {
    match fs
    case NoFields => Some([])
    case Missing(n) => if FieldIndex(FieldsOf(env.types, ty), n) == -1 then None else Some([])
    case Member(n, v, rest) =>
      var i := FieldIndex(FieldsOf(env.types, ty), n);
      if i == -1 then None
      else
        match (EvalValue(env, FieldsOf(env.types, ty)[i], false, v), EvalFields(env, ty, rest))
        case (Some(x), Some(xs)) => Some([FieldElement(i, x)] + xs)
        case (_, _) => None
  }

  /** The table an object means. */
  function EvalObject(env: Env, ty: nat, j: Json): Option<Table>
    requires ValidSchema(env.types) && IsTable(env.types, ty) && Proper(j) && j.Object?
  {
    match EvalFields(env, ty, j.fields)
    case None => None
    case Some(xs) => Some(WriteTable(FieldsOf(env.types, ty), xs))
  }

  // --------------------------------------------------- the machine computes the meaning

  /** A stack with context `c` on top, in which a value or field can be handled. */
  predicate Ready(env: Env, s: seq<Context>, c: Context) {
    && ValidSchema(env.types) && OkContext(env, c)
    && (forall i :: 0 <= i < |s| ==> OkContext(env, s[i]))
    && (!c.inVector ==> c.vectorElements == [])
  }

  function Resume(env: Env, ty: nat, o: Outcome, q: seq<Token>): Outcome
    requires IsTable(env.types, ty) && (o.Proceed? ==> OkParser(env, o.parser))
  {
    match o
    case Proceed(p) => Consume(env, ty, p, q)
    case _ => o
  }

  /** The value has been evaluated to `x`; queue it in `c` and go on. */
  function Then(env: Env, ty: nat, s: seq<Context>, c: Context, root: Option<Table>, x: Option<Element>,
      q: seq<Token>): Outcome
    requires IsTable(env.types, ty) && Ready(env, s, c) && c.fieldIndex >= 0
  {
    match x
    case None => Refuse
    case Some(e) => Consume(env, ty, Parser(s + [Queue(c, e)], root), q)
  }

  lemma ConsumeFirst(env: Env, ty: nat, p: Parser, t: Token, q: seq<Token>)
    requires OkParser(env, p) && IsTable(env.types, ty)
    ensures Consume(env, ty, p, [t] + q) == Resume(env, ty, Feed(env, ty, p, t), q)
  {
    assert ([t] + q)[1..] == q;
  }

  lemma TopOf(s: seq<Context>, c: Context)
    ensures Last(s + [c]) == c && ButLast(s + [c]) == s
  {
  }

  /** Queueing keeps the context in order. */
  lemma QueueReady(env: Env, s: seq<Context>, c: Context, x: Element)
    requires Ready(env, s, c) && c.fieldIndex >= 0
    ensures Ready(env, s, Queue(c, x)) && OkParser(env, Parser(s + [Queue(c, x)], None))
  {
  }

  lemma {:induction false} ValueConsumed(
    env: Env, ty: nat, s: seq<Context>, c: Context, root: Option<Table>, j: Json, q: seq<Token>)
    requires IsTable(env.types, ty) && Ready(env, s, c) && c.fieldIndex >= 0 && Proper(j)
    ensures ValidField(env.types, CurrentField(env, c))
    ensures Consume(env, ty, Parser(s + [c], root), Walk(j, q)) ==
      Then(env, ty, s, c, root, EvalValue(env, CurrentField(env, c), c.inVector, j), q)
    decreases j, 1
  {
    hide ScalarElement, WriteTable, FieldIndex;
    TopOf(s, c);
    var p, f := Parser(s + [c], root), CurrentField(env, c);
    assert ValidField(env.types, f);
    match j
    case Leaf(t) =>
      ConsumeFirst(env, ty, p, t, q);
    case Object(fs) =>
      ObjectConsumed(env, ty, s, c, root, fs, q);
    case Array(items) =>
      ConsumeFirst(env, ty, p, StartArray, WalkItems(items, [EndArray] + q));
      if !c.inVector {
        ArrayConsumed(env, ty, s, c, root, items, q);
      }
  }

  lemma {:induction false} ObjectConsumed(
    env: Env, ty: nat, s: seq<Context>, c: Context, root: Option<Table>, fs: Fields, q: seq<Token>)
    requires IsTable(env.types, ty) && Ready(env, s, c) && c.fieldIndex >= 0 && ProperFields(fs)
    ensures ValidField(env.types, CurrentField(env, c))
    ensures Consume(env, ty, Parser(s + [c], root), Walk(Object(fs), q)) ==
      Then(env, ty, s, c, root, EvalValue(env, CurrentField(env, c), c.inVector, Object(fs)), q)
    decreases fs, 3
  {
    hide WriteTable;
    TopOf(s, c);
    var p, f := Parser(s + [c], root), CurrentField(env, c);
    assert ValidField(env.types, f);
    ConsumeFirst(env, ty, p, StartObject, WalkFields(fs, [EndObject] + q));
    if f.elem.Sequence? {
      var n := NewContext(f.ref.value);
      FieldsConsumed(env, ty, s + [c], n, root, fs, q);
      match EvalFields(env, f.ref.value, fs)
      case None =>
      case Some(xs) => assert [] + xs == xs;
    }
  }

  lemma {:induction false} ArrayConsumed(
    env: Env, ty: nat, s: seq<Context>, c: Context, root: Option<Table>, items: Items, q: seq<Token>)
    requires IsTable(env.types, ty) && Ready(env, s, c) && c.fieldIndex >= 0 && !c.inVector && ProperItems(items)
    ensures ValidField(env.types, CurrentField(env, c))
    ensures Consume(env, ty, Parser(s + [c.(inVector := true)], root), WalkItems(items, [EndArray] + q)) ==
      match EvalItems(env, CurrentField(env, c), items)
      case None => Refuse
      case Some(xs) => Then(env, ty, s, c, root, VectorElement(CurrentField(env, c), xs), q)
    decreases items, 2
  {
    var f, v := CurrentField(env, c), c.(inVector := true);
    assert ValidField(env.types, f);
    ItemsConsumed(env, ty, s, v, root, items, [EndArray] + q);
    match EvalItems(env, f, items)
    case None =>
    case Some(xs) =>
      assert [] + xs == xs;
      VectorFed(env, ty, s, c, root, xs);
      ConsumeFirst(env, ty, Parser(s + [v.(vectorElements := xs)], root), EndArray, q);
  }

  lemma VectorFed(env: Env, ty: nat, s: seq<Context>, c: Context, root: Option<Table>, xs: seq<Element>)
    requires IsTable(env.types, ty) && Ready(env, s, c) && c.fieldIndex >= 0 && !c.inVector
    ensures var p := Parser(s + [c.(inVector := true, vectorElements := xs)], root);
      OkParser(env, p) && Feed(env, ty, p, EndArray) ==
        match VectorElement(CurrentField(env, c), xs)
        case None => Refuse
        case Some(x) => Proceed(Parser(s + [Queue(c, x)], root))
  {
    TopOf(s, c.(inVector := true, vectorElements := xs));
  }

  lemma {:induction false} ItemsConsumed(
    env: Env, ty: nat, s: seq<Context>, c: Context, root: Option<Table>, items: Items, q: seq<Token>)
    requires IsTable(env.types, ty) && Ready(env, s, c) && c.fieldIndex >= 0 && c.inVector && ProperItems(items)
    ensures ValidField(env.types, CurrentField(env, c))
    ensures Consume(env, ty, Parser(s + [c], root), WalkItems(items, q)) ==
      match EvalItems(env, CurrentField(env, c), items)
      case None => Refuse
      case Some(xs) => Consume(env, ty, Parser(s + [c.(vectorElements := c.vectorElements + xs)], root), q)
    decreases items, 1
  {
    assert ValidField(env.types, CurrentField(env, c));
    match items
    case NoItems =>
      assert c.vectorElements + [] == c.vectorElements;
    case Item(v, rest) =>
      ValueConsumed(env, ty, s, c, root, v, WalkItems(rest, q));
      match EvalValue(env, CurrentField(env, c), true, v)
      case None =>
      case Some(x) =>
        var d := Queue(c, x);
        QueueReady(env, s, c, x);
        ItemsConsumed(env, ty, s, d, root, rest, q);
        match EvalItems(env, CurrentField(env, c), rest)
        case None =>
        case Some(xs) => ConcatAssoc(c.vectorElements, [x], xs);
  }

  lemma {:induction false} FieldsConsumed(
    env: Env, ty: nat, s: seq<Context>, c: Context, root: Option<Table>, fs: Fields, q: seq<Token>)
    requires IsTable(env.types, ty) && Ready(env, s, c) && !c.inVector && ProperFields(fs)
    ensures Consume(env, ty, Parser(s + [c], root), WalkFields(fs, [EndObject] + q)) ==
      match EvalFields(env, c.ty, fs)
      case None => Refuse
      case Some(xs) => Resume(env, ty, Finish(s, root, WriteTable(FieldsOf(env.types, c.ty), c.elements + xs)), q)
    decreases fs, 1
  {
    TopOf(s, c);
    var p := Parser(s + [c], root);
    match fs
    case NoFields =>
      assert c.elements + [] == c.elements;
      ConsumeFirst(env, ty, p, EndObject, q);
    case Missing(n) =>
      ConsumeFirst(env, ty, p, Field(n), [EndObject] + q);
      var i := FieldIndex(FieldsOf(env.types, c.ty), n);
      if i != -1 {
        var d := c.(fieldIndex := i);
        TopOf(s, d);
        assert c.elements + [] == c.elements;
        ConsumeFirst(env, ty, Parser(s + [d], root), EndObject, q);
      }
    case Member(n, v, rest) =>
      var tail := WalkFields(rest, [EndObject] + q);
      ConsumeFirst(env, ty, p, Field(n), Walk(v, tail));
      var i := FieldIndex(FieldsOf(env.types, c.ty), n);
      if i != -1 {
        MemberConsumed(env, ty, s, c.(fieldIndex := i), root, fs, q);
      }
  }

  lemma {:induction false} MemberConsumed(
    env: Env, ty: nat, s: seq<Context>, c: Context, root: Option<Table>, fs: Fields, q: seq<Token>)
    requires IsTable(env.types, ty) && Ready(env, s, c) && !c.inVector && c.fieldIndex >= 0
    requires fs.Member? && ProperFields(fs)
    ensures ValidField(env.types, CurrentField(env, c))
    ensures Consume(env, ty, Parser(s + [c], root), Walk(fs.value, WalkFields(fs.rest, [EndObject] + q))) ==
      match (EvalValue(env, CurrentField(env, c), false, fs.value), EvalFields(env, c.ty, fs.rest))
      case (Some(x), Some(xs)) =>
        Resume(env, ty, Finish(s, root,
          WriteTable(FieldsOf(env.types, c.ty), c.elements + ([FieldElement(c.fieldIndex, x)] + xs))), q)
      case (_, _) => Refuse
    decreases fs, 0
  {
    var v, rest := fs.value, fs.rest;
    assert ValidField(env.types, CurrentField(env, c));
    ValueConsumed(env, ty, s, c, root, v, WalkFields(rest, [EndObject] + q));
    match EvalValue(env, CurrentField(env, c), false, v)
    case None =>
    case Some(x) =>
      QueueReady(env, s, c, x);
      FieldsConsumed(env, ty, s, Queue(c, x), root, rest, q);
      match EvalFields(env, c.ty, rest)
      case None =>
      case Some(xs) => ConcatAssoc(c.elements, [FieldElement(c.fieldIndex, x)], xs);
  }

  // -------------------------------------------------------------------- the theorem

  /** What the parser makes of a text. */
  function Parse(env: Env, ty: nat, text: string): Outcome
    requires ValidSchema(env.types) && IsTable(env.types, ty)
  {
    Consume(env, ty, Parser([], None), Tokens(text))
  }

  lemma ObjectParsed(env: Env, ty: nat, j: Json)
    requires ValidSchema(env.types) && IsTable(env.types, ty) && Proper(j) && j.Object?
    ensures Consume(env, ty, Parser([], None), Walk(j, [End])) ==
      match EvalObject(env, ty, j) case None => Refuse case Some(t) => Accept(t)
  {
    var p := Parser([], None);
    ConsumeFirst(env, ty, p, StartObject, WalkFields(j.fields, [EndObject] + [End]));
    assert [] + [NewContext(ty)] == [NewContext(ty)];
    FieldsConsumed(env, ty, [], NewContext(ty), None, j.fields, [End]);
    match EvalFields(env, ty, j.fields)
    case None =>
    case Some(xs) =>
      assert [] + xs == xs;
      var t := WriteTable(FieldsOf(env.types, ty), xs);
      assert Consume(env, ty, Parser([], Some(t)), [End]) == Accept(t);
  }

  lemma {:induction false} AcceptSeesEnd(env: Env, ty: nat, p: Parser, ts: seq<Token>)
    requires OkParser(env, p) && IsTable(env.types, ty) && Consume(env, ty, p, ts).Accept?
    ensures End in ts
    decreases |ts|
  {
    var o := Feed(env, ty, p, ts[0]);
    if o.Proceed? {
      AcceptSeesEnd(env, ty, o.parser, ts[1..]);
    }
  }

  lemma {:induction false} EndIsLast(m: Machine)
    requires Safe(m) && End in Run(m)
    ensures Last(Run(m)) == End
    decreases Measure(m)
  {
    hide Step;
    var s := Step(m);
    if !Final(s.token) {
      EndIsLast(s.machine);
    }
  }

  /**
   Tokenizer and parser together: a text is accepted with a table exactly when it spells
   an object, and that object means the table.
   */
  lemma ParseMeaning(env: Env, ty: nat, text: string, t: Table)
    requires ValidSchema(env.types) && IsTable(env.types, ty)
    ensures Parse(env, ty, text) == Accept(t) <==>
      exists j: Json :: Spelling(text, j) && Proper(j) && j.Object? && EvalObject(env, ty, j) == Some(t)
  {
    if Parse(env, ty, text) == Accept(t) {
      AcceptSeesEnd(env, ty, Parser([], None), Tokens(text));
      EndIsLast(Start(text));
      var j := AcceptedSpelling(text);
      SpellingProper(text, j);
      SpellingAccepted(text, j);
      ObjectParsed(env, ty, j);
    }
    if j: Json :| Spelling(text, j) && Proper(j) && j.Object? && EvalObject(env, ty, j) == Some(t) {
      SpellingAccepted(text, j);
      ObjectParsed(env, ty, j);
    }
  }
}
