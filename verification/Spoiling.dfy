/**
 What the parser cannot repair: once a field or an element of a table under construction
 differs from what is expected there, no further text makes it accept the expected table.
 */
module Spoiling {
  import opened Common
  import opened Lexer
  import opened TokenMachine
  import opened Flat
  import opened ParserMachine
  import opened Lockstep
  import opened Evaluate
  import Conformance

  // ------------------------------------------------------------------- spoiled contexts

  /** The first element given for a field decides, and it is not what the table has there. */
  ghost predicate FieldSpoiled(fs: seq<FieldDef>, xs: seq<FieldElement>, u: Table)
    requires |u| == |fs|
  {
    exists i :: 0 <= i < |fs| && FirstFor(i, xs).Some? && StoreField(fs[i], FirstFor(i, xs).value) != u[i]
  }

  /** An element of the vector is not stored as the value has it. */
  ghost predicate VectorDiffers(e: Elem, xs: seq<Element>, x: Option<Value>) {
    x.Some? && x.value.VVector? &&
    exists k :: 0 <= k < |xs| && k < |x.value.elems| && Store(e, xs[k]) != Some(x.value.elems[k])
  }

  predicate Sized(env: Env, c: Context, u: Table) {
    OkContext(env, c) && |u| == |FieldsOf(env.types, c.ty)|
  }

  /** The context will not become the table `u`. */
  ghost predicate Spoiled(env: Env, c: Context, u: Table)
    requires Sized(env, c, u)
  {
    || FieldSpoiled(FieldsOf(env.types, c.ty), c.elements, u)
    || (c.inVector && c.fieldIndex >= 0 && FirstFor(c.fieldIndex, c.elements).None? &&
        VectorDiffers(CurrentField(env, c).elem, c.vectorElements, u[c.fieldIndex]))
  }

  /** The next value of the context belongs where the table `u` has `v`. */
  predicate Expects(env: Env, c: Context, u: Table, v: Value)
    requires Sized(env, c, u)
  {
    && c.fieldIndex >= 0 && FirstFor(c.fieldIndex, c.elements).None?
    && var x := u[c.fieldIndex];
       if c.inVector then
         x.Some? && x.value.VVector? && |c.vectorElements| < |x.value.elems| && x.value.elems[|c.vectorElements|] == v
       else x == Some(v)
  }

  lemma {:induction false} FirstForAppend(i: nat, xs: seq<FieldElement>, y: FieldElement)
    ensures FirstFor(i, xs + [y]) ==
      if FirstFor(i, xs).Some? then FirstFor(i, xs) else if y.index == i then Some(y.element) else None
    decreases |xs|
  {
    if xs == [] {
      assert xs + [y] == [y];
    } else {
      FirstForAppend(i, xs[1..], y);
      assert (xs + [y])[1..] == xs[1..] + [y];
    }
  }

  lemma AppendSpoiled(fs: seq<FieldDef>, xs: seq<FieldElement>, y: FieldElement, u: Table)
    requires |u| == |fs| && FieldSpoiled(fs, xs, u)
    ensures FieldSpoiled(fs, xs + [y], u)
  {
    var i :| 0 <= i < |fs| && FirstFor(i, xs).Some? && StoreField(fs[i], FirstFor(i, xs).value) != u[i];
    FirstForAppend(i, xs, y);
  }

  /** Queueing more elements does not help. */
  lemma QueueStaysSpoiled(env: Env, c: Context, u: Table, x: Element)
    requires Sized(env, c, u) && Spoiled(env, c, u) && c.fieldIndex >= 0
    requires Sized(env, Queue(c, x), u)
    ensures Spoiled(env, Queue(c, x), u)
  {
    var fs := FieldsOf(env.types, c.ty);
    if FieldSpoiled(fs, c.elements, u) {
      if !c.inVector {
        AppendSpoiled(fs, c.elements, FieldElement(c.fieldIndex, x), u);
      }
    } else {
      var e, es := CurrentField(env, c).elem, u[c.fieldIndex].value.elems;
      var k :| 0 <= k < |c.vectorElements| && k < |es| && Store(e, c.vectorElements[k]) != Some(es[k]);
      assert (c.vectorElements + [x])[k] == c.vectorElements[k];
    }
  }

  /** Whether the element ends up as something else than the value. */
  predicate Mismatch(f: FieldDef, inVector: bool, x: Element, v: Value) {
    if inVector then Store(f.elem, x) != Some(v) else StoreField(f, x) != Some(v)
  }

  lemma QueueSpoils(env: Env, c: Context, u: Table, v: Value, x: Element)
    requires Sized(env, c, u) && Expects(env, c, u, v) && Mismatch(CurrentField(env, c), c.inVector, x, v)
    requires Sized(env, Queue(c, x), u)
    ensures Spoiled(env, Queue(c, x), u)
  {
    if c.inVector {
      assert (c.vectorElements + [x])[|c.vectorElements|] == x;
    } else {
      FirstForAppend(c.fieldIndex, c.elements, FieldElement(c.fieldIndex, x));
    }
  }

  /** A spoiled vector makes a spoiled field, or is refused. */
  lemma FinishStaysSpoiled(env: Env, c: Context, u: Table, vs: seq<Value>)
    requires Sized(env, c, u) && Spoiled(env, c, u) && c.inVector && c.fieldIndex >= 0
    requires StoreAll(CurrentField(env, c).elem, c.vectorElements) == Some(vs)
    ensures var y := FieldElement(c.fieldIndex, OffsetElement(VVector(vs)));
      FieldSpoiled(FieldsOf(env.types, c.ty), c.elements + [y], u)
  {
    var fs, y := FieldsOf(env.types, c.ty), FieldElement(c.fieldIndex, OffsetElement(VVector(vs)));
    if FieldSpoiled(fs, c.elements, u) {
      AppendSpoiled(fs, c.elements, y, u);
    } else {
      var e, es := fs[c.fieldIndex].elem, u[c.fieldIndex].value.elems;
      var k :| 0 <= k < |c.vectorElements| && k < |es| && Store(e, c.vectorElements[k]) != Some(es[k]);
      Conformance.StoredAll(e, c.vectorElements, k);
      FirstForAppend(c.fieldIndex, c.elements, y);
    }
  }

  /** The table written is another one. */
  lemma WrittenDiffers(fs: seq<FieldDef>, xs: seq<FieldElement>, u: Table)
    requires |u| == |fs| && Indexed(fs, xs) && FieldSpoiled(fs, xs, u)
    ensures WriteTable(fs, xs) != u
  {
    var i :| 0 <= i < |fs| && FirstFor(i, xs).Some? && StoreField(fs[i], FirstFor(i, xs).value) != u[i];
    WriteTableField(fs, xs, i);
  }

  // ---------------------------------------------------------------------- doomed stacks

  /** Each of the first contexts waits for the table that the next one is expected to become. */
  ghost predicate Chained(env: Env, s: seq<Context>, us: seq<Table>) {
    && 0 < |us| <= |s|
    && (forall m :: 0 <= m < |us| ==> Sized(env, s[m], us[m]))
    && (forall m :: 0 <= m < |us| - 1 ==> Expects(env, s[m], us[m], VTable(us[m + 1])))
  }

  /** And the last of them is spoiled. */
  ghost predicate Doomed(env: Env, s: seq<Context>, us: seq<Table>) {
    Chained(env, s, us) && Spoiled(env, s[|us| - 1], Last(us))
  }

  /** Only contexts above the spoiled one have changed. */
  lemma DoomedAbove(env: Env, s: seq<Context>, s': seq<Context>, us: seq<Table>)
    requires Doomed(env, s, us) && |us| <= |s'| && s[..|us|] == s'[..|us|]
    ensures Doomed(env, s', us)
  {
    assert forall m :: 0 <= m < |us| ==> s'[m] == s'[..|us|][m] == s[m];
  }

  /** The spoiled one has changed, and still is. */
  lemma DoomedTop(env: Env, s: seq<Context>, s': seq<Context>, us: seq<Table>)
    requires Doomed(env, s, us) && |s| == |s'| == |us| && ButLast(s) == ButLast(s')
    requires Sized(env, Last(s'), Last(us)) && Spoiled(env, Last(s'), Last(us))
    ensures Doomed(env, s', us)
  {
    assert forall m :: 0 <= m < |us| - 1 ==> s'[m] == ButLast(s')[m] == ButLast(s)[m] == s[m];
  }

  // ------------------------------------------------------------------------- every token

  /** A token that only changes the top context leaves it spoiled. */
  lemma TopStaysSpoiled(env: Env, ty: nat, p: Parser, t: Token, u: Table)
    requires OkParser(env, p) && IsTable(env.types, ty) && Along(t) && p.stack != []
    requires Sized(env, Last(p.stack), u) && Spoiled(env, Last(p.stack), u)
    requires t.Field? || t.StartArray? ==> !Last(p.stack).inVector
    requires Feed(env, ty, p, t).Proceed?
    ensures var s := Feed(env, ty, p, t).parser.stack;
      |s| == |p.stack| && ButLast(s) == ButLast(p.stack) && Sized(env, Last(s), u) && Spoiled(env, Last(s), u)
  {
    var c := Last(p.stack);
    var s := Feed(env, ty, p, t).parser.stack;
    assert OkContext(env, s[|s| - 1]);
    match t
    case Field(_) => assert ButLast(s) == ButLast(p.stack);
    case StartArray => assert ButLast(s) == ButLast(p.stack);
    case EndArray =>
      assert ButLast(s) == ButLast(p.stack);
      FinishStaysSpoiled(env, c, u, StoreAll(CurrentField(env, c).elem, c.vectorElements).value);
    case NumberValue(_) => ScalarStaysSpoiled(env, p, t, u);
    case StringValue(_) => ScalarStaysSpoiled(env, p, t, u);
    case TrueValue => ScalarStaysSpoiled(env, p, t, u);
    case FalseValue => ScalarStaysSpoiled(env, p, t, u);
  }

  lemma ScalarStaysSpoiled(env: Env, p: Parser, t: Token, u: Table)
    requires OkParser(env, p) && p.stack != [] && Last(p.stack).fieldIndex >= 0
    requires t.NumberValue? || t.StringValue? || t.TrueValue? || t.FalseValue?
    requires Sized(env, Last(p.stack), u) && Spoiled(env, Last(p.stack), u) && FeedScalar(env, p, t).Proceed?
    ensures var s := FeedScalar(env, p, t).parser.stack;
      |s| == |p.stack| && ButLast(s) == ButLast(p.stack) && Sized(env, Last(s), u) && Spoiled(env, Last(s), u)
  {
    var c := Last(p.stack);
    var s := FeedScalar(env, p, t).parser.stack;
    assert ButLast(s) == ButLast(p.stack);
    assert OkContext(env, s[|s| - 1]);
    assert ValidField(env.types, CurrentField(env, c));
    QueueStaysSpoiled(env, c, u, ScalarElement(env, CurrentField(env, c), c.inVector, t).value);
  }

  /** The end of an object, with another one around it. */
  lemma EndStaysDoomed(env: Env, p: Parser, us: seq<Table>) returns (us': seq<Table>)
    requires OkParser(env, p) && |p.stack| > 1 && Doomed(env, p.stack, us) && !Last(p.stack).inVector
    requires FeedEndObject(env, p).Proceed?
    ensures Doomed(env, FeedEndObject(env, p).parser.stack, us') && us'[0] == us[0]
  {
    hide Spoiled, Expects, WriteTable;
    var s, k := p.stack, ButLast(p.stack);
    var c, x := Last(k), OffsetElement(VTable(WriteTable(FieldsOf(env.types, Last(s).ty), Last(s).elements)));
    var s' := FeedEndObject(env, p).parser.stack;
    assert s' == ButLast(k) + [Queue(c, x)];
    assert OkContext(env, s'[|s'| - 1]);
    if |us| == |s| {
      us' := ButLast(us);
      PopSpoils(env, s, us);
      assert forall m :: 0 <= m < |us'| - 1 ==> s'[m] == s[m];
    } else if |us| == |k| {
      us' := us;
      QueueStaysSpoiled(env, c, Last(us), x);
      DoomedAbove(env, s, k, us);
      DoomedTop(env, k, s', us);
    } else {
      us' := us;
      DoomedAbove(env, s, s', us);
    }
  }

  /** A spoiled table spoils the context that waits for it. */
  lemma PopSpoils(env: Env, s: seq<Context>, us: seq<Table>)
    requires |s| == |us| > 1 && Doomed(env, s, us) && !Last(s).inVector
    ensures var c, u := s[|s| - 2], us[|us| - 2];
      var x := OffsetElement(VTable(WriteTable(FieldsOf(env.types, Last(s).ty), Last(s).elements)));
      c.fieldIndex >= 0 && Sized(env, Queue(c, x), u) && Spoiled(env, Queue(c, x), u)
  {
    var c, u := s[|s| - 2], us[|us| - 2];
    var w := WriteTable(FieldsOf(env.types, Last(s).ty), Last(s).elements);
    WrittenDiffers(FieldsOf(env.types, Last(s).ty), Last(s).elements, Last(us));
    assert Expects(env, s[|us| - 2], us[|us| - 2], VTable(us[|us| - 2 + 1]));
    QueueSpoils(env, c, u, VTable(Last(us)), OffsetElement(VTable(w)));
  }

  lemma TopKind(s: seq<Context>)
    requires s != []
    ensures Flatten(s) != [] && (Last(Flatten(s)).InArray? <==> Last(s).inVector)
  {
  }

  /** Whatever token comes, the stack stays doomed, unless the root is finished. */
  lemma DoomedStep(env: Env, ty: nat, m: Machine, p: Parser, us: seq<Table>) returns (us': seq<Table>)
    requires Agrees(m) && InStep(m, p) && OkParser(env, p) && IsTable(env.types, ty) && Doomed(env, p.stack, us)
    requires !Final(Step(m).token) && Feed(env, ty, p, Step(m).token).Proceed?
    requires Feed(env, ty, p, Step(m).token).parser.stack != []
    ensures Doomed(env, Feed(env, ty, p, Step(m).token).parser.stack, us') && us'[0] == us[0]
  {
    hide Step, Doomed;
    var t := Step(m).token;
    var q := Feed(env, ty, p, t).parser;
    StepEffect(m);
    NotEmpty(env, p.stack, us);
    TopKind(p.stack);
    if t.StartObject? {
      us' := us;
      assert q.stack[..|p.stack|] == p.stack;
      assert q.stack[..|us|] == p.stack[..|us|];
      DoomedAbove(env, p.stack, q.stack, us);
    } else if t.EndObject? {
      us' := EndStaysDoomed(env, p, us);
    } else {
      us' := us;
      AlongStaysDoomed(env, ty, p, t, us);
    }
  }

  lemma NotEmpty(env: Env, s: seq<Context>, us: seq<Table>)
    requires Doomed(env, s, us)
    ensures 0 < |us| <= |s| && Sized(env, s[|us| - 1], Last(us)) && Spoiled(env, s[|us| - 1], Last(us))
  {
  }

  lemma AlongStaysDoomed(env: Env, ty: nat, p: Parser, t: Token, us: seq<Table>)
    requires OkParser(env, p) && IsTable(env.types, ty) && Along(t) && Doomed(env, p.stack, us)
    requires t.Field? || t.StartArray? ==> !Last(p.stack).inVector
    requires Feed(env, ty, p, t).Proceed?
    ensures Doomed(env, Feed(env, ty, p, t).parser.stack, us)
  {
    hide Doomed, Spoiled;
    NotEmpty(env, p.stack, us);
    var s := Feed(env, ty, p, t).parser.stack;
    if |us| == |p.stack| {
      TopStaysSpoiled(env, ty, p, t, Last(us));
      DoomedTop(env, p.stack, s, us);
    } else {
      TopOnly(env, ty, p, t);
      assert s[..|us|] == ButLast(s)[..|us|] == ButLast(p.stack)[..|us|] == p.stack[..|us|];
      DoomedAbove(env, p.stack, s, us);
    }
  }

  lemma TopOnly(env: Env, ty: nat, p: Parser, t: Token)
    requires OkParser(env, p) && IsTable(env.types, ty) && Along(t) && p.stack != []
    requires Feed(env, ty, p, t).Proceed?
    ensures var s := Feed(env, ty, p, t).parser.stack; |s| == |p.stack| && ButLast(s) == ButLast(p.stack)
  {
  }

  /** When the root is finished it is another table. */
  lemma RootDiffers(env: Env, ty: nat, m: Machine, p: Parser, us: seq<Table>)
    requires Agrees(m) && InStep(m, p) && OkParser(env, p) && IsTable(env.types, ty) && Doomed(env, p.stack, us)
    requires !Final(Step(m).token) && Feed(env, ty, p, Step(m).token).Proceed?
    requires Feed(env, ty, p, Step(m).token).parser.stack == []
    ensures var q := Feed(env, ty, p, Step(m).token).parser; q.root.Some? && q.root.value != us[0]
    ensures Step(m).machine.state.ExpectEnd?
  {
    StepEffect(m);
    TopKind(p.stack);
    EndsAtEnd(m);
    WrittenDiffers(FieldsOf(env.types, p.stack[0].ty), p.stack[0].elements, us[0]);
  }

  lemma EndsAtEnd(m: Machine)
    requires Agrees(m) && Step(m).token.EndObject? && Step(m).machine.stack == []
    ensures Step(m).machine.state.ExpectEnd?
  {
    hide ReadNumber, ReadString;
  }

  /** No run from a doomed stack accepts the expected table. */
  lemma {:induction false} DoomedRun(env: Env, ty: nat, m: Machine, p: Parser, us: seq<Table>)
    requires Agrees(m) && InStep(m, p) && OkParser(env, p) && IsTable(env.types, ty) && Doomed(env, p.stack, us)
    ensures Consume(env, ty, p, Run(m)) != Accept(us[0])
    decreases Measure(m)
  {
    hide Step, Feed, Doomed, InStep;
    var s := Step(m);
    StaysInStep(env, ty, m, p);
    NotEmpty(env, p.stack, us);
    var o := Feed(env, ty, p, s.token);
    FinalFeed(env, ty, p, s.token);
    assert Run(m) == [s.token] + if Final(s.token) then [] else Run(s.machine);
    ConsumeFirst(env, ty, p, s.token, if Final(s.token) then [] else Run(s.machine));
    if !Final(s.token) && o.Proceed? {
      if o.parser.stack == [] {
        RootDiffers(env, ty, m, p, us);
        LastStep(env, ty, s.machine, o.parser);
      } else {
        var us' := DoomedStep(env, ty, m, p, us);
        DoomedRun(env, ty, s.machine, o.parser, us');
      }
    }
  }

  lemma FinalFeed(env: Env, ty: nat, p: Parser, t: Token)
    requires OkParser(env, p) && IsTable(env.types, ty)
    ensures Feed(env, ty, p, t).Accept? ==> t.End?
    ensures Feed(env, ty, p, t).Proceed? ==> !Final(t)
  {
  }

  lemma LastStep(env: Env, ty: nat, m: Machine, p: Parser)
    requires Safe(m) && m.state.ExpectEnd? && OkParser(env, p) && IsTable(env.types, ty)
    requires p.stack == [] && p.root.Some?
    ensures Consume(env, ty, p, Run(m)) == if m.data == "" then Accept(p.root.value) else Refuse
  {
    assert Run(m) == [if m.data == "" then End else Error];
  }
}
