/** Where printing loses a value, parsing does not bring it back: the exact round trip. */
module Losses {
  import opened Common
  import opened Lexer
  import opened TokenMachine
  import opened Decimal
  import opened Json
  import opened Grammar
  import opened Accepts
  import opened Flat
  import opened ParserMachine
  import opened Lockstep
  import opened Evaluate
  import opened Printer
  import opened RoundTrip
  import opened Spoiling

  // -------------------------------------------------------------- what is printed in full

  /** No floating point number, and no vector so long that it is not printed. */
  predicate WholeElem(s: Schema, o: Options, f: FieldDef, v: Value)
    requires ValidSchema(s) && ValidField(s, f) && ElemOk(s, f, v)
    decreases v, 1
  {
    !v.VReal? && (v.VTable? ==> Whole(s, o, f.ref.value, v.fields))
  }

  predicate WholeField(s: Schema, o: Options, f: FieldDef, v: Value)
    requires ValidSchema(s) && ValidField(s, f) && FieldOk(s, f, v)
    decreases v, 2
  {
    if f.repeating then
      |v.elems| <= o.maxVectorSize && forall k :: 0 <= k < |v.elems| ==> WholeElem(s, o, f, v.elems[k])
    else WholeElem(s, o, f, v)
  }

  predicate Whole(s: Schema, o: Options, ty: nat, t: Table)
    requires ValidSchema(s) && IsTable(s, ty) && TableOk(s, ty, t)
    decreases VTable(t), 0
  {
    forall i :: 0 <= i < |t| && t[i].Some? ==> WholeField(s, o, FieldsOf(s, ty)[i], t[i].value)
  }

  // ------------------------------------------------------------------------- a lost leaf

  /** The parser waits for values in all its contexts, the tokenizer in step with it. */
  ghost predicate Waiting(env: Env, s: seq<Context>, c: Context, us: seq<Table>) {
    && Ready(env, s, c) && c.fieldIndex >= 0
    && |us| == |s| + 1 && Chained(env, s + [c], us)
  }

  function MachineAt(data: string, s: seq<Context>): Machine {
    Machine(ExpectValue, data, Flatten(s))
  }

  /** What is left of the run at a value. */
  function RunAt(env: Env, ty: nat, s: seq<Context>, root: Option<Table>, data: string): Outcome
    requires OkParser(env, Parser(s, root)) && IsTable(env.types, ty) && s != []
  {
    TopKind(s);
    Consume(env, ty, Parser(s, root), Run(MachineAt(data, s)))
  }

  lemma WaitingInStep(env: Env, s: seq<Context>, c: Context, us: seq<Table>, root: Option<Table>, data: string)
    requires Waiting(env, s, c, us)
    ensures OkParser(env, Parser(s + [c], root)) && Agrees(MachineAt(data, s + [c]))
    ensures InStep(MachineAt(data, s + [c]), Parser(s + [c], root))
  {
    TopKind(s + [c]);
    forall i | 0 <= i < |s|
      ensures (s + [c])[i].fieldIndex >= 0
    {
      assert Expects(env, (s + [c])[i], us[i], VTable(us[i + 1]));
    }
  }

  /** The next token is an error, or a scalar that is not the value expected. */
  predicate Wrong(env: Env, c: Context, t: Token, v: Value)
    requires OkContext(env, c) && c.fieldIndex >= 0 && ValidField(env.types, CurrentField(env, c))
  {
    Final(t) ||
    ((t.NumberValue? || t.StringValue?) &&
     var x := ScalarElement(env, CurrentField(env, c), c.inVector, t);
     x.Some? ==> Mismatch(CurrentField(env, c), c.inVector, x.value, v))
  }

  lemma WrongLeaf(env: Env, ty: nat, s: seq<Context>, c: Context, us: seq<Table>, root: Option<Table>,
      data: string, v: Value)
    requires Waiting(env, s, c, us) && IsTable(env.types, ty) && Expects(env, c, Last(us), v)
    requires ValidField(env.types, CurrentField(env, c)) && MachineAt(data, s + [c]).stack != []
    requires Wrong(env, c, Step(MachineAt(data, s + [c])).token, v)
    ensures OkParser(env, Parser(s + [c], root)) && RunAt(env, ty, s + [c], root, data) != Accept(us[0])
  {
    hide Step, Expects, Mismatch;
    WaitingInStep(env, s, c, us, root, data);
    var m, p := MachineAt(data, s + [c]), Parser(s + [c], root);
    var t := Step(m).token;
    StaysInStep(env, ty, m, p);
    FinalFeed(env, ty, p, t);
    assert Run(m) == [t] + if Final(t) then [] else Run(Step(m).machine);
    ConsumeFirst(env, ty, p, t, if Final(t) then [] else Run(Step(m).machine));
    var o := Feed(env, ty, p, t);
    if o.Proceed? {
      TopOf(s, c);
      var x := ScalarElement(env, CurrentField(env, c), c.inVector, t).value;
      QueueReady(env, s, c, x);
      QueueSpoils(env, c, Last(us), v, x);
      ChainedTop(env, s, c, Queue(c, x), us);
      DoomedRun(env, ty, Step(m).machine, o.parser, us);
    }
  }

  /** Only the last context has changed. */
  lemma ChainedTop(env: Env, s: seq<Context>, c: Context, c': Context, us: seq<Table>)
    requires Chained(env, s + [c], us) && |us| == |s| + 1 && Sized(env, c', Last(us))
    ensures Chained(env, s + [c'], us)
  {
    assert forall m :: 0 <= m < |s| ==> (s + [c'])[m] == (s + [c])[m];
  }

  /** What a scalar delivers, if it delivers anything. */
  lemma ScalarToken(t: Token, d: string, k: seq<Kind>)
    requires k != [] && !Final(t)
    ensures var s := TokenMachine.Scalar(t, d, k); s.token == t || Final(s.token)
  {
  }

  /** A large unsigned integer is read as a floating point number, which its field does not take. */
  lemma IntegerWrong(env: Env, c: Context, k: seq<Kind>, i: int, r: string)
    requires OkContext(env, c) && c.fieldIndex >= 0 && ValidField(env.types, CurrentField(env, c)) && k != []
    requires Integral(CurrentField(env, c).elem) && i >= INT64 && Tail(r)
    ensures Wrong(env, c, Step(Machine(ExpectValue, Show(i) + r, k)).token, VInt(i))
  {
    hide ReadNumber, IsNumber, Show, AsInt, Wrong;
    var d := Show(i) + r;
    ShowIsNumber(i);
    ShownAsInt(i);
    DoubleWrong(env, c, i);
    NumberReads(Show(i), Show(i), r);
    NumberExpected(d, k);
    ScalarToken(NumberValue(Show(i)), r, k);
    assert Step(Machine(ExpectValue, d, k)) == TokenMachine.Scalar(NumberValue(Show(i)), r, k);
  }

  lemma DoubleWrong(env: Env, c: Context, i: int)
    requires OkContext(env, c) && c.fieldIndex >= 0 && ValidField(env.types, CurrentField(env, c))
    requires Integral(CurrentField(env, c).elem) && AsInt(Show(i)).None?
    ensures Wrong(env, c, NumberValue(Show(i)), VInt(i))
    ensures forall t :: Final(t) ==> Wrong(env, c, t, VInt(i))
  {
    hide AsInt, Show;
  }

  /** Where a quote is followed by no string, there is no other value either. */
  lemma NoString(d: string, k: seq<Kind>)
    requires d != "" && d[0] == '\"' && ReadString(d).None? && k != []
    ensures Final(Step(Machine(ExpectValue, d, k)).token)
  {
    hide ReadString;
    assert ReadNumber(d) == NoNumber(d);
    assert Closer(Last(k))[0] != d[0];
  }

  lemma {:induction false} CStringPrefix(x: string)
    ensures CString(x) <= x && ('\0' in x ==> |CString(x)| < |x|)
  {
    if x != "" && x[0] != '\0' {
      CStringPrefix(x[1..]);
      assert x == [x[0]] + x[1..];
    }
  }

  /** A vector's string that needs escaping or ends early is read as another string. */
  lemma StringDiffers(x: string, r: string)
    requires !(Plain(x) && '\0' !in x)
    ensures ReadString(Quoted(CString(x), r)).Some? ==> ReadString(Quoted(CString(x), r)).value.0 != x
  {
    var y := CString(x);
    CStringPrefix(x);
    if '\0' !in x {
      CStringWhole(x);
    }
    assert Quoted(y, r)[1..] == y + "\"" + r;
    if Plain(y) {
      PlainReads(y, r);
    } else if ReadString(Quoted(y, r)).Some? {
      MisreadDiffers(y, r);
    }
  }

  lemma StringWrong(env: Env, c: Context, k: seq<Kind>, x: string, r: string)
    requires OkContext(env, c) && c.fieldIndex >= 0 && ValidField(env.types, CurrentField(env, c)) && k != []
    requires CurrentField(env, c).elem.String? && !(Plain(x) && '\0' !in x)
    ensures Wrong(env, c, Step(Machine(ExpectValue, Quoted(CString(x), r), k)).token, VString(x))
  {
    hide ReadString, Plain, CString;
    var d := Quoted(CString(x), r);
    StringDiffers(x, r);
    match ReadString(d)
    case None => NoString(d, k);
    case Some((u, q)) =>
      ScalarToken(StringValue(u), q, k);
      assert Step(Machine(ExpectValue, d, k)) == TokenMachine.Scalar(StringValue(u), q, k);
  }

  // --------------------------------------------------------------------- printed texts

  lemma ShowHead(i: int)
    ensures Show(i) != "" && (Show(i)[0] == '-' || Digit(Show(i)[0]))
  {
  }

  lemma IntSolid(s: Schema, f: FieldDef, i: int, r: string)
    requires ValidField(s, f)
    ensures Solid(Text(IntLayout(s, f, i), r))
  {
    hide Show, EnumName, Cast;
    ShowHead(i);
    ShowHead(Cast(Long, i));
  }

  lemma ElemSolid(s: Schema, o: Options, f: FieldDef, v: Value, depth: nat, r: string)
    requires ValidSchema(s) && ValidField(s, f) && ElemOk(s, f, v) && !v.VReal?
    ensures Solid(Text(ElemLayout(s, o, f, f.repeating, v, depth), r))
  {
    hide IntLayout, FieldsLayout, TextFields;
    match v
    case VInt(i) => IntSolid(s, f, i, r);
    case VString(_) =>
    case VTable(_) =>
  }

  lemma FieldSolid(s: Schema, o: Options, f: FieldDef, v: Value, depth: nat, r: string)
    requires ValidSchema(s) && ValidField(s, f) && FieldOk(s, f, v) && WholeField(s, o, f, v)
    ensures Solid(Text(FieldLayout(s, o, f, v, depth), r))
  {
    if !f.repeating {
      ElemSolid(s, o, f, v, depth, r);
    }
  }

  lemma WrappingTail(wrap: bool, depth: nat, r: string)
    requires Tail(r)
    ensures Tail(Wrapping(wrap, depth) + r)
  {
    assert !wrap ==> Wrapping(wrap, depth) + r == r;
  }

  // ------------------------------------------------------------- up to the first lost leaf

  lemma NothingIsSpace()
    ensures IsSpace("")
  {
  }

  /** What is left of the run at a field. */
  function RunFields(env: Env, ty: nat, s: seq<Context>, root: Option<Table>, data: string): Outcome
    requires OkParser(env, Parser(s, root)) && IsTable(env.types, ty) && s != []
  {
    TopKind(s);
    Consume(env, ty, Parser(s, root), Run(Machine(ExpectField, data, Flatten(s))))
  }

  /** The opening bracket of an object with fields. */
  lemma ObjectOpens(env: Env, ty: nat, s: seq<Context>, c: Context, root: Option<Table>, w: string, data: string)
    requires Ready(env, s, c) && c.fieldIndex >= 0 && IsTable(env.types, ty) && OkParser(env, Parser(s + [c], root))
    requires IsSpace(w) && Solid(data) && data[0] != '}'
    requires CurrentField(env, c).elem.Sequence? && ValidField(env.types, CurrentField(env, c))
    ensures var s' := s + [c] + [NewContext(CurrentField(env, c).ref.value)];
      && OkParser(env, Parser(s', root))
      && RunAt(env, ty, s + [c], root, "{" + (w + data)) == RunFields(env, ty, s', root, data)
  {
    hide Step, Run;
    var k, text := Flatten(s + [c]), "{" + (w + data);
    var n := NewContext(CurrentField(env, c).ref.value);
    TopKind(s + [c]);
    TopOf(s, c);
    FlattenPush(s + [c], n);
    assert Flatten(s + [c] + [n]) == k + [InObject];
    BracketStep(w, data, k);
    var m, next := Machine(ExpectValue, text, k), Machine(ExpectField, data, k + [InObject]);
    RunStep(m, next, StartObject);
    assert Feed(env, ty, Parser(s + [c], root), StartObject) == Proceed(Parser(s + [c] + [n], root));
    ConsumeFirst(env, ty, Parser(s + [c], root), StartObject, Run(next));
  }

  lemma BracketStep(w: string, data: string, k: seq<Kind>)
    requires IsSpace(w) && Solid(data) && data[0] != '}' && k != []
    ensures Step(Machine(ExpectValue, "{" + (w + data), k)) ==
      Stepped(Machine(ExpectField, data, k + [InObject]), StartObject)
  {
    hide IsSpace, SkipSpace, ReadNumber, ReadString;
    SpaceStops(w, data);
    assert ("{" + (w + data))[1..] == w + data;
  }

  /** The opening bracket of an array. */
  lemma ArrayOpens(env: Env, ty: nat, s: seq<Context>, c: Context, root: Option<Table>, w: string, data: string)
    requires Ready(env, s, c) && c.fieldIndex >= 0 && IsTable(env.types, ty) && OkParser(env, Parser(s + [c], root))
    requires IsSpace(w) && Solid(data) && !c.inVector
    ensures var s' := s + [c.(inVector := true)];
      OkParser(env, Parser(s', root)) &&
      RunAt(env, ty, s + [c], root, "[" + (w + data)) == RunAt(env, ty, s', root, data)
  {
    hide Step, Run;
    var k, c' := Flatten(s + [c]), c.(inVector := true);
    TopKind(s + [c]);
    TopOf(s, c);
    FlattenPush(s, c);
    FlattenPush(s, c');
    SquareStep(w, data, k);
    assert Flatten(s + [c']) == k + [InArray];
    var m, next := Machine(ExpectValue, "[" + (w + data), k), Machine(ExpectValue, data, k + [InArray]);
    RunStep(m, next, StartArray);
    ConsumeFirst(env, ty, Parser(s + [c], root), StartArray, Run(next));
  }

  lemma SquareStep(w: string, data: string, k: seq<Kind>)
    requires IsSpace(w) && Solid(data) && k != []
    ensures Step(Machine(ExpectValue, "[" + (w + data), k)) ==
      Stepped(Machine(ExpectValue, data, k + [InArray]), StartArray)
  {
    hide IsSpace, SkipSpace, ReadNumber, ReadString;
    SpaceStops(w, data);
    assert ("[" + (w + data))[1..] == w + data && ("[" + (w + data))[0] == '[';
  }

  /** The name of a field. */
  lemma KeyRead(env: Env, ty: nat, s: seq<Context>, c: Context, root: Option<Table>, i: nat, data: string)
    requires Ready(env, s, c) && IsTable(env.types, ty) && OkParser(env, Parser(s + [c], root)) && Solid(data)
    requires i < |FieldsOf(env.types, c.ty)| && OkKey(KeyLayout(FieldsOf(env.types, c.ty)[i].name))
    requires FieldIndex(FieldsOf(env.types, c.ty), FieldsOf(env.types, c.ty)[i].name) == i
    ensures var s' := s + [c.(fieldIndex := i)];
      && OkParser(env, Parser(s', root))
      && RunFields(env, ty, s + [c], root, TextKey(KeyLayout(FieldsOf(env.types, c.ty)[i].name), data)) ==
         RunAt(env, ty, s', root, data)
  {
    hide Run, OkKey, Solid, TextKey;
    var key, c' := KeyLayout(FieldsOf(env.types, c.ty)[i].name), c.(fieldIndex := i);
    TopKind(s + [c]);
    TopOf(s, c);
    FlattenPush(s, c);
    FlattenPush(s, c');
    KeyStep(key, data, Flatten(s + [c]));
    ConsumeFirst(env, ty, Parser(s + [c], root), Field(key.name), Run(MachineAt(data, s + [c'])));
  }

  /** The new context is expected to become the table. */
  lemma PushedChain(env: Env, s: seq<Context>, c: Context, us: seq<Table>, t: Table, ty: nat)
    requires Waiting(env, s, c, us) && Expects(env, c, Last(us), VTable(t))
    requires IsTable(env.types, ty) && |t| == |FieldsOf(env.types, ty)|
    ensures Ready(env, s + [c], NewContext(ty)) && Chained(env, s + [c] + [NewContext(ty)], us + [t])
  {
    var s', us' := s + [c] + [NewContext(ty)], us + [t];
    forall m | 0 <= m < |us'|
      ensures Sized(env, s'[m], us'[m]) && (m < |us'| - 1 ==> Expects(env, s'[m], us'[m], VTable(us'[m + 1])))
    {
      if m < |us| {
        assert s'[m] == (s + [c])[m] && us'[m] == us[m];
        assert m < |us| - 1 ==> us'[m + 1] == us[m + 1];
      }
    }
  }

  /** Whatever is lost is present and listed. */
  lemma LostPresent(s: Schema, o: Options, ty: nat, t: Table)
    requires ReflectedSchema(s) && IsTable(s, ty) && TableOk(s, ty, t) && !Printable(s, o, ty, t)
    ensures Listed(t, Present(t, s[ty].printed)) && FieldLost(s, o, ty, t, Present(t, s[ty].printed))
  {
    var ids := Present(t, s[ty].printed);
    var i :| 0 <= i < |t| && t[i].Some? && !PrintableField(s, o, FieldsOf(s, ty)[i], t[i].value);
    assert Reflected(s[ty]);
    PresentComplete(t, s[ty].printed, i);
    var j :| 0 <= j < |ids| && ids[j] == i;
    assert t[ids[j]].Some?;
  }

  /** A value that comes back is queued, and the run goes on behind it. */
  lemma GoodValue(env: Env, ty: nat, s: seq<Context>, c: Context, root: Option<Table>, l: Layout, x: Element,
      sep: string, next: string)
    requires Ready(env, s, c) && c.fieldIndex >= 0 && IsTable(env.types, ty) && IsSpace(sep) && Solid(next)
    requires ValidField(env.types, CurrentField(env, c)) && Ok(l) && Proper(Erase(l))
    requires EvalValue(env, CurrentField(env, c), c.inVector, Erase(l)) == Some(x)
    requires OkParser(env, Parser(s + [c], root))
    ensures Ready(env, s, Queue(c, x)) && OkParser(env, Parser(s + [Queue(c, x)], root))
    ensures Flatten(s + [c]) == Flatten(s + [Queue(c, x)]) != []
    ensures RunAt(env, ty, s + [c], root, Text(l, "" + ("," + (sep + next)))) ==
      Consume(env, ty, Parser(s + [Queue(c, x)], root),
              Run(Machine(if c.inVector then ExpectValue else ExpectField, next, Flatten(s + [c]))))
  {
    hide Run, Text, IsSpace, Solid, Ok;
    var k, d := Flatten(s + [c]), "," + (sep + next);
    TopKind(s + [c]);
    NothingIsSpace();
    Commas(sep, next, k);
    ValueRuns(l, "", d, k);
    ValueConsumed(env, ty, s, c, root, Erase(l), Rest(k, d));
    QueueReady(env, s, c, x);
    FlattenPush(s, c);
    FlattenPush(s, Queue(c, x));
    TopOf(s, c);
  }

  /** Some element from the `n`-th on does not come back. */
  ghost predicate ItemLost(s: Schema, o: Options, f: FieldDef, v: Value, n: nat)
    requires ValidSchema(s) && ValidField(s, f) && f.repeating && FieldOk(s, f, v)
  {
    exists j :: n <= j < |v.elems| && !PrintableElem(s, o, f, true, v.elems[j])
  }

  /** Some field of those listed does not come back. */
  ghost predicate FieldLost(s: Schema, o: Options, ty: nat, t: Table, ids: seq<nat>)
    requires ValidSchema(s) && IsTable(s, ty) && TableOk(s, ty, t) && Listed(t, ids)
  {
    exists j :: 0 <= j < |ids| && !PrintableField(s, o, FieldsOf(s, ty)[ids[j]], t[ids[j]].value)
  }

  predicate Listed(t: Table, ids: seq<nat>) {
    forall k :: 0 <= k < |ids| ==> ids[k] < |t| && t[ids[k]].Some?
  }

  /** Only fields that come back have been read. */
  predicate ReadSoFar(s: Schema, o: Options, ty: nat, t: Table, xs: seq<FieldElement>)
    requires ValidSchema(s) && IsTable(s, ty) && TableOk(s, ty, t)
  {
    forall j :: 0 <= j < |xs| ==>
      xs[j].index < |t| && t[xs[j].index].Some? &&
      PrintableField(s, o, FieldsOf(s, ty)[xs[j].index], t[xs[j].index].value)
  }

  lemma {:induction false} NotReadYet(xs: seq<FieldElement>, i: nat)
    requires forall j :: 0 <= j < |xs| ==> xs[j].index != i
    ensures FirstFor(i, xs).None?
    decreases |xs|
  {
    if xs != [] {
      NotReadYet(xs[1..], i);
    }
  }

  lemma {:induction false} LostElem(
    env: Env, ty: nat, o: Options, v: Value, depth: nat, s: seq<Context>, c: Context, us: seq<Table>,
    root: Option<Table>, r: string)
    requires ReflectedSchema(env.types) && IsTable(env.types, ty) && Waiting(env, s, c, us) && Tail(r)
    requires OkParser(env, Parser(s + [c], root)) && Expects(env, c, Last(us), v)
    requires var f := CurrentField(env, c);
      && ValidField(env.types, f) && f.repeating == c.inVector && ElemOk(env.types, f, v)
      && WholeElem(env.types, o, f, v) && !PrintableElem(env.types, o, f, f.repeating, v)
    ensures RunAt(env, ty, s + [c], root,
      Text(ElemLayout(env.types, o, CurrentField(env, c), c.inVector, v, depth), r)) != Accept(us[0])
    decreases v, 1
  {
    hide Waiting, Expects, RunAt, Tail, Wrong;
    WaitingReady(env, s, c, us);
    TopKind(s + [c]);
    var f, k := CurrentField(env, c), Flatten(s + [c]);
    match v
    case VInt(i) =>
      IntegerWrong(env, c, k, i, r);
      WrongLeaf(env, ty, s, c, us, root, Show(i) + r, v);
    case VString(x) =>
      StringWrong(env, c, k, x, r);
      WrongLeaf(env, ty, s, c, us, root, Quoted(CString(x), r), v);
    case VTable(t) =>
      LostObject(env, ty, o, t, depth, s, c, us, root, r);
  }

  lemma {:induction false} LostObject(
    env: Env, ty: nat, o: Options, t: Table, depth: nat, s: seq<Context>, c: Context, us: seq<Table>,
    root: Option<Table>, r: string)
    requires ReflectedSchema(env.types) && IsTable(env.types, ty) && Waiting(env, s, c, us)
    requires OkParser(env, Parser(s + [c], root)) && Expects(env, c, Last(us), VTable(t))
    requires var f := CurrentField(env, c);
      && ValidField(env.types, f) && f.elem.Sequence? && TableOk(env.types, f.ref.value, t)
      && Whole(env.types, o, f.ref.value, t) && !Printable(env.types, o, f.ref.value, t)
    ensures RunAt(env, ty, s + [c], root,
      Text(ObjectLayout(env.types, o, CurrentField(env, c).ref.value, t, depth), r)) != Accept(us[0])
    decreases VTable(t), 0
  {
    hide Waiting, Chained, Expects, RunAt, RunFields, Ready, Printable, Whole, FieldsLayout, TextFields, IsSpace,
      FieldLost;
    WaitingReady(env, s, c, us);
    var ty' := CurrentField(env, c).ref.value;
    var ids := Present(t, env.types[ty'].printed);
    LostPresent(env.types, o, ty', t);
    LostListed(env.types, o, ty', t, ids);
    FieldsHead(env.types, o, ty', t, ids, depth, "}" + r);
    PushedChain(env, s, c, us, t, ty');
    var wrap := Wraps(o, FieldsOf(env.types, ty'));
    WrappingIsSpace(wrap, depth + 1);
    ObjectOpens(env, ty, s, c, root, Wrapping(wrap, depth + 1),
                TextFields(FieldsLayout(env.types, o, ty', t, ids, depth), "}" + r));
    LostFields(env, ty, o, t, ids, depth, s + [c], NewContext(ty'), us + [t], root, r);
  }

  lemma WaitingReady(env: Env, s: seq<Context>, c: Context, us: seq<Table>)
    requires Waiting(env, s, c, us)
    ensures Ready(env, s, c) && c.fieldIndex >= 0 && OkContext(env, c)
    ensures |us| == |s| + 1 && Chained(env, s + [c], us) && Sized(env, c, Last(us))
  {
    assert (s + [c])[|us| - 1] == c;
  }

  lemma ReadyContext(env: Env, s: seq<Context>, c: Context)
    requires Ready(env, s, c)
    ensures OkContext(env, c)
  {
  }

  lemma LostListed(s: Schema, o: Options, ty: nat, t: Table, ids: seq<nat>)
    requires ValidSchema(s) && IsTable(s, ty) && TableOk(s, ty, t) && Listed(t, ids) && FieldLost(s, o, ty, t, ids)
    ensures ids != []
  {
  }

  /** The text of what follows the first field. */
  function FieldTail(s: Schema, o: Options, ty: nat, t: Table, ids: seq<nat>, depth: nat, q: string): string
    requires ValidSchema(s) && IsTable(s, ty) && TableOk(s, ty, t) && Listed(t, ids) && ids != []
  {
    var wrap := Wraps(o, FieldsOf(s, ty));
    if |ids| == 1 then Wrapping(wrap, depth) + q
    else "" + ("," + (Separator(wrap, depth + 1) + TextFields(FieldsLayout(s, o, ty, t, ids[1..], depth), q)))
  }

  lemma FieldsHead(s: Schema, o: Options, ty: nat, t: Table, ids: seq<nat>, depth: nat, q: string)
    requires ValidSchema(s) && IsTable(s, ty) && TableOk(s, ty, t) && Listed(t, ids) && ids != []
    ensures var f := FieldsOf(s, ty)[ids[0]];
      TextFields(FieldsLayout(s, o, ty, t, ids, depth), q) ==
      TextKey(KeyLayout(f.name),
              Text(FieldLayout(s, o, f, t[ids[0]].value, depth + 1), FieldTail(s, o, ty, t, ids, depth, q)))
    ensures var text := TextFields(FieldsLayout(s, o, ty, t, ids, depth), q); Solid(text) && text[0] != '}'
  {
    hide Text, FieldLayout, Wrapping, Separator, Wraps;
  }

  lemma FieldTailIsTail(s: Schema, o: Options, ty: nat, t: Table, ids: seq<nat>, depth: nat, r: string)
    requires ValidSchema(s) && IsTable(s, ty) && TableOk(s, ty, t) && Listed(t, ids) && ids != []
    ensures Tail(FieldTail(s, o, ty, t, ids, depth, "}" + r))
  {
    hide FieldsLayout, TextFields, Wrapping;
    WrappingTail(Wraps(o, FieldsOf(s, ty)), depth, "}" + r);
  }

  lemma {:induction false} LostFields(
    env: Env, ty: nat, o: Options, t: Table, ids: seq<nat>, depth: nat, s: seq<Context>, c: Context, us: seq<Table>,
    root: Option<Table>, r: string)
    requires ReflectedSchema(env.types) && IsTable(env.types, ty) && Ready(env, s, c) && !c.inVector
    requires |us| == |s| + 1 && Chained(env, s + [c], us) && Last(us) == t && OkParser(env, Parser(s + [c], root))
    requires TableOk(env.types, c.ty, t) && Whole(env.types, o, c.ty, t) && Listed(t, ids)
    requires FieldLost(env.types, o, c.ty, t, ids) && ReadSoFar(env.types, o, c.ty, t, c.elements)
    ensures RunFields(env, ty, s + [c], root,
      TextFields(FieldsLayout(env.types, o, c.ty, t, ids, depth), "}" + r)) != Accept(us[0])
    decreases VTable(t), 0, |ids|, 1
  {
    hide RunAt, RunFields, Ready, Chained, Printable, Whole, TextFields, FieldsLayout, FieldLayout, FieldTail,
      FieldLost, ReadSoFar, OkKey, Text, Tail, Waiting, Expects, PrintableField, Solid, OkParser;
    ReadyContext(env, s, c);
    LostListed(env.types, o, c.ty, t, ids);
    var fs, i := FieldsOf(env.types, c.ty), ids[0];
    var f, v := fs[i], t[i].value;
    var tail := FieldTail(env.types, o, c.ty, t, ids, depth, "}" + r);
    var l, c1 := FieldLayout(env.types, o, f, v, depth + 1), c.(fieldIndex := i);
    NameFound(env.types, c.ty, i);
    FieldsHead(env.types, o, c.ty, t, ids, depth, "}" + r);
    WholeAt(env.types, o, c.ty, t, i);
    FieldSolid(env.types, o, f, v, depth + 1, tail);
    KeyRead(env, ty, s, c, root, i, Text(l, tail));
    AtField(env, o, s, c, us, t, i);
    if PrintableField(env.types, o, f, v) {
      LostLater(env.types, o, c.ty, t, ids);
      LostRest(env, ty, o, t, ids, depth, s, c1, us, root, r);
    } else {
      FieldTailIsTail(env.types, o, c.ty, t, ids, depth, r);
      LostValue(env, ty, o, v, depth + 1, s, c1, us, root, tail);
    }
  }

  lemma WholeAt(s: Schema, o: Options, ty: nat, t: Table, i: nat)
    requires ValidSchema(s) && IsTable(s, ty) && TableOk(s, ty, t) && Whole(s, o, ty, t) && i < |t| && t[i].Some?
    ensures var f := FieldsOf(s, ty)[i];
      ValidField(s, f) && FieldOk(s, f, t[i].value) && WholeField(s, o, f, t[i].value)
  {
  }

  /** The name has been read; if the field is lost, it has not been read before. */
  lemma AtField(env: Env, o: Options, s: seq<Context>, c: Context, us: seq<Table>, t: Table, i: nat)
    requires Ready(env, s, c) && !c.inVector && |us| == |s| + 1 && Chained(env, s + [c], us) && Last(us) == t
    requires TableOk(env.types, c.ty, t) && i < |t| && t[i].Some? && ReadSoFar(env.types, o, c.ty, t, c.elements)
    ensures var c1 := c.(fieldIndex := i);
      && Ready(env, s, c1) && Waiting(env, s, c1, us) && Sized(env, c1, t)
      && (!PrintableField(env.types, o, FieldsOf(env.types, c.ty)[i], t[i].value) ==> Expects(env, c1, t, t[i].value))
  {
    hide PrintableField;
    var c1 := c.(fieldIndex := i);
    assert (s + [c])[|us| - 1] == c;
    ChainedTop(env, s, c, c1, us);
    if !PrintableField(env.types, o, FieldsOf(env.types, c.ty)[i], t[i].value) {
      NotReadYet(c.elements, i);
    }
  }

  lemma LostLater(s: Schema, o: Options, ty: nat, t: Table, ids: seq<nat>)
    requires ValidSchema(s) && IsTable(s, ty) && TableOk(s, ty, t) && Listed(t, ids) && FieldLost(s, o, ty, t, ids)
    requires ids != [] && PrintableField(s, o, FieldsOf(s, ty)[ids[0]], t[ids[0]].value)
    ensures |ids| > 1 && Listed(t, ids[1..]) && FieldLost(s, o, ty, t, ids[1..])
  {
    hide PrintableField;
    var j :| 0 <= j < |ids| && !PrintableField(s, o, FieldsOf(s, ty)[ids[j]], t[ids[j]].value);
    assert ids[1..][j - 1] == ids[j];
  }

  lemma ReadMore(s: Schema, o: Options, ty: nat, t: Table, xs: seq<FieldElement>, i: nat, x: Element)
    requires ValidSchema(s) && IsTable(s, ty) && TableOk(s, ty, t) && ReadSoFar(s, o, ty, t, xs)
    requires i < |t| && t[i].Some? && PrintableField(s, o, FieldsOf(s, ty)[i], t[i].value)
    ensures ReadSoFar(s, o, ty, t, xs + [FieldElement(i, x)])
  {
    hide PrintableField;
  }

  /** A field that comes back, and a lost one after it. */
  lemma {:induction false} LostRest(
    env: Env, ty: nat, o: Options, t: Table, ids: seq<nat>, depth: nat, s: seq<Context>, c: Context, us: seq<Table>,
    root: Option<Table>, r: string)
    requires ReflectedSchema(env.types) && IsTable(env.types, ty) && Ready(env, s, c) && !c.inVector
    requires |us| == |s| + 1 && Waiting(env, s, c, us) && Last(us) == t && OkParser(env, Parser(s + [c], root))
    requires TableOk(env.types, c.ty, t) && Whole(env.types, o, c.ty, t) && Listed(t, ids) && |ids| > 1
    requires c.fieldIndex == ids[0] && PrintableField(env.types, o, CurrentField(env, c), t[ids[0]].value)
    requires Listed(t, ids[1..]) && FieldLost(env.types, o, c.ty, t, ids[1..])
    requires ReadSoFar(env.types, o, c.ty, t, c.elements)
    ensures RunAt(env, ty, s + [c], root,
      Text(FieldLayout(env.types, o, CurrentField(env, c), t[ids[0]].value, depth + 1),
           FieldTail(env.types, o, c.ty, t, ids, depth, "}" + r))) != Accept(us[0])
    decreases VTable(t), 0, |ids|, 0
  {
    hide RunAt, RunFields, Chained, Printable, Whole, TextFields, FieldsLayout, FieldLayout, FieldLost, ReadSoFar,
      OkKey, Text, Waiting, PrintableField, Solid, Ok, EvalValue, Wrapping, IsSpace, Separator;
    var fs, i := FieldsOf(env.types, c.ty), ids[0];
    var f, v := fs[i], t[i].value;
    var l := FieldLayout(env.types, o, f, v, depth + 1);
    WholeAt(env.types, o, c.ty, t, i);
    FieldRoundTrip(env, o, f, v, depth + 1);
    var x := EvalValue(env, f, false, Erase(l)).value;
    var wrap, next := Wraps(o, fs), TextFields(FieldsLayout(env.types, o, c.ty, t, ids[1..], depth), "}" + r);
    WrappingIsSpace(wrap, depth + 1);
    FieldsHead(env.types, o, c.ty, t, ids[1..], depth, "}" + r);
    GoodValue(env, ty, s, c, root, l, x, Separator(wrap, depth + 1), next);
    NextField(env, ty, s, c, root, l, x, Separator(wrap, depth + 1), next);
    var c' := Queue(c, x);
    WaitingReady(env, s, c, us);
    ChainedTop(env, s, c, c', us);
    ReadMore(env.types, o, c.ty, t, c.elements, i, x);
    LostFields(env, ty, o, t, ids[1..], depth, s, c', us, root, r);
  }

  lemma NextField(env: Env, ty: nat, s: seq<Context>, c: Context, root: Option<Table>, l: Layout, x: Element,
      sep: string, next: string)
    requires Ready(env, s, c) && c.fieldIndex >= 0 && !c.inVector && IsTable(env.types, ty)
    requires OkParser(env, Parser(s + [c], root)) && OkParser(env, Parser(s + [Queue(c, x)], root))
    requires Flatten(s + [c]) == Flatten(s + [Queue(c, x)]) != []
    ensures RunFields(env, ty, s + [Queue(c, x)], root, next) ==
      Consume(env, ty, Parser(s + [Queue(c, x)], root), Run(Machine(ExpectField, next, Flatten(s + [c]))))
  {
  }

  lemma {:induction false} LostValue(
    env: Env, ty: nat, o: Options, v: Value, depth: nat, s: seq<Context>, c: Context, us: seq<Table>,
    root: Option<Table>, r: string)
    requires ReflectedSchema(env.types) && IsTable(env.types, ty) && Waiting(env, s, c, us) && Tail(r)
    requires OkParser(env, Parser(s + [c], root)) && Expects(env, c, Last(us), v) && !c.inVector
    requires var f := CurrentField(env, c);
      && ValidField(env.types, f) && FieldOk(env.types, f, v)
      && WholeField(env.types, o, f, v) && !PrintableField(env.types, o, f, v)
    ensures RunAt(env, ty, s + [c], root,
      Text(FieldLayout(env.types, o, CurrentField(env, c), v, depth), r)) != Accept(us[0])
    decreases v, 2
  {
    hide Waiting, RunAt, Tail, Chained, ElemLayout, ItemsLayout, IsSpace, Wrapping, TextItems, Ready, OkParser,
      WholeElem;
    WaitingReady(env, s, c, us);
    var f := CurrentField(env, c);
    if !f.repeating {
      LostElem(env, ty, o, v, depth, s, c, us, root, r);
    } else {
      LostVector(env, ty, o, v, depth, s, c, us, root, r);
    }
  }

  /** The text of what follows the `n`-th element. */
  function ItemTail(s: Schema, o: Options, f: FieldDef, v: Value, n: nat, depth: nat, q: string): string
    requires ValidSchema(s) && ValidField(s, f) && f.repeating && FieldOk(s, f, v) && n < |v.elems|
  {
    var wrap := o.multiLine && f.elem.Sequence?;
    if n == |v.elems| - 1 then Wrapping(wrap, depth) + q
    else "" + ("," + (Separator(wrap, depth + 1) + TextItems(ItemsLayout(s, o, f, v, n + 1, depth), q)))
  }

  lemma ItemsHead(s: Schema, o: Options, f: FieldDef, v: Value, n: nat, depth: nat, q: string)
    requires ValidSchema(s) && ValidField(s, f) && f.repeating && FieldOk(s, f, v) && n < |v.elems|
    requires WholeField(s, o, f, v)
    ensures ElemOk(s, f, v.elems[n]) && WholeElem(s, o, f, v.elems[n])
    ensures TextItems(ItemsLayout(s, o, f, v, n, depth), q) ==
      Text(ElemLayout(s, o, f, true, v.elems[n], depth + 1), ItemTail(s, o, f, v, n, depth, q))
    ensures Solid(TextItems(ItemsLayout(s, o, f, v, n, depth), q))
  {
    hide Text, ElemLayout, Wrapping, Separator;
    ElemSolid(s, o, f, v.elems[n], depth + 1, ItemTail(s, o, f, v, n, depth, q));
  }

  lemma ItemTailIsTail(s: Schema, o: Options, f: FieldDef, v: Value, n: nat, depth: nat, r: string)
    requires ValidSchema(s) && ValidField(s, f) && f.repeating && FieldOk(s, f, v) && n < |v.elems|
    ensures Tail(ItemTail(s, o, f, v, n, depth, "]" + r))
  {
    hide ItemsLayout, TextItems, Wrapping;
    WrappingTail(o.multiLine && f.elem.Sequence?, depth, "]" + r);
  }

  lemma {:induction false} LostVector(
    env: Env, ty: nat, o: Options, v: Value, depth: nat, s: seq<Context>, c: Context, us: seq<Table>,
    root: Option<Table>, r: string)
    requires ReflectedSchema(env.types) && IsTable(env.types, ty) && Waiting(env, s, c, us)
    requires OkParser(env, Parser(s + [c], root)) && Expects(env, c, Last(us), v) && !c.inVector
    requires var f := CurrentField(env, c);
      && ValidField(env.types, f) && f.repeating && FieldOk(env.types, f, v)
      && WholeField(env.types, o, f, v) && !PrintableField(env.types, o, f, v)
    ensures RunAt(env, ty, s + [c], root,
      Text(FieldLayout(env.types, o, CurrentField(env, c), v, depth), r)) != Accept(us[0])
    decreases v, 1
  {
    hide Waiting, RunAt, Chained, ElemLayout, ItemsLayout, IsSpace, Wrapping, TextItems, OkParser, WholeElem, Solid;
    WaitingReady(env, s, c, us);
    var f, c' := CurrentField(env, c), c.(inVector := true);
    assert ItemLost(env.types, o, f, v, 0);
    var data := TextItems(ItemsLayout(env.types, o, f, v, 0, depth), "]" + r);
    var wrap := o.multiLine && f.elem.Sequence?;
    WrappingIsSpace(wrap, depth + 1);
    ItemsHead(env.types, o, f, v, 0, depth, "]" + r);
    ArrayOpens(env, ty, s, c, root, Wrapping(wrap, depth + 1), data);
    ChainedTop(env, s, c, c', us);
    InVector(env, s, c', us);
    LostItems(env, ty, o, v, 0, depth, s, c', us, root, r);
  }

  lemma InVector(env: Env, s: seq<Context>, c: Context, us: seq<Table>)
    requires Ready(env, s, c) && c.fieldIndex >= 0 && |us| == |s| + 1 && Chained(env, s + [c], us)
    ensures Waiting(env, s, c, us)
  {
  }

  lemma {:induction false} LostItems(
    env: Env, ty: nat, o: Options, v: Value, n: nat, depth: nat, s: seq<Context>, c: Context, us: seq<Table>,
    root: Option<Table>, r: string)
    requires ReflectedSchema(env.types) && IsTable(env.types, ty) && Waiting(env, s, c, us)
    requires OkParser(env, Parser(s + [c], root)) && c.inVector && v.VVector? && n < |v.elems|
    requires Sized(env, c, Last(us)) && Expects(env, c, Last(us), v.elems[n])
    requires Last(us)[c.fieldIndex] == Some(v) && |c.vectorElements| == n
    requires var f := CurrentField(env, c);
      && ValidField(env.types, f) && f.repeating && FieldOk(env.types, f, v)
      && WholeField(env.types, o, f, v) && ItemLost(env.types, o, f, v, n)
    ensures RunAt(env, ty, s + [c], root,
      TextItems(ItemsLayout(env.types, o, CurrentField(env, c), v, n, depth), "]" + r)) != Accept(us[0])
    decreases v, 0, |v.elems| - n, 1
  {
    hide Waiting, RunAt, Chained, ElemLayout, ItemsLayout, IsSpace, TextItems, OkParser, WholeField, Solid,
      ItemTail, Tail, Text, PrintableElem, Expects;
    WaitingReady(env, s, c, us);
    var f := CurrentField(env, c);
    ItemsHead(env.types, o, f, v, n, depth, "]" + r);
    if PrintableElem(env.types, o, f, true, v.elems[n]) {
      LostLaterItem(env.types, o, f, v, n);
      LostRestItems(env, ty, o, v, n, depth, s, c, us, root, r);
    } else {
      ItemTailIsTail(env.types, o, f, v, n, depth, r);
      LostElem(env, ty, o, v.elems[n], depth + 1, s, c, us, root, ItemTail(env.types, o, f, v, n, depth, "]" + r));
    }
  }

  lemma LostLaterItem(s: Schema, o: Options, f: FieldDef, v: Value, n: nat)
    requires ValidSchema(s) && ValidField(s, f) && f.repeating && FieldOk(s, f, v) && n < |v.elems|
    requires ItemLost(s, o, f, v, n) && ElemOk(s, f, v.elems[n]) && PrintableElem(s, o, f, true, v.elems[n])
    ensures n + 1 < |v.elems| && ItemLost(s, o, f, v, n + 1)
  {
  }

  /** An element that comes back, and a lost one after it. */
  lemma {:induction false} LostRestItems(
    env: Env, ty: nat, o: Options, v: Value, n: nat, depth: nat, s: seq<Context>, c: Context, us: seq<Table>,
    root: Option<Table>, r: string)
    requires ReflectedSchema(env.types) && IsTable(env.types, ty) && Waiting(env, s, c, us)
    requires OkParser(env, Parser(s + [c], root)) && c.inVector && v.VVector? && n + 1 < |v.elems|
    requires Sized(env, c, Last(us)) && Expects(env, c, Last(us), v.elems[n])
    requires Last(us)[c.fieldIndex] == Some(v) && |c.vectorElements| == n
    requires var f := CurrentField(env, c);
      && ValidField(env.types, f) && f.repeating && FieldOk(env.types, f, v) && WholeField(env.types, o, f, v)
      && ElemOk(env.types, f, v.elems[n]) && PrintableElem(env.types, o, f, true, v.elems[n])
      && ItemLost(env.types, o, f, v, n + 1)
    ensures RunAt(env, ty, s + [c], root,
      Text(ElemLayout(env.types, o, CurrentField(env, c), true, v.elems[n], depth + 1),
           ItemTail(env.types, o, CurrentField(env, c), v, n, depth, "]" + r))) != Accept(us[0])
    decreases v, 0, |v.elems| - n, 0
  {
    hide Waiting, Chained, ElemLayout, ItemsLayout, IsSpace, TextItems, WholeField, Solid,
      Text, PrintableElem, Ok, EvalValue, Run, ItemLost, Separator;
    WaitingReady(env, s, c, us);
    var f := CurrentField(env, c);
    var l := ElemLayout(env.types, o, f, true, v.elems[n], depth + 1);
    ElemRoundTrip(env, o, f, v.elems[n], depth + 1);
    var x := EvalValue(env, f, true, Erase(l)).value;
    var wrap := o.multiLine && f.elem.Sequence?;
    var next := TextItems(ItemsLayout(env.types, o, f, v, n + 1, depth), "]" + r);
    WrappingIsSpace(wrap, depth + 1);
    ItemsHead(env.types, o, f, v, n + 1, depth, "]" + r);
    GoodValue(env, ty, s, c, root, l, x, Separator(wrap, depth + 1), next);
    var c' := Queue(c, x);
    ChainedTop(env, s, c, c', us);
    InVector(env, s, c', us);
    LostItems(env, ty, o, v, n + 1, depth, s, c', us, root, r);
  }

  // -------------------------------------------------------------------------- the theorem

  lemma RootOpens(env: Env, ty: nat, w: string, data: string)
    requires ValidSchema(env.types) && IsTable(env.types, ty) && IsSpace(w) && Solid(data) && data[0] != '}'
    ensures OkParser(env, Parser([NewContext(ty)], None))
    ensures Parse(env, ty, "{" + (w + data)) == RunFields(env, ty, [NewContext(ty)], None, data)
  {
    hide Run, IsSpace, SkipSpace;
    var text, n := "{" + (w + data), NewContext(ty);
    SpaceStops(w, data);
    assert text[1..] == w + data;
    var next := Machine(ExpectField, data, [InObject]);
    assert Flatten([n]) == [InObject] by {
      FlattenPush([], n);
      assert [] + [n] == [n];
    }
    assert [] + [InObject] == [InObject];
    assert Step(Start(text)) == Stepped(next, StartObject);
    RunStep(Start(text), next, StartObject);
    ConsumeFirst(env, ty, Parser([], None), StartObject, Run(next));
  }

  /** A table with a value that does not survive printing does not come back. */
  lemma PrintLoses(env: Env, o: Options, ty: nat, t: Table)
    requires ReflectedSchema(env.types) && IsTable(env.types, ty) && TableOk(env.types, ty, t)
    requires Whole(env.types, o, ty, t) && !Printable(env.types, o, ty, t)
    ensures Parse(env, ty, Print(env.types, o, ty, t)) != Accept(t)
  {
    hide Printable, Whole, FieldsLayout, TextFields, IsSpace, FieldLost, RunFields, Parse, Solid, Wrapping;
    var ids, c := Present(t, env.types[ty].printed), NewContext(ty);
    LostPresent(env.types, o, ty, t);
    LostListed(env.types, o, ty, t, ids);
    var wrap := Wraps(o, FieldsOf(env.types, ty));
    WrappingIsSpace(wrap, 1);
    FieldsHead(env.types, o, ty, t, ids, 0, "}" + "");
    RootOpens(env, ty, Wrapping(wrap, 1), TextFields(FieldsLayout(env.types, o, ty, t, ids, 0), "}" + ""));
    assert [] + [c] == [c];
    LostFields(env, ty, o, t, ids, 0, [], c, [t], None, "");
  }

  /**
   Printing and parsing gives a table back if and only if every integer without enum is
   below 2^63 and no vector has a string with a quote, a backslash or a null character:
   for every schema, all options and every table that is printed in full.
   */
  lemma PrintParseExactly(env: Env, o: Options, ty: nat, t: Table)
    requires ReflectedSchema(env.types) && IsTable(env.types, ty) && TableOk(env.types, ty, t)
    requires Whole(env.types, o, ty, t)
    ensures Parse(env, ty, Print(env.types, o, ty, t)) == Accept(t) <==> Printable(env.types, o, ty, t)
  {
    if Printable(env.types, o, ty, t) {
      PrintParse(env, o, ty, t);
    } else {
      PrintLoses(env, o, ty, t);
    }
  }

  // ---------------------------------------------------------------- values that are lost

  /** A table type with just the field. */
  function OneField(f: FieldDef): Schema {
    [TableType([f], [0])]
  }

  lemma OneFieldReflected(f: FieldDef)
    requires Plain(f.name) && f.ref.None? && !f.elem.Sequence?
    ensures ReflectedSchema(OneField(f)) && IsTable(OneField(f), 0)
  {
    assert Reflected(OneField(f)[0]);
  }

  /** An integer comes back exactly when it is below 2^63. */
  lemma IntegerSurvives(converts: string -> bool, o: Options, f: FieldDef, i: int)
    requires Plain(f.name) && Integral(f.elem) && !f.repeating && f.ref.None? && InRange(f.elem, i)
    ensures var s, t := OneField(f), [Some(VInt(i))];
      && ReflectedSchema(s) && IsTable(s, 0) && TableOk(s, 0, t)
      && (Parse(Env(s, converts), 0, Print(s, o, 0, t)) == Accept(t) <==> i < INT64)
  {
    var s, t := OneField(f), [Some(VInt(i))];
    OneFieldReflected(f);
    assert FieldOk(s, f, VInt(i)) && WholeField(s, o, f, VInt(i));
    assert PrintableField(s, o, f, VInt(i)) <==> i < INT64;
    assert Printable(s, o, 0, t) <==> PrintableField(s, o, f, t[0].value);
    PrintParseExactly(Env(s, converts), o, 0, t);
  }

  function StringVector(xs: seq<string>): (v: Value)
    ensures v.VVector? && |v.elems| == |xs| && forall k :: 0 <= k < |xs| ==> v.elems[k] == VString(xs[k])
  {
    VVector(seq(|xs|, k requires 0 <= k < |xs| => VString(xs[k])))
  }

  predicate Bland(x: string) {
    Plain(x) && '\0' !in x
  }

  /** A vector of strings comes back exactly when none of them has a quote, a backslash or a null character. */
  lemma VectorStringSurvives(converts: string -> bool, o: Options, f: FieldDef, xs: seq<string>)
    requires Plain(f.name) && f.elem.String? && f.repeating && f.ref.None? && |xs| <= o.maxVectorSize
    ensures var s, t := OneField(f), [Some(StringVector(xs))];
      && ReflectedSchema(s) && IsTable(s, 0) && TableOk(s, 0, t)
      && (Parse(Env(s, converts), 0, Print(s, o, 0, t)) == Accept(t) <==> forall k :: 0 <= k < |xs| ==> Bland(xs[k]))
  {
    var s, v := OneField(f), StringVector(xs);
    var t := [Some(v)];
    OneFieldReflected(f);
    assert FieldOk(s, f, v) && WholeField(s, o, f, v);
    StringsPrintable(s, o, f, xs);
    assert Printable(s, o, 0, t) <==> PrintableField(s, o, f, t[0].value);
    PrintParseExactly(Env(s, converts), o, 0, t);
  }

  lemma StringsPrintable(s: Schema, o: Options, f: FieldDef, xs: seq<string>)
    requires ValidSchema(s) && ValidField(s, f) && f.elem.String? && f.repeating && |xs| <= o.maxVectorSize
    ensures FieldOk(s, f, StringVector(xs))
    ensures PrintableField(s, o, f, StringVector(xs)) <==> forall k :: 0 <= k < |xs| ==> Bland(xs[k])
  {
    var v := StringVector(xs);
    assert forall k :: 0 <= k < |xs| ==> (PrintableElem(s, o, f, true, v.elems[k]) <==> Bland(xs[k]));
  }

  /** The smallest integer that is lost, and strings of each kind. */
  lemma LostValues(converts: string -> bool, o: Options, x: string)
    requires x in ["\"", "\\", "\0"] && o.maxVectorSize >= 1
    ensures var f := FieldDef("f", ULong, false, None);
      var s, t := OneField(f), [Some(VInt(INT64))];
      && ReflectedSchema(s) && IsTable(s, 0) && TableOk(s, 0, t)
      && Parse(Env(s, converts), 0, Print(s, o, 0, t)) != Accept(t)
    ensures var g := FieldDef("g", String, true, None);
      var s, t := OneField(g), [Some(StringVector([x]))];
      && ReflectedSchema(s) && IsTable(s, 0) && TableOk(s, 0, t)
      && Parse(Env(s, converts), 0, Print(s, o, 0, t)) != Accept(t)
  {
    hide Parse, Print, TableOk, ReflectedSchema;
    IntegerSurvives(converts, o, FieldDef("f", ULong, false, None), INT64);
    VectorStringSurvives(converts, o, FieldDef("g", String, true, None), [x]);
    assert [x][0] == x && !Bland(x) by {
      assert x[0] in ['\"', '\\', '\0'];
    }
  }
}
