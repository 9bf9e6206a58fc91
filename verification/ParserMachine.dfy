/**
 The JSON parser: a second pushdown machine, fed by the tokenizer, that fills tables
 according to a schema.  The buffer it writes into is represented by the objects
 themselves, so an offset is the object it refers to.
 */
module ParserMachine {
  import opened Common
  import opened TokenMachine
  import opened Decimal
  import opened Flat

  /** The schema, and which number texts `strtod` converts without a range error. */
  datatype Env = Env(types: Schema, converts: string -> bool)

  datatype Element = IntElement(i: int) | DoubleElement(text: string) | OffsetElement(v: Value)

  datatype FieldElement = FieldElement(index: nat, element: Element)

  datatype Context = Context(
    ty: nat, inVector: bool, fieldIndex: int, elements: seq<FieldElement>, vectorElements: seq<Element>)

  function NewContext(ty: nat): Context {
    Context(ty, false, -1, [], [])
  }

  // ------------------------------------------------------------------ storing elements

  /** How an element that is not a vector is stored in a field or vector of the given type. */
  function Store(e: Elem, x: Element): Option<Value> {
    match x
    case IntElement(i) =>
      if Integral(e) || e.Bool? then Some(VInt(Cast(e, i)))
      else if e.Float? || e.Double? then Some(VReal(OfInt(i)))
      else None
    case DoubleElement(text) => if e.Float? || e.Double? then Some(VReal(Literal(text))) else None
    case OffsetElement(v) => if e.String? || e.Sequence? then Some(v) else None
  }

  /** What `AddSingleElement` writes for a field; `None` on a type mismatch. */
  function StoreField(f: FieldDef, x: Element): Option<Value> {
    if x.OffsetElement? && f.repeating then Some(x.v) else Store(f.elem, x)
  }

  /** `WriteTable` from the element at `k` on: the first element of each field decides, and mismatches are ignored. */
  function WriteFrom(fs: seq<FieldDef>, xs: seq<FieldElement>, k: nat, inUse: set<nat>, t: Table): (r: Table)
    requires k <= |xs| && |t| == |fs| && forall j :: 0 <= j < |xs| ==> xs[j].index < |fs|
    ensures |r| == |fs|
    decreases |xs| - k
  {
    if k == |xs| then t
    else
      var i := xs[k].index;
      if i in inUse then WriteFrom(fs, xs, k + 1, inUse, t)
      else WriteFrom(fs, xs, k + 1, inUse + {i}, t[i := StoreField(fs[i], xs[k].element)])
  }

  predicate Indexed(fs: seq<FieldDef>, xs: seq<FieldElement>) {
    forall j :: 0 <= j < |xs| ==> xs[j].index < |fs|
  }

  function WriteTable(fs: seq<FieldDef>, xs: seq<FieldElement>): (r: Table)
    requires Indexed(fs, xs)
    ensures |r| == |fs|
  {
    WriteFrom(fs, xs, 0, {}, EmptyTable(|fs|))
  }

  /** The first element given for field `i`. */
  function FirstFor(i: nat, xs: seq<FieldElement>): Option<Element> {
    if xs == [] then None
    else if xs[0].index == i then Some(xs[0].element)
    else FirstFor(i, xs[1..])
  }

  function StoreOption(f: FieldDef, x: Option<Element>): Option<Value> {
    match x
    case None => None
    case Some(e) => StoreField(f, e)
  }

  /** A field of the written table depends only on the first element given for it. */
  lemma {:induction false} WrittenField(fs: seq<FieldDef>, xs: seq<FieldElement>, k: nat, inUse: set<nat>,
      t: Table, i: nat)
    requires k <= |xs| && |t| == |fs| && Indexed(fs, xs) && i < |fs|
    requires i !in inUse ==> t[i] == None
    ensures WriteFrom(fs, xs, k, inUse, t)[i] ==
      if i in inUse then t[i] else StoreOption(fs[i], FirstFor(i, xs[k..]))
    decreases |xs| - k
  {
    if k < |xs| {
      var j := xs[k].index;
      assert xs[k..][0] == xs[k] && xs[k..][1..] == xs[k + 1..];
      if j in inUse {
        WrittenField(fs, xs, k + 1, inUse, t, i);
      } else {
        WrittenField(fs, xs, k + 1, inUse + {j}, t[j := StoreField(fs[j], xs[k].element)], i);
      }
    }
  }

  lemma WriteTableField(fs: seq<FieldDef>, xs: seq<FieldElement>, i: nat)
    requires Indexed(fs, xs) && i < |fs|
    ensures WriteTable(fs, xs)[i] == StoreOption(fs[i], FirstFor(i, xs))
  {
    WrittenField(fs, xs, 0, {}, EmptyTable(|fs|), i);
    assert xs[0..] == xs;
  }

  /** The elements of a finished vector; a single mismatch refuses it. */
  function StoreAll(e: Elem, xs: seq<Element>): (r: Option<seq<Value>>)
    ensures r.Some? ==> |r.value| == |xs|
  {
    if xs == [] then Some([])
    else
      match (StoreAll(e, ButLast(xs)), Store(e, Last(xs)))
      case (Some(vs), Some(v)) => Some(vs + [v])
      case (_, _) => None
  }

  // ------------------------------------------------------------------------- scalars

  function FieldIndexFrom(fs: seq<FieldDef>, name: string, k: nat): (i: int)
    requires k <= |fs|
    ensures i != -1 ==> k <= i < |fs| && fs[i].name == name
    decreases |fs| - k
  {
    if k == |fs| then -1 else if fs[k].name == name then k else FieldIndexFrom(fs, name, k + 1)
  }

  function FieldIndex(fs: seq<FieldDef>, name: string): (i: int)
    ensures i != -1 ==> 0 <= i < |fs| && fs[i].name == name
  {
    FieldIndexFrom(fs, name, 0)
  }

  function EnumValueFrom(vs: seq<EnumVal>, name: string, k: nat): Option<int>
    requires k <= |vs|
    decreases |vs| - k
  {
    if k == |vs| then None
    else if vs[k].name == name then Some(vs[k].value)
    else EnumValueFrom(vs, name, k + 1)
  }

  function EnumValue(vs: seq<EnumVal>, name: string): Option<int> {
    EnumValueFrom(vs, name, 0)
  }

  predicate AsDouble(env: Env, text: string) {
    text == "nan" || text == "-nan" || text == "inf" || text == "-inf" || env.converts(text)
  }

  /** The element a string stands for: the value of an enumerator, or the string itself. */
  function StringElement(env: Env, f: FieldDef, text: string): Option<Element>
    requires ValidField(env.types, f)
  {
    if Integral(f.elem) && f.ref.Some? then
      match EnumValue(env.types[f.ref.value].values, text)
      case None => None
      case Some(i) => Some(IntElement(i))
    else Some(OffsetElement(VString(text)))
  }

  function NumberElement(env: Env, text: string): Option<Element> {
    match AsInt(text)
    case Some(i) => Some(IntElement(i))
    case None => if AsDouble(env, text) then Some(DoubleElement(text)) else None
  }

  /** `AddElement`: the element for a scalar token, unless schema and text disagree on being in a vector. */
  function ScalarElement(env: Env, f: FieldDef, inVector: bool, t: Token): Option<Element>
    requires ValidField(env.types, f)
    requires t.NumberValue? || t.StringValue? || t.TrueValue? || t.FalseValue?
  {
    var x :=
      match t
      case TrueValue => Some(IntElement(1))
      case FalseValue => Some(IntElement(0))
      case NumberValue(text) => NumberElement(env, text)
      case StringValue(text) => StringElement(env, f, text);
    if f.repeating != inVector then None else x
  }

  // ------------------------------------------------------------------------ the machine

  /** `stack_` and the table that `*table_end` refers to. */
  datatype Parser = Parser(stack: seq<Context>, root: Option<Table>)

  datatype Outcome =
    | Proceed(parser: Parser)
    | Accept(table: Table)
    | Refuse
    | Crash              // uses the top of an empty stack, or a field index that was never set

  predicate OkContext(env: Env, c: Context) {
    && IsTable(env.types, c.ty)
    && -1 <= c.fieldIndex < |FieldsOf(env.types, c.ty)|
    && Indexed(FieldsOf(env.types, c.ty), c.elements)
  }

  predicate OkParser(env: Env, p: Parser) {
    && ValidSchema(env.types)
    && forall i :: 0 <= i < |p.stack| ==> OkContext(env, p.stack[i])
  }

  /** The definition of the field being parsed. */
  function CurrentField(env: Env, c: Context): FieldDef
    requires OkContext(env, c) && c.fieldIndex >= 0
  {
    FieldsOf(env.types, c.ty)[c.fieldIndex]
  }

  /** Queues an element for the current field or its vector. */
  function Queue(c: Context, x: Element): Context
    requires c.fieldIndex >= 0
  {
    if c.inVector then c.(vectorElements := c.vectorElements + [x])
    else c.(elements := c.elements + [FieldElement(c.fieldIndex, x)])
  }

  /** One token, as `DoParse` handles it. */
  function Feed(env: Env, ty: nat, p: Parser, t: Token): (o: Outcome)
    requires OkParser(env, p) && IsTable(env.types, ty)
    ensures o.Proceed? ==> OkParser(env, o.parser)
  {
    var s := p.stack;
    match t
    case End => if s != [] then Refuse else if p.root.Some? then Accept(p.root.value) else Refuse
    case Error => Refuse
    case PastEnd => Crash
    case StartObject => if s == [] then Proceed(p.(stack := [NewContext(ty)])) else FeedStartObject(env, p)
    case EndObject => if s == [] then Refuse else FeedEndObject(env, p)
    case StartArray =>
      if s == [] || Last(s).inVector then Refuse
      else Proceed(p.(stack := ButLast(s) + [Last(s).(inVector := true)]))
    case EndArray => if s == [] then Crash else if !Last(s).inVector then Refuse else FeedEndArray(env, p)
    case Field(name) =>
      if s == [] then Crash
      else
        var i := FieldIndex(FieldsOf(env.types, Last(s).ty), name);
        if i == -1 then Refuse else Proceed(p.(stack := ButLast(s) + [Last(s).(fieldIndex := i)]))
    case _ =>
      if s == [] || Last(s).fieldIndex < 0 then Crash else FeedScalar(env, p, t)
  }

  function FeedStartObject(env: Env, p: Parser): (o: Outcome)
    requires OkParser(env, p) && p.stack != []
    ensures o.Proceed? ==> OkParser(env, o.parser)
  {
    var c := Last(p.stack);
    if c.fieldIndex < 0 then Crash
    else if !CurrentField(env, c).elem.Sequence? then Refuse
    else
      assert ValidField(env.types, CurrentField(env, c));
      Proceed(p.(stack := p.stack + [NewContext(CurrentField(env, c).ref.value)]))
  }

  /** Hands a finished table to the context below, or to the caller. */
  function Finish(s: seq<Context>, root: Option<Table>, t: Table): Outcome {
    if s == [] then Proceed(Parser(s, Some(t)))
    else if Last(s).fieldIndex < 0 then Crash
    else Proceed(Parser(ButLast(s) + [Queue(Last(s), OffsetElement(VTable(t)))], root))
  }

  function FeedEndObject(env: Env, p: Parser): (o: Outcome)
    requires OkParser(env, p) && p.stack != []
    ensures o.Proceed? ==> OkParser(env, o.parser)
  {
    var c := Last(p.stack);
    Finish(ButLast(p.stack), p.root, WriteTable(FieldsOf(env.types, c.ty), c.elements))
  }

  /** `FinishVector` */
  function FeedEndArray(env: Env, p: Parser): (o: Outcome)
    requires OkParser(env, p) && p.stack != []
    ensures o.Proceed? ==> OkParser(env, o.parser)
  {
    var c := Last(p.stack);
    if c.fieldIndex < 0 then Crash
    else
      match StoreAll(CurrentField(env, c).elem, c.vectorElements)
      case None => Refuse
      case Some(vs) =>
        var x := FieldElement(c.fieldIndex, OffsetElement(VVector(vs)));
        var done := c.(inVector := false, elements := c.elements + [x], vectorElements := []);
        Proceed(p.(stack := ButLast(p.stack) + [done]))
  }

  function FeedScalar(env: Env, p: Parser, t: Token): (o: Outcome)
    requires OkParser(env, p) && p.stack != [] && Last(p.stack).fieldIndex >= 0
    requires t.NumberValue? || t.StringValue? || t.TrueValue? || t.FalseValue?
    ensures o.Proceed? ==> OkParser(env, o.parser)
  {
    var c := Last(p.stack);
    assert ValidField(env.types, CurrentField(env, c));
    match ScalarElement(env, CurrentField(env, c), c.inVector, t)
    case None => Refuse
    case Some(x) => Proceed(p.(stack := ButLast(p.stack) + [Queue(c, x)]))
  }

  /** A whole stream of tokens, up to the first that decides. */
  function Consume(env: Env, ty: nat, p: Parser, ts: seq<Token>): (o: Outcome)
    requires OkParser(env, p) && IsTable(env.types, ty)
    decreases |ts|
  {
    if ts == [] then Proceed(p)
    else
      match Feed(env, ty, p, ts[0])
      case Proceed(q) => Consume(env, ty, q, ts[1..])
      case o => o
  }
}
