/** The parser as an object: its stack, the loop over the tokens, and the loops that write vectors and tables. */
module Parsing {
  import opened Common
  import opened TokenMachine
  import opened Tokenizing
  import opened Flat
  import opened ParserMachine
  import opened Lockstep
  import opened Evaluate

  /** Adds the queued elements to a table, the first one given for each field. */
  method BuildTable(fs: seq<FieldDef>, xs: seq<FieldElement>) returns (t: Table)
    requires Indexed(fs, xs)
    ensures t == WriteTable(fs, xs)
  {
    t := EmptyTable(|fs|);
    var inUse: set<nat> := {};
    for k := 0 to |xs|
      invariant |t| == |fs| && WriteFrom(fs, xs, k, inUse, t) == WriteTable(fs, xs)
    {
      var i := xs[k].index;
      if i !in inUse {
        inUse := inUse + {i};
        t := t[i := StoreField(fs[i], xs[k].element)];
      }
    }
  }

  function Append(r: Option<seq<Value>>, vs: seq<Value>): Option<seq<Value>> {
    match r
    case None => None
    case Some(us) => Some(us + vs)
  }

  lemma StoreLast(e: Elem, xs: seq<Element>, i: nat, vs: seq<Value>)
    requires i < |xs|
    ensures Append(StoreAll(e, xs[..i + 1]), vs) ==
      match Store(e, xs[i]) case None => None case Some(v) => Append(StoreAll(e, xs[..i]), [v] + vs)
  {
    assert ButLast(xs[..i + 1]) == xs[..i];
    if StoreAll(e, xs[..i]).Some? && Store(e, xs[i]).Some? {
      ConcatAssoc(StoreAll(e, xs[..i]).value, [Store(e, xs[i]).value], vs);
    }
  }

  /** Pushes the elements of a vector last to first, as the buffer grows downwards; stops at a mismatch. */
  method PackVector(e: Elem, xs: seq<Element>) returns (ok: bool, vs: seq<Value>)
    ensures StoreAll(e, xs) == if ok then Some(vs) else None
  {
    vs := [];
    var i := |xs|;
    assert xs[..i] == xs;
    assert Append(StoreAll(e, xs), []) == StoreAll(e, xs) by {
      if StoreAll(e, xs).Some? {
        assert StoreAll(e, xs).value + [] == StoreAll(e, xs).value;
      }
    }
    while i > 0
      invariant 0 <= i <= |xs|
      invariant StoreAll(e, xs) == Append(StoreAll(e, xs[..i]), vs)
    {
      i := i - 1;
      StoreLast(e, xs, i, vs);
      match Store(e, xs[i]) {
        case None => return false, [];
        case Some(v) => vs := [v] + vs;
      }
    }
    assert [] + vs == vs;
    ok := true;
  }

  datatype Status = Going | Done(table: Table) | Failed

  /** What a status says about the outcome of the machine. */
  predicate Reports(st: Status, o: Outcome, p: Parser) {
    match st
    case Going => o == Proceed(p)
    case Done(t) => o == Accept(t)
    case Failed => o == Refuse
  }

  class JsonParser {
    const env: Env
    const ty: nat
    var stack: seq<Context>
    var root: Option<Table>

    function View(): Parser
      reads this
    {
      Parser(stack, root)
    }

    constructor (env: Env, ty: nat)
      ensures this.env == env && this.ty == ty && View() == Parser([], None)
    {
      this.env, this.ty := env, ty;
      stack, root := [], None;
    }

    method SetTop(c: Context)
      requires stack != []
      modifies this`stack
      ensures stack == ButLast(old(stack)) + [c]
    {
      stack := stack[|stack| - 1 := c];
    }

    /** Queues an element in the context on top. */
    method AddElement(x: Element)
      requires stack != [] && Last(stack).fieldIndex >= 0
      modifies this`stack
      ensures stack == ButLast(old(stack)) + [Queue(Last(old(stack)), x)]
    {
      var c := Last(stack);
      if c.inVector {
        SetTop(c.(vectorElements := c.vectorElements + [x]));
      } else {
        SetTop(c.(elements := c.elements + [FieldElement(c.fieldIndex, x)]));
      }
    }

    /** One token. */
    method Handle(t: Token) returns (st: Status)
      requires OkParser(env, View()) && IsTable(env.types, ty) && !Feed(env, ty, View(), t).Crash?
      modifies this
      ensures Reports(st, Feed(env, ty, old(View()), t), View())
    {
      match t
      case End =>
        st := if stack == [] && root.Some? then Done(root.value) else Failed;
      case Error =>
        st := Failed;
      case StartObject =>
        st := OpenTable();
      case EndObject =>
        st := CloseTable();
      case StartArray =>
        if stack == [] || Last(stack).inVector {
          return Failed;
        }
        SetTop(Last(stack).(inVector := true));
        st := Going;
      case EndArray =>
        st := FinishVector();
      case Field(name) =>
        var i := FieldIndex(FieldsOf(env.types, Last(stack).ty), name);
        if i == -1 {
          return Failed;
        }
        SetTop(Last(stack).(fieldIndex := i));
        st := Going;
      case NumberValue(_) | StringValue(_) | TrueValue | FalseValue =>
        st := AddScalar(t);
    }

    method AddScalar(t: Token) returns (st: Status)
      requires OkParser(env, View()) && stack != [] && Last(stack).fieldIndex >= 0
      requires t.NumberValue? || t.StringValue? || t.TrueValue? || t.FalseValue?
      modifies this`stack
      ensures Reports(st, FeedScalar(env, old(View()), t), View())
    {
      var c := Last(stack);
      assert ValidField(env.types, CurrentField(env, c));
      var x := ScalarElement(env, CurrentField(env, c), c.inVector, t);
      if x.None? {
        return Failed;
      }
      AddElement(x.value);
      st := Going;
    }

    method OpenTable() returns (st: Status)
      requires OkParser(env, View()) && IsTable(env.types, ty) && !Feed(env, ty, View(), StartObject).Crash?
      modifies this
      ensures Reports(st, Feed(env, ty, old(View()), StartObject), View())
    {
      if stack == [] {
        stack := [NewContext(ty)];
        return Going;
      }
      var f := CurrentField(env, Last(stack));
      assert ValidField(env.types, f);
      if !f.elem.Sequence? {
        return Failed;
      }
      stack := stack + [NewContext(f.ref.value)];
      st := Going;
    }

    method CloseTable() returns (st: Status)
      requires OkParser(env, View()) && IsTable(env.types, ty) && !Feed(env, ty, View(), EndObject).Crash?
      modifies this
      ensures Reports(st, Feed(env, ty, old(View()), EndObject), View())
    {
      if stack == [] {
        return Failed;
      }
      var c := Last(stack);
      var t := BuildTable(FieldsOf(env.types, c.ty), c.elements);
      stack := ButLast(stack);
      if stack == [] {
        root := Some(t);
      } else {
        AddElement(OffsetElement(VTable(t)));
      }
      st := Going;
    }

    method FinishVector() returns (st: Status)
      requires OkParser(env, View()) && IsTable(env.types, ty) && !Feed(env, ty, View(), EndArray).Crash?
      modifies this
      ensures Reports(st, Feed(env, ty, old(View()), EndArray), View())
    {
      var c := Last(stack);
      if !c.inVector {
        return Failed;
      }
      var ok, vs := PackVector(CurrentField(env, c).elem, c.vectorElements);
      if !ok {
        return Failed;
      }
      var x := FieldElement(c.fieldIndex, OffsetElement(VVector(vs)));
      SetTop(c.(inVector := false, elements := c.elements + [x], vectorElements := []));
      st := Going;
    }

    /**
     The loop over the tokens.  Parser and tokenizer stay in step, so no branch of
     `Handle` is entered without what it needs; the result is what the machine defines.
     `inRange` is false where the tokenizer reads past the end of the text.
     */
    method DoParse(text: string) returns (inRange: bool, st: Status)
      requires ValidSchema(env.types) && IsTable(env.types, ty) && View() == Parser([], None)
      modifies this
      ensures !inRange <==> Parse(env, ty, text) == Crash
      ensures inRange ==> !st.Going? && Reports(st, Parse(env, ty, text), View())
    {
      var t := new Tokenizer(text);
      while true
        invariant fresh(t)
        invariant Agrees(t.View()) && InStep(t.View(), View()) && OkParser(env, View())
        invariant Consume(env, ty, View(), Run(t.View())) == Parse(env, ty, text)
        decreases Measure(t.View())
      {
        ghost var m, p := t.View(), View();
        var token := t.Next();
        var seen := Seen(token, t.fieldName, t.fieldValue);
        StaysInStep(env, ty, m, p);
        assert Run(m) == [seen] + (if Final(seen) then [] else Run(t.View()));
        ConsumeFirst(env, ty, p, seen, if Final(seen) then [] else Run(t.View()));
        if seen.PastEnd? {
          return false, Failed;
        }
        st := Handle(seen);
        if !st.Going? {
          return true, st;
        }
      }
    }
  }
}
