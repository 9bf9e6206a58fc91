/** The stack of the parser and the stack of the tokenizer, side by side. */
module Lockstep {
  import opened Common
  import Lexer
  import opened TokenMachine
  import opened Flat
  import opened ParserMachine

  /** What a token that is not final says about the tokenizer that delivered it. */
  predicate Effect(m: Machine, n: Machine, t: Token) {
    match t
    case StartObject =>
      (m.state.ExpectObjectStart? || m.state.ExpectValue?) && n.stack == m.stack + [InObject] && !n.state.ExpectValue?
    case EndObject => m.stack != [] && Last(m.stack).InObject? && n.stack == ButLast(m.stack)
    case StartArray => m.state.ExpectValue? && n.stack == m.stack + [InArray]
    case EndArray => m.stack != [] && Last(m.stack).InArray? && n.stack == ButLast(m.stack)
    case Field(_) => m.stack != [] && Last(m.stack).InObject? && n.stack == m.stack
    case End => false
    case Error => false
    case PastEnd => false
    case _ => m.state.ExpectValue? && n.stack == m.stack
  }

  /** A value is expected only after a field name, at the start of an array or inside one. */
  predicate ValueExpected(n: Machine, t: Token) {
    n.state.ExpectValue? ==> t.Field? || t.StartArray? || (n.stack != [] && Last(n.stack).InArray?)
  }

  lemma CloseEffect(st: State, d: string, k: seq<Kind>)
    requires k != [] && st == CloseState(Last(k)) && !Final(Close(st, d, k).token)
    ensures var s := Close(st, d, k);
      && s.token == (if Last(k).InObject? then EndObject else EndArray)
      && s.machine.stack == ButLast(k) && ValueExpected(s.machine, s.token)
  {
  }

  lemma ScalarEffect(t: Token, d: string, k: seq<Kind>)
    requires k != [] && !Final(t) && !Final(TokenMachine.Scalar(t, d, k).token)
    ensures var s := TokenMachine.Scalar(t, d, k); s.token == t && s.machine.stack == k && ValueExpected(s.machine, t)
  {
  }

  /** A scalar, or the end of what is open, was found where a value was expected. */
  predicate WordDone(s: Stepped, k: seq<Kind>)
    requires k != []
  {
    && ValueExpected(s.machine, s.token)
    && if s.token.EndObject? || s.token.EndArray? then
         s.token.EndObject? == Last(k).InObject? && s.machine.stack == ButLast(k)
       else
         && (s.token.NumberValue? || s.token.StringValue? || s.token.TrueValue? || s.token.FalseValue?)
         && s.machine.stack == k
  }

  lemma CloseStepEffect(r: string, k: seq<Kind>)
    requires k != [] && !Final(CloseStep(r, k).token)
    ensures WordDone(CloseStep(r, k), k)
  {
    if Closer(Last(k)) <= r {
      CloseEffect(CloseState(Last(k)), Lexer.SkipSpace(r[1..]).value, k);
    }
  }

  lemma WordEffect(r: string, k: seq<Kind>)
    requires k != [] && !Final(WordStep(r, k).token)
    ensures WordDone(WordStep(r, k), k)
  {
    if "true" <= r {
      ScalarEffect(TrueValue, r[4..], k);
    } else if "false" <= r {
      ScalarEffect(FalseValue, r[5..], k);
    } else {
      CloseStepEffect(r, k);
    }
  }

  lemma NumberEffect(m: Machine)
    requires m.stack != [] && !Final(NumberStep(m).token)
    ensures WordDone(NumberStep(m), m.stack)
  {
    match Lexer.ReadNumber(m.data)
    case Number(v, r) => ScalarEffect(NumberValue(v), r, m.stack);
    case NoNumber(r) => WordEffect(r, m.stack);
    case NumberPast =>
  }

  lemma ValueEffect(m: Machine)
    requires m.stack != [] && m.state.ExpectValue? && !Final(ValueStep(m).token)
    ensures Effect(m, ValueStep(m).machine, ValueStep(m).token)
    ensures ValueExpected(ValueStep(m).machine, ValueStep(m).token)
  {
    if !("{" <= m.data) && !("[" <= m.data) {
      match Lexer.ReadString(m.data)
      case Some((s, r)) => ScalarEffect(StringValue(s), r, m.stack);
      case None => NumberEffect(m);
    }
  }

  lemma StepEffect(m: Machine)
    requires Agrees(m) && !Final(Step(m).token)
    ensures Effect(m, Step(m).machine, Step(m).token) && ValueExpected(Step(m).machine, Step(m).token)
  {
    match m.state
    case ExpectValue => ValueEffect(m);
    case ExpectObjectEnd => CloseEffect(m.state, m.data, m.stack);
    case ExpectArrayEnd => CloseEffect(m.state, m.data, m.stack);
    case _ =>
  }

  /** One open object per context, and an open array in those that are in a vector. */
  function Flatten(s: seq<Context>): seq<Kind> {
    if s == [] then []
    else Flatten(ButLast(s)) + [InObject] + (if Last(s).inVector then [InArray] else [])
  }

  predicate InStep(m: Machine, p: Parser) {
    && m.stack == Flatten(p.stack)
    && (forall i :: 0 <= i < |p.stack| - 1 ==> p.stack[i].fieldIndex >= 0)
    && (p.stack != [] && (m.state.ExpectValue? || Last(p.stack).inVector) ==> Last(p.stack).fieldIndex >= 0)
  }

  lemma FlattenPush(s: seq<Context>, c: Context)
    ensures Flatten(s + [c]) == Flatten(s) + [InObject] + (if c.inVector then [InArray] else [])
  {
    assert ButLast(s + [c]) == s;
  }

  /**
   After every token that the parser handles and goes on from, its stack flattens to the
   tokenizer's, so it never looks at the top of an empty stack nor at a field index that
   was not set; an end of object never meets an empty stack, an end of array always
   meets a vector, and at the end nothing is left to unwind.
   */
  lemma StaysInStep(env: Env, ty: nat, m: Machine, p: Parser)
    requires Agrees(m) && InStep(m, p) && OkParser(env, p) && IsTable(env.types, ty)
    ensures var s, o := Step(m), Feed(env, ty, p, Step(m).token);
      && (o.Crash? ==> s.token.PastEnd?)
      && (o.Proceed? ==> Agrees(s.machine) && InStep(s.machine, o.parser))
      && (s.token.EndObject? ==> p.stack != [])
      && (s.token.EndArray? ==> p.stack != [] && Last(p.stack).inVector)
      && (s.token.End? ==> p.stack == [])
  {
    var s := Step(m);
    if !Final(s.token) {
      StepEffect(m);
      StaysInStepGo(env, ty, m, p, s.machine, s.token);
    }
  }

  lemma StaysInStepGo(env: Env, ty: nat, m: Machine, p: Parser, n: Machine, t: Token)
    requires Agrees(m) && InStep(m, p) && OkParser(env, p) && IsTable(env.types, ty)
    requires !Final(t) && Effect(m, n, t) && ValueExpected(n, t)
    ensures var o := Feed(env, ty, p, t); !o.Crash? && (o.Proceed? ==> InStep(n, o.parser))
    ensures t.EndObject? ==> p.stack != []
    ensures t.EndArray? ==> p.stack != [] && Last(p.stack).inVector
  {
    if p.stack != [] {
      FlattenPush(ButLast(p.stack), Last(p.stack));
      assert p.stack == ButLast(p.stack) + [Last(p.stack)];
    }
    match t
    case StartObject => StepsIntoObject(env, ty, m, p, n);
    case EndObject => StepsOutOfObject(env, ty, m, p, n);
    case _ => StepsAlong(env, ty, m, p, n, t);
  }

  lemma StepsIntoObject(env: Env, ty: nat, m: Machine, p: Parser, n: Machine)
    requires Agrees(m) && InStep(m, p) && OkParser(env, p) && IsTable(env.types, ty)
    requires Effect(m, n, StartObject) && ValueExpected(n, StartObject)
    ensures var o := Feed(env, ty, p, StartObject); !o.Crash? && (o.Proceed? ==> InStep(n, o.parser))
  {
    var o := Feed(env, ty, p, StartObject);
    if o.Proceed? {
      FlattenPush(p.stack, Last(o.parser.stack));
      assert o.parser.stack == p.stack + [Last(o.parser.stack)];
    }
  }

  lemma StepsOutOfObject(env: Env, ty: nat, m: Machine, p: Parser, n: Machine)
    requires Agrees(m) && InStep(m, p) && OkParser(env, p) && IsTable(env.types, ty)
    requires Effect(m, n, EndObject) && ValueExpected(n, EndObject) && p.stack != []
    requires m.stack == Flatten(ButLast(p.stack)) + [InObject] + (if Last(p.stack).inVector then [InArray] else [])
    ensures var o := Feed(env, ty, p, EndObject); !o.Crash? && (o.Proceed? ==> InStep(n, o.parser))
  {
    var k := ButLast(p.stack);
    assert n.stack == Flatten(k);
    if k != [] {
      var c := Last(k);
      assert k[|k| - 1] == p.stack[|k| - 1] && c.fieldIndex >= 0;
      var o := Feed(env, ty, p, EndObject);
      var c' := Last(o.parser.stack);
      assert o.parser.stack == ButLast(k) + [c'];
      FlattenPush(ButLast(k), c);
      FlattenPush(ButLast(k), c');
      assert k == ButLast(k) + [c];
    }
  }

  predicate Along(t: Token) {
    !Final(t) && !t.StartObject? && !t.EndObject?
  }

  /** Whether the top context is in a vector after the token. */
  predicate VectorAfter(c: Context, t: Token) {
    if t.StartArray? then true else if t.EndArray? then false else c.inVector
  }

  /** Such a token only changes the top context. */
  lemma FeedAlong(env: Env, ty: nat, p: Parser, t: Token)
    requires OkParser(env, p) && IsTable(env.types, ty) && Along(t) && p.stack != []
    requires t.Field? || t.StartArray? || Last(p.stack).fieldIndex >= 0
    requires t.EndArray? ==> Last(p.stack).inVector
    ensures var o := Feed(env, ty, p, t);
      && !o.Crash?
      && (o.Proceed? && t.StartArray? ==> !Last(p.stack).inVector)
      && (o.Proceed? ==>
          && o.parser.stack != [] && o.parser.stack == ButLast(p.stack) + [Last(o.parser.stack)]
          && Last(o.parser.stack).inVector == VectorAfter(Last(p.stack), t)
          && (t.Field? || Last(p.stack).fieldIndex >= 0 ==> Last(o.parser.stack).fieldIndex >= 0))
  {
    hide ScalarElement, StoreAll, OkContext;
  }

  /** Tokens that only change the top context. */
  lemma StepsAlong(env: Env, ty: nat, m: Machine, p: Parser, n: Machine, t: Token)
    requires Agrees(m) && InStep(m, p) && OkParser(env, p) && IsTable(env.types, ty)
    requires Along(t) && Effect(m, n, t) && ValueExpected(n, t)
    requires p.stack != [] ==>
      m.stack == Flatten(ButLast(p.stack)) + [InObject] + (if Last(p.stack).inVector then [InArray] else [])
    ensures p.stack != [] && (t.EndArray? ==> Last(p.stack).inVector)
    ensures var o := Feed(env, ty, p, t); !o.Crash? && (o.Proceed? ==> InStep(n, o.parser))
  {
    hide Feed, OkParser;
    assert p.stack != [];
    var k, c := ButLast(p.stack), Last(p.stack);
    FeedAlong(env, ty, p, t);
    var o := Feed(env, ty, p, t);
    if o.Proceed? {
      var c' := Last(o.parser.stack);
      FlattenPush(k, c');
      assert forall i :: 0 <= i < |k| ==> o.parser.stack[i] == p.stack[i];
      TopChanges(Flatten(k), c.inVector, c'.inVector, m, n, t);
      assert n.stack == Flatten(k + [c']);
    }
  }

  lemma TopChanges(k: seq<Kind>, before: bool, after: bool, m: Machine, n: Machine, t: Token)
    requires Along(t) && Effect(m, n, t) && m.stack == k + [InObject] + (if before then [InArray] else [])
    requires after == if t.StartArray? then true else if t.EndArray? then false else before
    requires t.StartArray? ==> !before
    ensures n.stack == k + [InObject] + (if after then [InArray] else [])
  {
  }
}
