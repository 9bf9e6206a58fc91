/**
 The tokenizer as a pushdown machine: one `Step` per call of `Tokenizer::Next`, and
 `Run`, the stream of tokens up to the first final one.
 */
module TokenMachine {
  import opened Common
  import opened Lexer

  datatype State =
    ExpectField | ExpectObjectStart | ExpectObjectEnd | ExpectArrayEnd | ExpectValue | ExpectEnd

  /** What kind of bracket is open. */
  datatype Kind = InObject | InArray

  /**
   The tokens, with the field name or value that goes along.  `PastEnd` is the outcome
   of a call that reads beyond the end of the input.
   */
  datatype Token =
    | End | Error | PastEnd
    | StartObject | EndObject | StartArray | EndArray
    | Field(name: string)
    | NumberValue(text: string) | StringValue(text: string) | TrueValue | FalseValue

  predicate Final(t: Token) {
    t.End? || t.Error? || t.PastEnd?
  }

  /** `state_`, `data_` and `object_type_`. */
  datatype Machine = Machine(state: State, data: string, stack: seq<Kind>)

  datatype Stepped = Stepped(machine: Machine, token: Token)

  /** The states in which the code looks at the top of the stack have one. */
  predicate Safe(m: Machine) {
    !m.state.ExpectObjectStart? && !m.state.ExpectEnd? ==> m.stack != []
  }

  /** State and stack agree: what is expected next fits the innermost open bracket. */
  predicate Agrees(m: Machine) {
    match m.state
    case ExpectObjectStart => m.stack == []
    case ExpectEnd => m.stack == []
    case ExpectField => m.stack != [] && Last(m.stack).InObject?
    case ExpectObjectEnd => m.stack != [] && Last(m.stack).InObject?
    case ExpectArrayEnd => m.stack != [] && Last(m.stack).InArray?
    case ExpectValue => m.stack != []
  }

  function Measure(m: Machine): nat {
    2 * |m.data| + |m.stack|
  }

  /** A token that is not final leaves the machine in order and at most `bound` of the input's measure. */
  predicate Progress(s: Stepped, bound: nat) {
    !s.token.End? && Safe(s.machine) && (!Final(s.token) ==> Agrees(s.machine) && Measure(s.machine) <= bound)
  }

  function Start(text: string): Machine {
    Machine(ExpectObjectStart, text, [])
  }

  function Closer(k: Kind): string {
    if k.InObject? then "}" else "]"
  }

  function CloseState(k: Kind): State {
    if k.InObject? then ExpectObjectEnd else ExpectArrayEnd
  }

  function NextItem(k: Kind): State {
    if k.InObject? then ExpectField else ExpectValue
  }

  /** Where the machine goes after a value. */
  datatype Continuation = Go(machine: Machine) | Stuck | Overrun

  /** Skips whitespace and continues in the given state. */
  function Resume(st: State, d: string, k: seq<Kind>): (c: Continuation)
    ensures c.Go? ==> c.machine.state == st && c.machine.stack == k && |c.machine.data| <= |d|
    ensures !c.Stuck?
  {
    match SkipSpace(d)
    case None => Overrun
    case Some(e) => Go(Machine(st, e, k))
  }

  /** After a value with `k` open around it: a comma, the closing bracket, or an error. */
  function After(k: seq<Kind>, d: string): (c: Continuation)
    ensures c.Go? ==> Agrees(c.machine) && c.machine.stack == k && |c.machine.data| <= |d|
  {
    if k == [] then Go(Machine(ExpectEnd, d, k))
    else if "," <= d then Resume(NextItem(Last(k)), d[1..], k)
    else if Closer(Last(k)) <= d then Resume(CloseState(Last(k)), d[1..], k)
    else Stuck
  }

  /** Delivers `t` if the machine can go on; otherwise stays where `stuck` says. */
  function Deliver(c: Continuation, t: Token, stuck: Machine): Stepped {
    match c
    case Go(m) => Stepped(m, t)
    case Stuck => Stepped(stuck, Error)
    case Overrun => Stepped(stuck, PastEnd)
  }

  function OpenObject(d: string, k: seq<Kind>, here: Machine): (s: Stepped)
    requires Safe(here)
    ensures Progress(s, 2 * |d| + |k| + 1)
  {
    match SkipSpace(d)
    case None => Stepped(here, PastEnd)
    case Some(e) =>
      if "}" <= e then Deliver(Resume(ExpectObjectEnd, e[1..], k + [InObject]), StartObject, here)
      else Stepped(Machine(ExpectField, e, k + [InObject]), StartObject)
  }

  /** A scalar has been read; `t` is its token (or `Error` if there was none). */
  function Scalar(t: Token, d: string, k: seq<Kind>): (s: Stepped)
    requires k != [] && !t.End?
    ensures Progress(s, 2 * |d| + |k|)
  {
    match SkipSpace(d)
    case None => Stepped(Machine(ExpectValue, d, k), PastEnd)
    case Some(e) => Deliver(After(k, e), t, Machine(ExpectValue, e, k))
  }

  /** The transient states that report the end of an object or array. */
  function Close(st: State, d: string, k: seq<Kind>): (s: Stepped)
    requires k != []
    ensures Progress(s, 2 * |d| + |k| - 1)
  {
    Deliver(After(ButLast(k), d), if st.ExpectArrayEnd? then EndArray else EndObject, Machine(st, d, ButLast(k)))
  }

  function FieldStep(m: Machine): (s: Stepped)
    requires m.stack != []
    ensures !s.token.End? && Safe(s.machine)
    ensures !Final(s.token) ==> Agrees(s.machine) && Measure(s.machine) < Measure(m)
  {
    match ReadString(m.data)
    case None => Stepped(m.(data := if "}" <= m.data then m.data[1..] else m.data), Error)
    case Some((name, r)) =>
      match SkipSpace(r)
      case None => Stepped(m, PastEnd)
      case Some(e) =>
        if e == "" then Stepped(m, PastEnd)
        else if ":" <= e then Deliver(Resume(ExpectValue, e[1..], m.stack), Field(name), m)
        else Stepped(m.(data := e), Error)
  }

  function ValueStep(m: Machine): (s: Stepped)
    requires m.stack != []
    ensures !s.token.End? && Safe(s.machine)
    ensures !Final(s.token) ==> Agrees(s.machine) && Measure(s.machine) < Measure(m)
  {
    var d, k := m.data, m.stack;
    if "{" <= d then OpenObject(d[1..], k, m)
    else if "[" <= d then Deliver(Resume(ExpectValue, d[1..], k + [InArray]), StartArray, m)
    else
      match ReadString(d)
      case Some((s, r)) => Scalar(StringValue(s), r, k)
      case None => NumberStep(m)
  }

  /** Neither bracket nor string: perhaps a number. */
  function NumberStep(m: Machine): (s: Stepped)
    requires m.stack != []
    ensures !s.token.End? && Safe(s.machine)
    ensures !Final(s.token) ==> Agrees(s.machine) && Measure(s.machine) < Measure(m)
  {
    ReadNumberShrinks(m.data);
    match ReadNumber(m.data)
    case Number(v, r) => Scalar(NumberValue(v), r, m.stack)
    case NumberPast => Stepped(m, PastEnd)
    case NoNumber(r) => WordStep(r, m.stack)
  }

  /** Nor a number: perhaps `true` or `false`. */
  function WordStep(r: string, k: seq<Kind>): (s: Stepped)
    requires k != []
    ensures !s.token.End? && Safe(s.machine)
    ensures !Final(s.token) ==> Agrees(s.machine) && Measure(s.machine) < 2 * |r| + |k|
  {
    if "true" <= r then Scalar(TrueValue, r[4..], k)
    else if "false" <= r then Scalar(FalseValue, r[5..], k)
    else CloseStep(r, k)
  }

  /** No value: the closing bracket reported in its place, or a syntax error. */
  function CloseStep(r: string, k: seq<Kind>): (s: Stepped)
    requires k != []
    ensures !s.token.End? && Safe(s.machine)
    ensures !Final(s.token) ==> Agrees(s.machine) && Measure(s.machine) < 2 * |r| + |k|
  {
    if Closer(Last(k)) <= r then
      match SkipSpace(r[1..])
      case None => Stepped(Machine(ExpectValue, r, k), PastEnd)
      case Some(e) => Close(CloseState(Last(k)), e, k)
    else Scalar(Error, r, k)
  }

  /**
   One call of `Next`.  No call, not even one after an error, touches the top of an empty
   stack; every token that is not final leaves state and stack in agreement and uses up
   input or an open bracket.
   */
  function Step(m: Machine): (s: Stepped)
    requires Safe(m)
    ensures Safe(s.machine)
    ensures !Final(s.token) ==> Agrees(s.machine) && Measure(s.machine) < Measure(m)
    ensures s.token.End? <==> m.state.ExpectEnd? && m.data == ""
  {
    match m.state
    case ExpectObjectStart =>
      if "{" <= m.data then OpenObject(m.data[1..], m.stack, m) else Stepped(m, Error)
    case ExpectField => FieldStep(m)
    case ExpectValue => ValueStep(m)
    case ExpectObjectEnd => Close(m.state, m.data, m.stack)
    case ExpectArrayEnd => Close(m.state, m.data, m.stack)
    case ExpectEnd => Stepped(m, if m.data == "" then End else Error)
  }

  /** The tokens delivered from here on, up to and including the first final one. */
  function Run(m: Machine): (ts: seq<Token>)
    requires Safe(m)
    ensures ts != [] && Final(Last(ts))
    decreases Measure(m)
  {
    var s := Step(m);
    if Final(s.token) then [s.token]
    else [s.token] + Run(s.machine)
  }

  function Tokens(text: string): seq<Token> {
    Run(Start(text))
  }

  /** The tokenizer is called at most `2n + 1` times on an input of length `n`. */
  lemma {:induction false} RunLength(m: Machine)
    requires Safe(m)
    ensures |Run(m)| <= Measure(m) + 1
    decreases Measure(m)
  {
    var s := Step(m);
    if !Final(s.token) {
      RunLength(s.machine);
    }
  }

  lemma TokensLength(text: string)
    ensures |Tokens(text)| <= 2 * |text| + 1
  {
    RunLength(Start(text));
  }
}
