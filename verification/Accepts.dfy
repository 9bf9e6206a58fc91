/** Every layout is accepted, and delivers the walk of its tree. */
module Accepts {
  import opened Common
  import opened Lexer
  import opened TokenMachine
  import opened Json
  import opened Grammar

  /** `d` is what may follow a value inside the brackets `k`, whitespace aside. */
  predicate Follows(k: seq<Kind>, d: string) {
    After(k, d).Go? && (d == "" || Solid(d))
  }

  /** The tokens that come after that value. */
  function Rest(k: seq<Kind>, d: string): seq<Token>
    requires Follows(k, d)
  {
    Run(After(k, d).machine)
  }

  lemma SpaceStops(w: string, d: string)
    requires IsSpace(w) && (d == "" || Solid(d))
    ensures SkipSpace(w + d) == Some(d)
  {
    SkipSpaceAppend(w, d);
  }

  lemma FollowTail(w: string, d: string, k: seq<Kind>)
    requires IsSpace(w) && Follows(k, d) && k != []
    ensures Tail(w + d)
  {
    if w == "" {
      assert w + d == d;
    }
  }

  // ---------------------------------------------------------------------- scalars

  lemma ScalarStep(t: Token, w: string, d: string, k: seq<Kind>)
    requires IsSpace(w) && Follows(k, d) && k != [] && !t.End?
    ensures Scalar(t, w + d, k) == Stepped(After(k, d).machine, t)
  {
    SpaceStops(w, d);
  }

  lemma QuotedReads(raw: string, s: string, r: string)
    requires Spells(raw, s)
    ensures ReadString(Quoted(raw, r)) == Some((s, r))
  {
    SpelledReads(raw, s, r);
    assert Quoted(raw, r) == "\"" + raw + "\"" + r;
  }

  lemma NumberReads(raw: string, text: string, t: string)
    requires NumberSpelling(raw, text) && Tail(t)
    ensures ReadNumber(raw + t) == Number(text, t)
  {
    if raw == text {
      NumberDelimited(raw, t);
    } else {
      var n := "null" + t;
      assert n[1] == 'u' && n[4..] == t;
      assert raw == "-null" ==> (raw + t)[1..] == n;
      assert raw == "null" ==> (raw + t)[0] == 'n';
      assert SkipMinus(raw + t) == n;
    }
  }

  lemma NumberHeadAt(d: string)
    requires ReadNumber(d).Number?
    ensures d != "" && (d[0] == '-' || d[0] == 'n' || d[0] == 'i' || Digit(d[0]))
  {
    if !("-" <= d) {
      assert SkipMinus(d) == d;
    }
  }

  lemma NumberHead(v: string)
    requires IsNumber(v)
    ensures v != "" && (v[0] == '-' || v[0] == 'n' || v[0] == 'i' || Digit(v[0]))
  {
    NumberHeadAt(v + ",");
  }

  lemma MinusSkipped(dash: bool, n: string)
    requires n != "" && n[0] != '-'
    ensures SkipMinus(Dash(dash) + n) == n
    ensures (Dash(dash) + n)[0] == if dash then '-' else n[0]
  {
    assert dash ==> (Dash(dash) + n)[1..] == n;
    assert !dash ==> Dash(dash) + n == n;
  }

  /** A character that starts no number. */
  predicate NoDigit(c: char) {
    !Digit(c) && c != '-' && c != 'n' && c != 'i'
  }

  /** A stray minus is consumed even though no number follows. */
  lemma NoNumberReads(dash: bool, n: string)
    requires n != "" && NoDigit(n[0])
    ensures ReadNumber(Dash(dash) + n) == NoNumber(n)
  {
    MinusSkipped(dash, n);
  }

  /** Without bracket, string or number in front, a value step looks for a keyword or closing bracket. */
  lemma WordExpected(dash: bool, n: string, k: seq<Kind>)
    requires n != "" && NoDigit(n[0]) && n[0] != '{' && n[0] != '[' && n[0] != '\"' && k != []
    ensures ValueStep(Machine(ExpectValue, Dash(dash) + n, k)) == WordStep(n, k)
  {
    hide WordStep, ReadNumber, Scalar, OpenObject;
    MinusSkipped(dash, n);
    NoNumberReads(dash, n);
  }

  lemma StringStep(raw: string, text: string, w: string, d: string, k: seq<Kind>)
    requires Spells(raw, text) && IsSpace(w) && Follows(k, d) && k != []
    ensures ValueStep(Machine(ExpectValue, Quoted(raw, w + d), k)) == Stepped(After(k, d).machine, StringValue(text))
  {
    QuotedReads(raw, text, w + d);
    ScalarStep(StringValue(text), w, d, k);
  }

  lemma NumberStepReads(raw: string, text: string, w: string, d: string, k: seq<Kind>)
    requires NumberSpelling(raw, text) && IsSpace(w) && Follows(k, d) && k != []
    ensures ValueStep(Machine(ExpectValue, raw + (w + d), k)) == Stepped(After(k, d).machine, NumberValue(text))
  {
    FollowTail(w, d, k);
    NumberReads(raw, text, w + d);
    ScalarStep(NumberValue(text), w, d, k);
    NumberExpected(raw + (w + d), k);
  }

  lemma NumberExpected(d: string, k: seq<Kind>)
    requires ReadNumber(d).Number? && k != []
    ensures ValueStep(Machine(ExpectValue, d, k)) == NumberStep(Machine(ExpectValue, d, k))
  {
    NumberHeadAt(d);
  }

  lemma WordStepReads(dash: bool, word: bool, w: string, d: string, k: seq<Kind>)
    requires IsSpace(w) && Follows(k, d) && k != []
    ensures ValueStep(Machine(ExpectValue, Text(LWord(dash, word), w + d), k)) ==
      Stepped(After(k, d).machine, if word then TrueValue else FalseValue)
  {
    var t := if word then "true" else "false";
    WordExpected(dash, t + (w + d), k);
    assert (t + (w + d))[|t|..] == w + d;
    ScalarStep(if word then TrueValue else FalseValue, w, d, k);
  }

  lemma Leaves(v: Layout, w: string, d: string, k: seq<Kind>)
    requires Ok(v) && !v.LObject? && !v.LArray? && IsSpace(w) && Follows(k, d) && k != []
    ensures Run(Machine(ExpectValue, Text(v, w + d), k)) == Walk(Erase(v), Rest(k, d))
  {
    var m := Machine(ExpectValue, Text(v, w + d), k);
    match v {
      case LString(raw, text) => StringStep(raw, text, w, d, k);
      case LNumber(raw, text) => NumberStepReads(raw, text, w, d, k);
      case LWord(dash, word) => WordStepReads(dash, word, w, d, k);
    }
    assert Step(m) == ValueStep(m);
  }

  // --------------------------------------------------------------------- brackets

  function EndToken(kind: Kind): Token {
    if kind.InObject? then EndObject else EndArray
  }

  /** One step of a run. */
  lemma RunStep(m: Machine, n: Machine, t: Token)
    requires Safe(m) && Step(m) == Stepped(n, t) && !Final(t)
    ensures Safe(n) && Run(m) == [t] + Run(n)
  {
    hide Step;
  }

  lemma ClosesAfter(kind: Kind, w: string, d: string, k: seq<Kind>)
    requires IsSpace(w) && (d == "" || Solid(d))
    ensures After(k + [kind], Closer(kind) + (w + d)) == Go(Machine(CloseState(kind), d, k + [kind]))
  {
    hide SkipSpace, IsSpace;
    SpaceStops(w, d);
    var c := Closer(kind) + (w + d);
    assert c[0] != ',' && c[1..] == w + d;
    assert Last(k + [kind]) == kind;
  }

  lemma ClosesStep(kind: Kind, d: string, k: seq<Kind>)
    requires After(k, d).Go?
    ensures Step(Machine(CloseState(kind), d, k + [kind])) == Stepped(After(k, d).machine, EndToken(kind))
  {
    hide After;
    assert ButLast(k + [kind]) == k;
  }

  /** A closing bracket inside `k` and one of its kind. */
  lemma Closes(kind: Kind, w: string, d: string, k: seq<Kind>)
    requires IsSpace(w) && Follows(k, d)
    ensures Follows(k + [kind], Closer(kind) + (w + d))
    ensures Rest(k + [kind], Closer(kind) + (w + d)) == [EndToken(kind)] + Rest(k, d)
  {
    hide After, Step, Run, SkipSpace, IsSpace;
    ClosesAfter(kind, w, d, k);
    ClosesStep(kind, d, k);
    RunStep(Machine(CloseState(kind), d, k + [kind]), After(k, d).machine, EndToken(kind));
    assert (Closer(kind) + (w + d))[0] == Closer(kind)[0];
  }

  /** A comma inside `k`. */
  lemma Commas(w: string, d: string, k: seq<Kind>)
    requires IsSpace(w) && Solid(d) && k != []
    ensures Follows(k, "," + (w + d))
    ensures Rest(k, "," + (w + d)) == Run(Machine(NextItem(Last(k)), d, k))
  {
    hide SkipSpace, IsSpace, Run;
    SpaceStops(w, d);
    assert ("," + (w + d))[1..] == w + d;
  }

  lemma ClosesEarlyStep(dash: bool, kind: Kind, w: string, d: string, k: seq<Kind>)
    requires IsSpace(w) && Follows(k, d)
    ensures ValueStep(Machine(ExpectValue, Dash(dash) + (Closer(kind) + (w + d)), k + [kind])) ==
      Stepped(After(k, d).machine, EndToken(kind))
  {
    hide SkipSpace, IsSpace, ValueStep, After;
    var r := Closer(kind) + (w + d);
    WordExpected(dash, r, k + [kind]);
    SpaceStops(w, d);
    assert r[1..] == w + d && r[0] == Closer(kind)[0];
    assert ButLast(k + [kind]) == k && Last(k + [kind]) == kind;
    assert WordStep(r, k + [kind]) == CloseStep(r, k + [kind]);
  }

  /** A closing bracket found where a value was expected. */
  lemma ClosesEarly(dash: bool, kind: Kind, w: string, d: string, k: seq<Kind>)
    requires IsSpace(w) && Follows(k, d)
    ensures Run(Machine(ExpectValue, Dash(dash) + (Closer(kind) + (w + d)), k + [kind])) ==
      [EndToken(kind)] + Rest(k, d)
  {
    hide ValueStep, After, Run, SkipSpace, IsSpace;
    ClosesEarlyStep(dash, kind, w, d, k);
    var m := Machine(ExpectValue, Dash(dash) + (Closer(kind) + (w + d)), k + [kind]);
    assert Step(m) == ValueStep(m);
    RunStep(m, After(k, d).machine, EndToken(kind));
  }

  lemma SolidValue(v: Layout, r: string)
    requires Ok(v)
    ensures Solid(Text(v, r))
  {
    if v.LNumber? {
      if v.raw == v.text {
        NumberHead(v.raw);
      }
    }
  }

  lemma SolidFields(fs: LFields, r: string)
    requires OkFields(fs)
    ensures Solid(TextFields(fs, "}" + r))
  {
    hide Text, OkKey;
  }

  lemma SolidDash(dash: bool, r: string)
    ensures Solid(Dash(dash) + ("}" + r))
  {
    assert (Dash(dash) + ("}" + r))[0] == if dash then '-' else '}';
  }

  lemma SolidItems(xs: LItems, r: string)
    requires OkItems(xs)
    ensures Solid(TextItems(xs, "]" + r))
  {
    if !xs.LEnd? {
      SolidValue(xs.value, if xs.LLastItem? then xs.w + ("]" + r)
                           else xs.w + ("," + (xs.w' + TextItems(xs.rest, "]" + r))));
    }
  }

  // ------------------------------------------------------------------- the theorem

  lemma KeyStep(key: Key, d: string, k: seq<Kind>)
    requires OkKey(key) && Solid(d) && k != []
    ensures Run(Machine(ExpectField, TextKey(key, d), k)) == [Field(key.name)] + Run(Machine(ExpectValue, d, k))
  {
    hide FieldStep, Run, OkKey, Solid, TextKey;
    KeyFieldStep(key, d, k);
    var m := Machine(ExpectField, TextKey(key, d), k);
    assert Step(m) == FieldStep(m);
    RunStep(m, Machine(ExpectValue, d, k), Field(key.name));
  }

  lemma KeyFieldStep(key: Key, d: string, k: seq<Kind>)
    requires OkKey(key) && Solid(d) && k != []
    ensures FieldStep(Machine(ExpectField, TextKey(key, d), k)) == Stepped(Machine(ExpectValue, d, k), Field(key.name))
  {
    hide SkipSpace, IsSpace, ReadString, Spells;
    var r := ":" + (key.w' + d);
    QuotedReads(key.raw, key.name, key.w + r);
    SpaceStops(key.w, r);
    assert r[1..] == key.w' + d;
    SpaceStops(key.w', d);
  }

  /** A value delivers its walk, whatever is open around it and whatever follows it. */
  lemma {:induction false} ValueRuns(v: Layout, w: string, d: string, k: seq<Kind>)
    requires Ok(v) && IsSpace(w) && Follows(k, d) && k != []
    ensures Run(Machine(ExpectValue, Text(v, w + d), k)) == Walk(Erase(v), Rest(k, d))
    decreases v, 1
  {
    var m := Machine(ExpectValue, Text(v, w + d), k);
    match v
    case LObject(w0, fs) =>
      ObjectRuns(v, w, d, k, m);
      assert m.data[1..] == w0 + TextFields(fs, "}" + (w + d));
      assert Step(m) == OpenObject(m.data[1..], k, m);
    case LArray(w0, xs) =>
      ArrayRuns(v, w, d, k);
    case _ =>
      Leaves(v, w, d, k);
  }

  lemma {:induction false} ObjectRuns(v: Layout, w: string, d: string, k: seq<Kind>, here: Machine)
    requires v.LObject? && Ok(v) && IsSpace(w) && Follows(k, d) && Safe(here)
    ensures var s := OpenObject(v.w + TextFields(v.fields, "}" + (w + d)), k, here);
      s.token == StartObject && [StartObject] + Run(s.machine) == Walk(Erase(v), Rest(k, d))
    decreases v, 0
  {
    hide Run, Follows, SkipSpace, IsSpace, Solid;
    var fs, tail := v.fields, "}" + (w + d);
    SolidFields(fs, w + d);
    SpaceStops(v.w, TextFields(fs, tail));
    Closes(InObject, w, d, k);
    if fs.LNoFields? {
      EmptyObject(w, d, k);
      assert tail[1..] == w + d;
    } else {
      NoBrace(fs, tail);
      FieldsRun(fs, w, d, k);
    }
  }

  lemma EmptyObject(w: string, d: string, k: seq<Kind>)
    requires IsSpace(w) && Follows(k, d)
    ensures SkipSpace(w + d) == Some(d)
    ensures Run(Machine(ExpectObjectEnd, d, k + [InObject])) == [EndObject] + Rest(k, d)
  {
    hide After, Step, Run, SkipSpace, IsSpace;
    SpaceStops(w, d);
    ClosesStep(InObject, d, k);
    RunStep(Machine(ExpectObjectEnd, d, k + [InObject]), After(k, d).machine, EndObject);
  }

  lemma NoBrace(fs: LFields, tail: string)
    requires OkFields(fs) && !fs.LNoFields?
    ensures !("}" <= TextFields(fs, tail))
  {
    assert TextFields(fs, tail)[0] == '\"';
  }

  lemma {:induction false} FieldsRun(fs: LFields, w: string, d: string, k: seq<Kind>)
    requires OkFields(fs) && !fs.LNoFields? && IsSpace(w) && Follows(k, d)
    ensures Run(Machine(ExpectField, TextFields(fs, "}" + (w + d)), k + [InObject])) ==
      WalkFields(EraseFields(fs), [EndObject] + Rest(k, d))
    decreases fs
  {
    hide Run, Solid, Follows, Text, OkKey, TextKey;
    var tail, k' := "}" + (w + d), k + [InObject];
    Closes(InObject, w, d, k);
    match fs
    case LMissing(key, dash) =>
      SolidDash(dash, w + d);
      KeyStep(key, Dash(dash) + tail, k');
      ClosesEarly(dash, InObject, w, d, k);
    case LLastField(key, v, w1) =>
      SolidValue(v, w1 + tail);
      KeyStep(key, Text(v, w1 + tail), k');
      ValueRuns(v, w1, tail, k');
    case LField(key, v, w1, w2, rest) =>
      var next := TextFields(rest, tail);
      SolidFields(rest, w + d);
      Commas(w2, next, k');
      SolidValue(v, w1 + ("," + (w2 + next)));
      KeyStep(key, Text(v, w1 + ("," + (w2 + next))), k');
      ValueRuns(v, w1, "," + (w2 + next), k');
      FieldsRun(rest, w, d, k);
  }

  lemma {:induction false} ArrayRuns(v: Layout, w: string, d: string, k: seq<Kind>)
    requires v.LArray? && Ok(v) && IsSpace(w) && Follows(k, d) && k != []
    ensures Run(Machine(ExpectValue, Text(v, w + d), k)) == Walk(Erase(v), Rest(k, d))
    decreases v, 0
  {
    var m := Machine(ExpectValue, Text(v, w + d), k);
    var next := TextItems(v.items, "]" + (w + d));
    SolidItems(v.items, w + d);
    SpaceStops(v.w, next);
    assert m.data[1..] == v.w + next;
    assert m.data[0] == '[' && "[" <= m.data;
    assert ValueStep(m) == Deliver(Resume(ExpectValue, m.data[1..], k + [InArray]), StartArray, m);
    assert Step(m) == Stepped(Machine(ExpectValue, next, k + [InArray]), StartArray);
    ItemsRun(v.items, w, d, k);
  }

  lemma {:induction false} ItemsRun(xs: LItems, w: string, d: string, k: seq<Kind>)
    requires OkItems(xs) && IsSpace(w) && Follows(k, d)
    ensures Run(Machine(ExpectValue, TextItems(xs, "]" + (w + d)), k + [InArray])) ==
      WalkItems(EraseItems(xs), [EndArray] + Rest(k, d))
    decreases xs
  {
    hide Run, Solid, Follows, Text;
    var tail, k' := "]" + (w + d), k + [InArray];
    Closes(InArray, w, d, k);
    match xs
    case LEnd(dash) =>
      ClosesEarly(dash, InArray, w, d, k);
    case LLastItem(v, w1) =>
      ValueRuns(v, w1, tail, k');
    case LItem(v, w1, w2, rest) =>
      SolidItems(rest, w + d);
      Commas(w2, TextItems(rest, tail), k');
      ValueRuns(v, w1, "," + (w2 + TextItems(rest, tail)), k');
      ItemsRun(rest, w, d, k);
  }

  /** Every spelling of an object is accepted and delivers the walk of that object. */
  lemma SpellingAccepted(text: string, j: Json)
    requires Spelling(text, j)
    ensures Tokens(text) == Walk(j, [End])
  {
    var v: Layout, w: string :| v.LObject? && Ok(v) && IsSpace(w) && text == Text(v, w) && Erase(v) == j;
    assert w + "" == w;
    ObjectRuns(v, w, "", [], Start(text));
    assert text[1..] == v.w + TextFields(v.fields, "}" + (w + ""));
    assert Step(Start(text)) == OpenObject(text[1..], [], Start(text));
  }
}
