/** Every text the tokenizer accepts is a layout: from a run that ends well, the layout is rebuilt. */
module Recovers {
  import opened Common
  import opened Lexer
  import opened TokenMachine
  import opened Json
  import opened Grammar
  import opened Accepts

  /** The rest of the input is accepted from here. */
  predicate Good(m: Machine) {
    Safe(m) && Last(Run(m)) == End
  }

  lemma GoodStep(m: Machine)
    requires Good(m) && !m.state.ExpectEnd?
    ensures !Final(Step(m).token) && Good(Step(m).machine)
    ensures Run(m) == [Step(m).token] + Run(Step(m).machine)
  {
  }

  lemma {:induction false} WalkLast(j: Json, r: seq<Token>)
    requires r != []
    ensures Walk(j, r) != [] && Last(Walk(j, r)) == Last(r)
    decreases j
  {
    match j
    case Leaf(_) =>
    case Object(fs) => FieldsLast(fs, [EndObject] + r);
    case Array(xs) => ItemsLast(xs, [EndArray] + r);
  }

  lemma {:induction false} FieldsLast(fs: Fields, r: seq<Token>)
    requires r != []
    ensures WalkFields(fs, r) != [] && Last(WalkFields(fs, r)) == Last(r)
    decreases fs
  {
    if fs.Member? {
      FieldsLast(fs.rest, r);
      WalkLast(fs.value, WalkFields(fs.rest, r));
    }
  }

  lemma {:induction false} ItemsLast(xs: Items, r: seq<Token>)
    requires r != []
    ensures WalkItems(xs, r) != [] && Last(WalkItems(xs, r)) == Last(r)
    decreases xs
  {
    if xs.Item? {
      ItemsLast(xs.rest, r);
      WalkLast(xs.value, WalkItems(xs.rest, r));
    }
  }

  /** A value with its spaces and what follows, found at the front of `text` inside `k`. */
  ghost predicate Found(text: string, v: Layout, w: string, d: string, k: seq<Kind>) {
    Ok(v) && IsSpace(w) && Follows(k, d) && Good(After(k, d).machine) && text == Text(v, w + d)
  }

  lemma GoodAfter(v: Layout, w: string, d: string, k: seq<Kind>)
    requires Ok(v) && IsSpace(w) && Follows(k, d) && k != []
    requires Good(Machine(ExpectValue, Text(v, w + d), k))
    ensures Good(After(k, d).machine)
  {
    ValueRuns(v, w, d, k);
    WalkLast(Erase(v), Rest(k, d));
  }

  // ---------------------------------------------------------------------- scalars

  lemma SplitNumber(d: string) returns (raw: string)
    requires ReadNumber(d).Number?
    ensures NumberSpelling(raw, ReadNumber(d).text) && d == raw + ReadNumber(d).rest
  {
    hide IsNumber, ScanDecimal;
    NumberReported(d);
    ReadNumberShrinks(d);
    RestIsSuffix(d);
    var n, r := SkipMinus(d), ReadNumber(d).rest;
    raw := d[..|d| - |r|];
    assert d == raw + r;
    if "null" <= n && !("nan" <= n) {
      NullText(d);
    }
  }

  lemma NullText(d: string)
    requires "null" <= SkipMinus(d)
    ensures |SkipMinus(d)[4..]| == |SkipMinus(d)| - 4
    ensures d[..|d| - |SkipMinus(d)| + 4] == if "-" <= d then "-null" else "null"
  {
    var n := SkipMinus(d);
    assert n[..4] == "null";
    if "-" <= d {
      assert d == ['-'] + n;
      assert d[..5] == ['-'] + n[..4];
    }
  }

  predicate Suffix(r: string, d: string) {
    |r| <= |d| && d[|d| - |r|..] == r
  }

  lemma SuffixTrans(a: string, b: string, c: string)
    requires Suffix(a, b) && Suffix(b, c)
    ensures Suffix(a, c)
  {
    assert a == b[|b| - |a|..] == c[|c| - |b|..][|b| - |a|..] == c[|c| - |a|..];
  }

  lemma DecimalSuffix(n: string, o: string)
    requires ScanDecimal(n, o).At?
    ensures Suffix(ScanDecimal(n, o).rest, n)
  {
    var a, b, c := SplitDecimal(n, o);
    ConcatAssoc(b, c, ScanDecimal(n, o).rest);
    ConcatAssoc(a, b + c, ScanDecimal(n, o).rest);
  }

  lemma RestIsSuffix(d: string)
    requires ReadNumber(d).Number?
    ensures Suffix(ReadNumber(d).rest, d)
  {
    var n := SkipMinus(d);
    if !("nan" <= n) && !("null" <= n) && !("inf" <= n) {
      DecimalSuffix(n, d);
    }
    SuffixTrans(ReadNumber(d).rest, n, d);
  }

  /** Where no number is found, at most a minus is gone. */
  lemma NoNumberSplit(d: string) returns (dash: bool)
    requires ReadNumber(d).NoNumber?
    ensures d == Dash(dash) + ReadNumber(d).rest
  {
    var r := ReadNumber(d).rest;
    dash := "-" <= d && r != d;
    assert r == d || r == SkipMinus(d);
    assert dash ==> d == "-" + d[1..];
    assert d == "" + d;
  }

  /** The spaces after a scalar, and what comes behind them. */
  lemma SplitScalar(t: Token, d: string, k: seq<Kind>) returns (w: string, e: string)
    requires k != [] && !Final(t) && !Final(Scalar(t, d, k).token)
    ensures IsSpace(w) && Follows(k, e) && d == w + e
  {
    w := SplitSpace(d);
    e := SkipSpace(d).value;
  }

  /** At a value, no value but the closing bracket is found. */
  predicate ClosesHere(m: Machine)
    requires m.stack != []
  {
    var d := m.data;
    && !("{" <= d) && !("[" <= d) && ReadString(d).None? && ReadNumber(d).NoNumber?
    && var r := ReadNumber(d).rest;
       !("true" <= r) && !("false" <= r) && Closer(Last(m.stack)) <= r
  }

  lemma SplitString(d: string) returns (raw: string)
    requires ReadString(d).Some?
    ensures Spells(raw, ReadString(d).value.0) && d == Quoted(raw, ReadString(d).value.1)
  {
    raw := SplitBody(d[1..]);
    assert d == d[..1] + d[1..];
    ConcatAssoc(raw, "\"", ReadString(d).value.1);
  }

  lemma FindString(m: Machine) returns (v: Layout, w: string, d: string)
    requires Good(m) && m.state.ExpectValue? && !("{" <= m.data) && !("[" <= m.data) && ReadString(m.data).Some?
    ensures Found(m.data, v, w, d, m.stack)
  {
    GoodStep(m);
    var (s, r) := ReadString(m.data).value;
    var raw := SplitString(m.data);
    v := LString(raw, s);
    w, d := SplitScalar(StringValue(s), r, m.stack);
    GoodAfter(v, w, d, m.stack);
  }

  lemma FindNumber(m: Machine) returns (v: Layout, w: string, d: string)
    requires Good(m) && m.state.ExpectValue? && !("{" <= m.data) && !("[" <= m.data) && ReadString(m.data).None?
    requires ReadNumber(m.data).Number?
    ensures Found(m.data, v, w, d, m.stack)
  {
    GoodStep(m);
    var raw := SplitNumber(m.data);
    v := LNumber(raw, ReadNumber(m.data).text);
    w, d := SplitScalar(NumberValue(v.text), ReadNumber(m.data).rest, m.stack);
    GoodAfter(v, w, d, m.stack);
  }

  lemma FindWord(m: Machine) returns (v: Layout, w: string, d: string)
    requires Good(m) && m.state.ExpectValue? && !("{" <= m.data) && !("[" <= m.data) && ReadString(m.data).None?
    requires !ReadNumber(m.data).Number? && !ClosesHere(m)
    ensures Found(m.data, v, w, d, m.stack)
  {
    GoodStep(m);
    assert Step(m) == NumberStep(m);
    var r := ReadNumber(m.data).rest;
    var dash := NoNumberSplit(m.data);
    var word;
    word, w, d := SplitWord(r, m.stack);
    v := LWord(dash, word);
    GoodAfter(v, w, d, m.stack);
  }

  lemma SplitWord(r: string, k: seq<Kind>) returns (word: bool, w: string, d: string)
    requires k != [] && !Final(WordStep(r, k).token)
    requires "true" <= r || "false" <= r || !(Closer(Last(k)) <= r)
    ensures IsSpace(w) && Follows(k, d) && r == (if word then "true" else "false") + (w + d)
  {
    word := "true" <= r;
    assert word || "false" <= r;
    var t := if word then "true" else "false";
    assert r == t + r[|t|..];
    w, d := SplitScalar(if word then TrueValue else FalseValue, r[|t|..], k);
  }

  // --------------------------------------------------------------------- brackets

  /** The bracket that is being closed fits into what surrounds it. */
  lemma GoodClose(m: Machine)
    requires Good(m) && Agrees(m) && (m.state.ExpectObjectEnd? || m.state.ExpectArrayEnd?)
    ensures Follows(ButLast(m.stack), m.data) && Good(After(ButLast(m.stack), m.data).machine)
  {
    GoodStep(m);
    var k := ButLast(m.stack);
    if k == [] {
      assert Run(Machine(ExpectEnd, m.data, k)) == [if m.data == "" then End else Error];
    }
  }

  lemma EarlyStep(m: Machine)
    requires m.state.ExpectValue? && m.stack != [] && ClosesHere(m)
    ensures Step(m) == CloseStep(ReadNumber(m.data).rest, m.stack)
  {
  }

  lemma FindEarlyClose(m: Machine) returns (dash: bool, w: string, d: string)
    requires Good(m) && m.state.ExpectValue? && ClosesHere(m)
    ensures var k := ButLast(m.stack);
      && IsSpace(w) && Follows(k, d) && Good(After(k, d).machine)
      && m.data == Dash(dash) + (Closer(Last(m.stack)) + (w + d))
  {
    GoodStep(m);
    var r := ReadNumber(m.data).rest;
    dash := NoNumberSplit(m.data);
    EarlyStep(m);
    w, d := FindClosed(m, r);
  }

  lemma FindClosed(m: Machine, r: string) returns (w: string, d: string)
    requires Good(m) && m.state.ExpectValue? && Closer(Last(m.stack)) <= r
    requires Step(m) == CloseStep(r, m.stack) && !Final(Step(m).token)
    ensures var k := ButLast(m.stack);
      && IsSpace(w) && Follows(k, d) && Good(After(k, d).machine)
      && r == Closer(Last(m.stack)) + (w + d)
  {
    hide Run, Step, After, IsSpace, Follows;
    ClosedSpace(m, r);
    w := SplitSpace(r[1..]);
    d := SkipSpace(r[1..]).value;
    assert r == Closer(Last(m.stack)) + r[1..];
    var c := Machine(CloseState(Last(m.stack)), d, m.stack);
    SameStep(c, m);
    GoodClose(c);
  }

  lemma SameStep(c: Machine, m: Machine)
    requires Safe(c) && Safe(m) && Step(c) == Step(m)
    ensures Run(c) == Run(m)
  {
    hide Step;
  }

  /** A closing bracket in place of a value is closed as if it had been announced. */
  lemma ClosedSpace(m: Machine, r: string)
    requires Safe(m) && m.state.ExpectValue? && Closer(Last(m.stack)) <= r
    requires Step(m) == CloseStep(r, m.stack) && !Final(Step(m).token)
    ensures SkipSpace(r[1..]).Some?
    ensures Step(Machine(CloseState(Last(m.stack)), SkipSpace(r[1..]).value, m.stack)) == Step(m)
  {
    hide ValueStep, After, SkipSpace;
  }

  /** After a value inside `k`: a comma and more, or the closing bracket. */
  lemma FindAfter(d: string, k: seq<Kind>) returns (comma: bool, w: string, e: string)
    requires k != [] && After(k, d).Go? && Good(After(k, d).machine)
    ensures IsSpace(w) && d == (if comma then "," else Closer(Last(k))) + (w + e)
    ensures comma ==> Good(Machine(NextItem(Last(k)), e, k))
    ensures !comma ==> Follows(ButLast(k), e) && Good(After(ButLast(k), e).machine)
  {
    hide Run, SkipSpace, IsSpace, Follows;
    comma := "," <= d;
    w := SplitSpace(d[1..]);
    e := SkipSpace(d[1..]).value;
    assert d == d[..1] + d[1..];
    if !comma {
      GoodClose(Machine(CloseState(Last(k)), e, k));
    }
  }

  lemma FindKey(m: Machine) returns (key: Key, d: string)
    requires Good(m) && m.state.ExpectField?
    ensures OkKey(key) && m.data == TextKey(key, d) && Good(Machine(ExpectValue, d, m.stack)) && |d| < |m.data|
  {
    GoodStep(m);
    var (name, r) := ReadString(m.data).value;
    var raw := SplitString(m.data);
    var w := SplitSpace(r);
    var e := SkipSpace(r).value;
    var w' := SplitSpace(e[1..]);
    d := SkipSpace(e[1..]).value;
    assert e == ":" + e[1..];
    key := Key(raw, name, w, w');
  }

  // ------------------------------------------------------------------- the theorem

  lemma {:induction false} FindValue(m: Machine) returns (v: Layout, w: string, d: string)
    requires Good(m) && m.state.ExpectValue? && !ClosesHere(m)
    ensures Found(m.data, v, w, d, m.stack) && |d| < |m.data|
    decreases |m.data|, 2
  {
    if "{" <= m.data {
      GoodStep(m);
      v, w, d := FindObject(m, m.stack);
    } else if "[" <= m.data {
      v, w, d := FindArray(m);
    } else if ReadString(m.data).Some? {
      v, w, d := FindString(m);
    } else if ReadNumber(m.data).Number? {
      v, w, d := FindNumber(m);
    } else {
      v, w, d := FindWord(m);
    }
    TextLonger(v, w, d);
  }

  lemma TextLonger(v: Layout, w: string, d: string)
    requires Ok(v)
    ensures |d| < |Text(v, w + d)|
  {
    match v
    case LNumber(raw, text) =>
      if raw == text {
        NumberHead(raw);
      }
    case LObject(_, fs) => FieldsLonger(fs, "}" + (w + d));
    case LArray(_, xs) => ItemsLonger(xs, "]" + (w + d));
    case _ =>
  }

  lemma {:induction false} ValueLonger(v: Layout, r: string)
    ensures |r| <= |Text(v, r)|
    decreases v
  {
    match v
    case LObject(_, fs) => FieldsLonger(fs, "}" + r);
    case LArray(_, xs) => ItemsLonger(xs, "]" + r);
    case _ =>
  }

  lemma {:induction false} FieldsLonger(fs: LFields, r: string)
    ensures |r| <= |TextFields(fs, r)|
    decreases fs
  {
    match fs
    case LLastField(key, v, w) => ValueLonger(v, w + r);
    case LField(key, v, w, w', rest) =>
      FieldsLonger(rest, r);
      ValueLonger(v, w + ("," + (w' + TextFields(rest, r))));
    case _ =>
  }

  lemma {:induction false} ItemsLonger(xs: LItems, r: string)
    ensures |r| <= |TextItems(xs, r)|
    decreases xs
  {
    match xs
    case LEnd(_) =>
    case LLastItem(v, w) => ValueLonger(v, w + r);
    case LItem(v, w, w', rest) =>
      ItemsLonger(rest, r);
      ValueLonger(v, w + ("," + (w' + TextItems(rest, r))));
  }

  lemma {:induction false} FindObject(m: Machine, k: seq<Kind>) returns (v: Layout, w: string, d: string)
    requires "{" <= m.data && Safe(m)
    requires var s := OpenObject(m.data[1..], k, m); !Final(s.token) && Good(s.machine)
    ensures v.LObject? && Found(m.data, v, w, d, k)
    decreases |m.data|, 1
  {
    hide Run, After, Step, IsSpace, Follows;
    var s := OpenObject(m.data[1..], k, m).machine;
    assert m.data == "{" + m.data[1..];
    var w0 := SplitSpace(m.data[1..]);
    var e := SkipSpace(m.data[1..]).value;
    var fs;
    if "}" <= e {
      w, d := FindEmpty(e, s, k);
      fs := LNoFields;
    } else {
      fs, w, d := FindFields(s, k);
    }
    assert OkFields(fs);
    assert e == TextFields(fs, "}" + (w + d));
    v := LObject(w0, fs);
    assert Ok(v) && m.data == Text(v, w + d);
  }

  lemma FindEmpty(e: string, s: Machine, k: seq<Kind>) returns (w: string, d: string)
    requires "}" <= e && Resume(ExpectObjectEnd, e[1..], k + [InObject]) == Go(s) && Good(s)
    ensures IsSpace(w) && Follows(k, d) && Good(After(k, d).machine) && e == "}" + (w + d)
  {
    hide Run, After, IsSpace, Follows;
    assert ButLast(k + [InObject]) == k;
    w := SplitSpace(e[1..]);
    d := SkipSpace(e[1..]).value;
    assert e == "}" + e[1..];
    GoodClose(s);
  }

  lemma {:induction false} FindFields(m: Machine, k: seq<Kind>) returns (fs: LFields, w: string, d: string)
    requires Good(m) && m.state.ExpectField? && m.stack == k + [InObject]
    ensures OkFields(fs) && !fs.LNoFields? && IsSpace(w) && Follows(k, d) && Good(After(k, d).machine)
    ensures m.data == TextFields(fs, "}" + (w + d))
    decreases |m.data|, 3
  {
    assert ButLast(k + [InObject]) == k;
    var key, e := FindKey(m);
    var n := Machine(ExpectValue, e, m.stack);
    if ClosesHere(n) {
      var dash;
      dash, w, d := FindEarlyClose(n);
      fs := LMissing(key, dash);
    } else {
      var v, w1, d1 := FindValue(n);
      var comma, w2, e2 := FindAfter(d1, m.stack);
      if comma {
        var rest;
        rest, w, d := FindFields(Machine(ExpectField, e2, m.stack), k);
        fs := LField(key, v, w1, w2, rest);
      } else {
        fs, w, d := LLastField(key, v, w1), w2, e2;
      }
    }
  }

  lemma {:induction false} FindArray(m: Machine) returns (v: Layout, w: string, d: string)
    requires Good(m) && m.state.ExpectValue? && "[" <= m.data
    ensures Found(m.data, v, w, d, m.stack)
    decreases |m.data|, 1
  {
    GoodStep(m);
    assert m.data[0] == '[';
    assert Step(m) == Deliver(Resume(ExpectValue, m.data[1..], m.stack + [InArray]), StartArray, m);
    assert m.data == "[" + m.data[1..];
    var w0 := SplitSpace(m.data[1..]);
    var xs;
    xs, w, d := FindItems(Step(m).machine, m.stack);
    v := LArray(w0, xs);
  }

  lemma {:induction false} FindItems(m: Machine, k: seq<Kind>) returns (xs: LItems, w: string, d: string)
    requires Good(m) && m.state.ExpectValue? && m.stack == k + [InArray]
    ensures OkItems(xs) && IsSpace(w) && Follows(k, d) && Good(After(k, d).machine)
    ensures m.data == TextItems(xs, "]" + (w + d))
    decreases |m.data|, 3
  {
    assert ButLast(k + [InArray]) == k;
    if ClosesHere(m) {
      var dash;
      dash, w, d := FindEarlyClose(m);
      xs := LEnd(dash);
    } else {
      var v, w1, d1 := FindValue(m);
      var comma, w2, e2 := FindAfter(d1, m.stack);
      if comma {
        var rest;
        rest, w, d := FindItems(Machine(ExpectValue, e2, m.stack), k);
        xs := LItem(v, w1, w2, rest);
      } else {
        xs, w, d := LLastItem(v, w1), w2, e2;
      }
    }
  }

  lemma AcceptedSpelling(text: string) returns (j: Json)
    requires Last(Tokens(text)) == End
    ensures Spelling(text, j)
  {
    var m := Start(text);
    GoodStep(m);
    var v, w, d := FindObject(m, []);
    assert d == "" by {
      assert Run(Machine(ExpectEnd, d, [])) == [if d == "" then End else Error];
    }
    assert w + d == w;
    j := Erase(v);
  }

  /**
   The tokenizer delivers the walk of a tree exactly on the spellings of that tree: the
   grammar says what is accepted, and every accepted text stands for one tree.
   */
  lemma TokenizerLanguage(text: string, j: Json)
    requires Proper(j)
    ensures Tokens(text) == Walk(j, [End]) <==> Spelling(text, j)
  {
    if Tokens(text) == Walk(j, [End]) {
      WalkLast(j, [End]);
      var i := AcceptedSpelling(text);
      SpellingAccepted(text, i);
      SpellingProper(text, i);
      WalkInjective(i, j, [End], [End]);
    }
    if Spelling(text, j) {
      SpellingAccepted(text, j);
    }
  }

  lemma SpellingProper(text: string, j: Json)
    requires Spelling(text, j)
    ensures Proper(j) && j.Object?
  {
    var v: Layout, w: string :| v.LObject? && Ok(v) && IsSpace(w) && text == Text(v, w) && Erase(v) == j;
    EraseProper(v);
  }

  /** No text spells two trees. */
  lemma Unambiguous(text: string, i: Json, j: Json)
    requires Spelling(text, i) && Spelling(text, j)
    ensures i == j
  {
    SpellingAccepted(text, i);
    SpellingAccepted(text, j);
    SpellingProper(text, i);
    SpellingProper(text, j);
    WalkInjective(i, j, [End], [End]);
  }
}
