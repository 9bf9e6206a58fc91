/** What becomes of a number in the text, by the type of the field it is given for. */
module Numbers {
  import opened Common
  import opened Lexer
  import opened TokenMachine
  import opened Decimal
  import opened Json
  import opened Grammar
  import opened Accepts
  import opened Flat
  import opened ParserMachine
  import opened Evaluate
  import opened RoundTrip
  import opened Losses

  /** Integers are stored modulo the width of the field, as the number in its range; flags as zero or one. */
  lemma CastMeaning(e: Elem, i: int, r: int)
    requires Integral(e) || e.Bool?
    ensures Cast(e, i) == r <==>
      if e.Bool? then r == if i == 0 then 0 else 1
      else InRange(e, r) && (r - i) % Power(Bits(e)) == 0
  {
    if Integral(e) {
      WrapMeaning(i, Low(e), Power(Bits(e)), r);
      RangeLength(e);
    }
  }

  lemma RangeLength(e: Elem)
    requires Integral(e)
    ensures High(e) == Low(e) + Power(Bits(e))
  {
  }

  lemma WrapMeaning(i: int, low: int, p: int, r: int)
    requires p > 0
    ensures Wrap(i, low, p) == r <==> low <= r < low + p && (r - i) % p == 0
  {
    var c, k := Wrap(i, low, p), (i - low) / p;
    assert c - i == p * -k;
    DivisionUnique(c - i, p, -k, 0);
    if low <= r < low + p && (r - i) % p == 0 {
      SameResidue(r, c, i, p, low);
    }
  }

  /** A range as long as the modulus has one number of each residue. */
  lemma SameResidue(r: int, c: int, i: int, p: int, low: int)
    requires p > 0 && (r - i) % p == 0 && (c - i) % p == 0 && low <= r < low + p && low <= c < low + p
    ensures r == c
  {
    var a, b := (r - i) / p, (c - i) / p;
    assert r - i == p * a && c - i == p * b;
    assert r - c == p * (a - b);
    DivisionUnique(r - c, p, a - b, 0);
    if r >= c {
      DivisionUnique(r - c, p, 0, r - c);
    } else {
      DivisionUnique(c - r, p, 0, c - r);
      assert c - r == p * (b - a);
      DivisionUnique(c - r, p, b - a, 0);
    }
  }

  /** The text of an object with one field that is a number. */
  function Document(name: string, number: string): string {
    "{" + ("\"" + (name + ("\"" + (":" + (number + "}")))))
  }

  lemma DocumentProper(name: string, number: string)
    ensures Proper(Object(Member(name, Leaf(NumberValue(number)), NoFields)))
  {
    assert Proper(Leaf(NumberValue(number))) && ProperFields(NoFields);
    assert ProperFields(Member(name, Leaf(NumberValue(number)), NoFields));
  }

  /** The layout of the document. */
  function DocumentFields(name: string, number: string): LFields {
    LLastField(Key(name, name, "", ""), LNumber(number, number), "")
  }

  lemma DocumentText(name: string, number: string)
    ensures Text(LObject("", DocumentFields(name, number)), "") == Document(name, number)
  {
    var l, q := DocumentFields(name, number), "}" + "";
    assert q == "}" && "" + q == q;
    assert Text(LNumber(number, number), "" + q) == number + "}";
    assert TextFields(l, q) == Quoted(name, "" + (":" + ("" + (number + "}"))));
    assert "" + (number + "}") == number + "}" && "" + (":" + (number + "}")) == ":" + (number + "}");
    assert "" + TextFields(l, q) == TextFields(l, q);
  }

  lemma DocumentSpelled(name: string, number: string)
    requires Plain(name) && IsNumber(number)
    ensures Spelling(Document(name, number), Object(Member(name, Leaf(NumberValue(number)), NoFields)))
  {
    hide IsNumber, Plain, Spells, Text, Document;
    var l := DocumentFields(name, number);
    PlainSpells(name);
    NothingIsSpace();
    DocumentText(name, number);
    assert Ok(LNumber(number, number)) && OkFields(l) && Ok(LObject("", l));
    assert Erase(LNumber(number, number)) == Leaf(NumberValue(number));
    assert EraseFields(l) == Member(name, Leaf(NumberValue(number)), NoFields);
    assert Erase(LObject("", l)) == Object(Member(name, Leaf(NumberValue(number)), NoFields));
  }

  /** What is stored for the integer `i`. */
  predicate StoresInteger(f: FieldDef, i: int, x: Option<Value>) {
    if Integral(f.elem) then
      x.Some? && x.value.VInt? && InRange(f.elem, x.value.i) && (x.value.i - i) % Power(Bits(f.elem)) == 0
    else if f.elem.Bool? then x == Some(VInt(if i == 0 then 0 else 1))
    else if f.elem.Float? || f.elem.Double? then x == Some(VReal(OfInt(i)))
    else x == None
  }

  /** What parsing such a text gives: a number that is no integer reaches a real field as its text. */
  predicate NumberOutcome(env: Env, f: FieldDef, number: string, r: Outcome) {
    if AsInt(number).Some? then r.Accept? && |r.table| == 1 && StoresInteger(f, AsInt(number).value, r.table[0])
    else if !AsDouble(env, number) then r == Refuse
    else if f.elem.Float? || f.elem.Double? then r == Accept([Some(VReal(Literal(number)))])
    else r == Accept([None])
  }

  lemma IntegerStored(f: FieldDef, i: int)
    requires f.ref.None? && !f.repeating && !f.elem.Sequence?
    ensures StoresInteger(f, i, StoreField(f, IntElement(i)))
  {
    hide Cast, InRange;
    if Integral(f.elem) || f.elem.Bool? {
      CastMeaning(f.elem, i, Cast(f.elem, i));
    }
  }

  lemma NumberEvaluated(env: Env, f: FieldDef, number: string)
    requires env.types == OneField(f) && f.ref.None? && !f.repeating && !f.elem.Sequence?
    ensures ValidSchema(env.types) && IsTable(env.types, 0)
    ensures Proper(Object(Member(f.name, Leaf(NumberValue(number)), NoFields)))
    ensures var r := EvalObject(env, 0, Object(Member(f.name, Leaf(NumberValue(number)), NoFields)));
      NumberOutcome(env, f, number, if r.None? then Refuse else Accept(r.value))
  {
    hide AsInt, AsDouble, StoresInteger;
    DocumentProper(f.name, number);
    assert FieldsOf(env.types, 0) == [f];
    assert FieldIndex([f], f.name) == 0;
    var x := NumberElement(env, number);
    assert EvalValue(env, f, false, Leaf(NumberValue(number))) == x && EvalFields(env, 0, NoFields) == Some([]);
    if x.None? {
      assert EvalFields(env, 0, Member(f.name, Leaf(NumberValue(number)), NoFields)) == None;
    } else {
      var xs := [FieldElement(0, x.value)];
      assert xs + [] == xs && xs[0] == FieldElement(0, x.value);
      assert EvalFields(env, 0, Member(f.name, Leaf(NumberValue(number)), NoFields)) == Some(xs);
      WriteTableField([f], xs, 0);
      assert WriteTable([f], xs) == [StoreField(f, x.value)];
      if x.value.IntElement? {
        IntegerStored(f, x.value.i);
      }
    }
  }

  /** What becomes of a number that is given for a field. */
  lemma NumberParsed(converts: string -> bool, f: FieldDef, number: string)
    requires Plain(f.name) && f.ref.None? && !f.repeating && !f.elem.Sequence? && IsNumber(number)
    ensures var env := Env(OneField(f), converts);
      && ValidSchema(env.types) && IsTable(env.types, 0)
      && NumberOutcome(env, f, number, Parse(env, 0, Document(f.name, number)))
  {
    hide Tokens, Spelling, Consume, EvalObject, NumberOutcome, IsNumber, Walk, Document;
    var env := Env(OneField(f), converts);
    var j := Object(Member(f.name, Leaf(NumberValue(number)), NoFields));
    NumberEvaluated(env, f, number);
    DocumentSpelled(f.name, number);
    SpellingAccepted(Document(f.name, number), j);
    ObjectParsed(env, 0, j);
  }
}
