/** The trees that token streams stand for. */
module Json {
  import opened TokenMachine

  datatype Json = Leaf(token: Token) | Object(fields: Fields) | Array(items: Items)

  /** The fields of an object in order.  Only the last one may lack its value. */
  datatype Fields = NoFields | Missing(name: string) | Member(name: string, value: Json, rest: Fields)

  datatype Items = NoItems | Item(value: Json, rest: Items)

  predicate IsScalar(t: Token) {
    t.NumberValue? || t.StringValue? || t.TrueValue? || t.FalseValue?
  }

  predicate Proper(j: Json) {
    match j
    case Leaf(t) => IsScalar(t)
    case Object(fs) => ProperFields(fs)
    case Array(xs) => ProperItems(xs)
  }

  predicate ProperFields(fs: Fields) {
    fs.Member? ==> Proper(fs.value) && ProperFields(fs.rest)
  }

  predicate ProperItems(xs: Items) {
    xs.Item? ==> Proper(xs.value) && ProperItems(xs.rest)
  }

  /** The pre-order walk of a value, in front of the tokens that follow it. */
  function Walk(j: Json, r: seq<Token>): seq<Token> {
    match j
    case Leaf(t) => [t] + r
    case Object(fs) => [StartObject] + WalkFields(fs, [EndObject] + r)
    case Array(xs) => [StartArray] + WalkItems(xs, [EndArray] + r)
  }

  function WalkFields(fs: Fields, r: seq<Token>): seq<Token> {
    match fs
    case NoFields => r
    case Missing(n) => [Field(n)] + r
    case Member(n, v, rest) => [Field(n)] + Walk(v, WalkFields(rest, r))
  }

  function WalkItems(xs: Items, r: seq<Token>): seq<Token> {
    match xs
    case NoItems => r
    case Item(v, rest) => Walk(v, WalkItems(rest, r))
  }

  lemma WalkHead(j: Json, r: seq<Token>)
    requires Proper(j)
    ensures Walk(j, r) != []
    ensures Walk(j, r)[0] == match j case Leaf(t) => t case Object(_) => StartObject case Array(_) => StartArray
  {
  }

  /** A walk determines the tree and where its tokens end. */
  lemma {:induction false} WalkInjective(i: Json, j: Json, q: seq<Token>, r: seq<Token>)
    requires Proper(i) && Proper(j) && Walk(i, q) == Walk(j, r)
    ensures i == j && q == r
    decreases i
  {
    WalkHead(i, q);
    WalkHead(j, r);
    match i
    case Leaf(t) =>
      assert q == Walk(i, q)[1..] && r == Walk(j, r)[1..];
    case Object(fs) =>
      assert WalkFields(fs, [EndObject] + q) == Walk(i, q)[1..];
      assert WalkFields(j.fields, [EndObject] + r) == Walk(j, r)[1..];
      FieldsInjective(fs, j.fields, q, r);
    case Array(xs) =>
      assert WalkItems(xs, [EndArray] + q) == Walk(i, q)[1..];
      assert WalkItems(j.items, [EndArray] + r) == Walk(j, r)[1..];
      ItemsInjective(xs, j.items, q, r);
  }

  lemma {:induction false} FieldsInjective(f: Fields, g: Fields, q: seq<Token>, r: seq<Token>)
    requires ProperFields(f) && ProperFields(g)
    requires WalkFields(f, [EndObject] + q) == WalkFields(g, [EndObject] + r)
    ensures f == g && q == r
    decreases f
  {
    var a, b := WalkFields(f, [EndObject] + q), WalkFields(g, [EndObject] + r);
    assert f.NoFields? ==> a[0] == EndObject && q == a[1..];
    assert g.NoFields? ==> b[0] == EndObject && r == b[1..];
    assert f.Missing? ==> a[0] == Field(f.name) && a[1] == EndObject && q == a[2..];
    assert g.Missing? ==> b[0] == Field(g.name) && b[1] == EndObject && r == b[2..];
    if f.Member? {
      WalkHead(f.value, WalkFields(f.rest, [EndObject] + q));
      assert a[1..] == Walk(f.value, WalkFields(f.rest, [EndObject] + q));
    }
    if g.Member? {
      WalkHead(g.value, WalkFields(g.rest, [EndObject] + r));
      assert b[1..] == Walk(g.value, WalkFields(g.rest, [EndObject] + r));
    }
    if f.Member? && g.Member? {
      WalkInjective(f.value, g.value, WalkFields(f.rest, [EndObject] + q), WalkFields(g.rest, [EndObject] + r));
      FieldsInjective(f.rest, g.rest, q, r);
    }
  }

  lemma {:induction false} ItemsInjective(x: Items, y: Items, q: seq<Token>, r: seq<Token>)
    requires ProperItems(x) && ProperItems(y)
    requires WalkItems(x, [EndArray] + q) == WalkItems(y, [EndArray] + r)
    ensures x == y && q == r
    decreases x
  {
    var a, b := WalkItems(x, [EndArray] + q), WalkItems(y, [EndArray] + r);
    assert x.NoItems? ==> a[0] == EndArray && q == a[1..];
    assert y.NoItems? ==> b[0] == EndArray && r == b[1..];
    if x.Item? {
      WalkHead(x.value, WalkItems(x.rest, [EndArray] + q));
    }
    if y.Item? {
      WalkHead(y.value, WalkItems(y.rest, [EndArray] + r));
    }
    if x.Item? && y.Item? {
      WalkInjective(x.value, y.value, WalkItems(x.rest, [EndArray] + q), WalkItems(y.rest, [EndArray] + r));
      ItemsInjective(x.rest, y.rest, q, r);
    }
  }
}
