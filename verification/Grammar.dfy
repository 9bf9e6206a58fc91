/**
 The language the tokenizer accepts, and the tree it finds in each text.

 A layout is a tree together with every choice of spelling: whitespace and comments,
 how strings are escaped, how numbers are written, and the liberties of the dialect (a
 stray `-` in front of a keyword or closing bracket, a trailing comma in an array, a
 missing last value).
 */
module Grammar {
  import opened Common
  import opened Lexer
  import opened TokenMachine
  import opened Json

  datatype Layout =
    | LString(raw: string, text: string)
    | LNumber(raw: string, text: string)
    | LWord(dash: bool, word: bool)
    | LObject(w: string, fields: LFields)
    | LArray(w: string, items: LItems)

  /** A field name: its spelling, its meaning, and the spaces around the colon. */
  datatype Key = Key(raw: string, name: string, w: string, w': string)

  datatype LFields =
    | LNoFields
    | LMissing(key: Key, dash: bool)
    | LLastField(key: Key, value: Layout, w: string)
    | LField(key: Key, value: Layout, w: string, w': string, rest: LFields)

  datatype LItems =
    | LEnd(dash: bool)
    | LLastItem(value: Layout, w: string)
    | LItem(value: Layout, w: string, w': string, rest: LItems)

  // ---------------------------------------------------------- well-formed layouts

  predicate NumberSpelling(raw: string, text: string) {
    (raw == text && IsNumber(text)) || (text == "nan" && (raw == "null" || raw == "-null"))
  }

  predicate OkKey(k: Key) {
    Spells(k.raw, k.name) && IsSpace(k.w) && IsSpace(k.w')
  }

  predicate Ok(v: Layout) {
    match v
    case LString(raw, text) => Spells(raw, text)
    case LNumber(raw, text) => NumberSpelling(raw, text)
    case LWord(_, _) => true
    case LObject(w, fs) => IsSpace(w) && OkFields(fs)
    case LArray(w, xs) => IsSpace(w) && OkItems(xs)
  }

  predicate OkFields(fs: LFields) {
    match fs
    case LNoFields => true
    case LMissing(key, _) => OkKey(key)
    case LLastField(key, v, w) => OkKey(key) && Ok(v) && IsSpace(w)
    case LField(key, v, w, w', rest) =>
      OkKey(key) && Ok(v) && IsSpace(w) && IsSpace(w') && !rest.LNoFields? && OkFields(rest)
  }

  predicate OkItems(xs: LItems) {
    match xs
    case LEnd(_) => true
    case LLastItem(v, w) => Ok(v) && IsSpace(w)
    case LItem(v, w, w', rest) => Ok(v) && IsSpace(w) && IsSpace(w') && OkItems(rest)
  }

  // ------------------------------------------------------- the text and the tree

  function Dash(dash: bool): string {
    if dash then "-" else ""
  }

  function Quoted(raw: string, r: string): string {
    "\"" + (raw + ("\"" + r))
  }

  /** The text of a value, in front of the text that follows it. */
  function Text(v: Layout, r: string): string {
    match v
    case LString(raw, _) => Quoted(raw, r)
    case LNumber(raw, _) => raw + r
    case LWord(dash, word) => Dash(dash) + ((if word then "true" else "false") + r)
    case LObject(w, fs) => "{" + (w + TextFields(fs, "}" + r))
    case LArray(w, xs) => "[" + (w + TextItems(xs, "]" + r))
  }

  function TextKey(k: Key, r: string): string {
    Quoted(k.raw, k.w + (":" + (k.w' + r)))
  }

  function TextFields(fs: LFields, r: string): string {
    match fs
    case LNoFields => r
    case LMissing(key, dash) => TextKey(key, Dash(dash) + r)
    case LLastField(key, v, w) => TextKey(key, Text(v, w + r))
    case LField(key, v, w, w', rest) => TextKey(key, Text(v, w + ("," + (w' + TextFields(rest, r)))))
  }

  function TextItems(xs: LItems, r: string): string {
    match xs
    case LEnd(dash) => Dash(dash) + r
    case LLastItem(v, w) => Text(v, w + r)
    case LItem(v, w, w', rest) => Text(v, w + ("," + (w' + TextItems(rest, r))))
  }

  /** The tree a layout lays out. */
  function Erase(v: Layout): Json {
    match v
    case LString(_, text) => Leaf(StringValue(text))
    case LNumber(_, text) => Leaf(NumberValue(text))
    case LWord(_, word) => Leaf(if word then TrueValue else FalseValue)
    case LObject(_, fs) => Object(EraseFields(fs))
    case LArray(_, xs) => Array(EraseItems(xs))
  }

  function EraseFields(fs: LFields): Fields {
    match fs
    case LNoFields => NoFields
    case LMissing(key, _) => Missing(key.name)
    case LLastField(key, v, _) => Member(key.name, Erase(v), NoFields)
    case LField(key, v, _, _, rest) => Member(key.name, Erase(v), EraseFields(rest))
  }

  function EraseItems(xs: LItems): Items {
    match xs
    case LEnd(_) => NoItems
    case LLastItem(v, _) => Item(Erase(v), NoItems)
    case LItem(v, _, _, rest) => Item(Erase(v), EraseItems(rest))
  }

  /** `text` is the object `j`, spelled in some way, with whitespace after it. */
  ghost predicate Spelling(text: string, j: Json) {
    exists v: Layout, w: string ::
      v.LObject? && Ok(v) && IsSpace(w) && text == Text(v, w) && Erase(v) == j
  }

  lemma {:induction false} EraseProper(v: Layout)
    ensures Proper(Erase(v))
    decreases v
  {
    match v
    case LObject(_, fs) => EraseFieldsProper(fs);
    case LArray(_, xs) => EraseItemsProper(xs);
    case _ =>
  }

  lemma {:induction false} EraseFieldsProper(fs: LFields)
    ensures ProperFields(EraseFields(fs))
    decreases fs
  {
    if fs.LLastField? || fs.LField? {
      EraseProper(fs.value);
    }
    if fs.LField? {
      EraseFieldsProper(fs.rest);
    }
  }

  lemma {:induction false} EraseItemsProper(xs: LItems)
    ensures ProperItems(EraseItems(xs))
    decreases xs
  {
    if !xs.LEnd? {
      EraseProper(xs.value);
    }
    if xs.LItem? {
      EraseItemsProper(xs.rest);
    }
  }
}
