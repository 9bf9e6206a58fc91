/**
 The lexical layer of the JSON dialect: what each `Consume*` routine takes off the
 front of the remaining input.  The routines themselves (with their loops) are
 methods of `Tokenizing.Tokenizer`; here are the functions they are proved against.

 The original indexes a `string_view` without a bounds check in three places (inside
 an unterminated comment, after a lone `0`, and where a `:` is missing).  Reading past
 the end is an outcome of its own here (`None` for whitespace, `Past` for numbers).
 */
module Lexer {
  import opened Common

  predicate Blank(c: char) {
    c == ' ' || c == '\r' || c == '\t' || c == '\n'
  }

  predicate Digit(c: char) {
    '0' <= c <= '9'
  }

  // ---------------------------------------------------------------- whitespace

  /** What follows the comment whose opening has been consumed; `None` if it never closes. */
  function SkipComment(d: string): (r: Option<string>)
    ensures r.Some? ==> |r.value| + 2 <= |d|
  {
    if "*/" <= d then Some(d[2..])
    else if d == "" then None
    else SkipComment(d[1..])
  }

  /** The input without its leading whitespace and comments. */
  function SkipSpace(d: string): (r: Option<string>)
    ensures r.Some? ==> |r.value| <= |d|
    decreases |d|
  {
    if d == "" then Some("")
    else if Blank(d[0]) then SkipSpace(d[1..])
    else if "/*" <= d then
      match SkipComment(d[2..])
      case None => None
      case Some(r) => SkipSpace(r)
    else Some(d)
  }

  /** `w` consists of blanks and complete comments. */
  predicate IsSpace(w: string) {
    SkipSpace(w) == Some("")
  }

  /** A character at which whitespace skipping stops. */
  predicate Solid(d: string) {
    d != "" && !Blank(d[0]) && d[0] != '/'
  }

  lemma {:induction false} SkipCommentAppend(c: string, d: string)
    requires SkipComment(c).Some?
    ensures SkipComment(c + d) == Some(SkipComment(c).value + d)
  {
    if "*/" <= c {
      assert (c + d)[2..] == c[2..] + d;
    } else {
      SkipCommentAppend(c[1..], d);
      assert (c + d)[1..] == c[1..] + d;
      assert !("*/" <= c + d) by {
        assert |c| >= 2;
        assert (c + d)[0] == c[0] && (c + d)[1] == c[1];
      }
    }
  }

  /** Whitespace in front changes nothing. */
  lemma {:induction false} SkipSpaceAppend(w: string, d: string)
    requires IsSpace(w)
    ensures SkipSpace(w + d) == SkipSpace(d)
    decreases |w|
  {
    if w == "" {
      assert w + d == d;
    } else if Blank(w[0]) {
      SkipSpaceAppend(w[1..], d);
      assert (w + d)[1..] == w[1..] + d;
    } else {
      var r := SkipComment(w[2..]).value;
      SkipCommentAppend(w[2..], d);
      assert (w + d)[2..] == w[2..] + d;
      assert "/*" <= w + d;
      SkipSpaceAppend(r, d);
    }
  }

  /** Whitespace by its own grammar: blanks, and comments whose text does not end them early. */
  datatype Gap = Nothing | BlankThen(c: char, rest: Gap) | CommentThen(text: string, rest: Gap)

  /** The end of the comment does not come before the end of its text. */
  predicate Unclosed(text: string) {
    forall i :: 0 <= i < |text| ==> !("*/" <= (text + "*/")[i..])
  }

  predicate OkGap(g: Gap) {
    match g
    case Nothing => true
    case BlankThen(c, rest) => Blank(c) && OkGap(rest)
    case CommentThen(text, rest) => Unclosed(text) && OkGap(rest)
  }

  function GapText(g: Gap): string {
    match g
    case Nothing => ""
    case BlankThen(c, rest) => [c] + GapText(rest)
    case CommentThen(text, rest) => "/*" + (text + "*/" + GapText(rest))
  }

  lemma {:induction false} CommentSkipped(text: string)
    requires Unclosed(text)
    ensures SkipComment(text + "*/") == Some("")
    decreases |text|
  {
    var d := text + "*/";
    if text != "" {
      assert d[0..] == d;
      assert d[1..] == text[1..] + "*/";
      assert Unclosed(text[1..]) by {
        forall i | 0 <= i < |text[1..]|
          ensures !("*/" <= (text[1..] + "*/")[i..])
        {
          assert (text[1..] + "*/")[i..] == d[i + 1..];
        }
      }
      CommentSkipped(text[1..]);
    }
  }

  lemma {:induction false} CommentText(c: string) returns (text: string)
    requires SkipComment(c) == Some("")
    ensures Unclosed(text) && c == text + "*/"
    decreases |c|
  {
    if "*/" <= c {
      text := "";
      assert c == "*/";
    } else {
      var rest := CommentText(c[1..]);
      text := [c[0]] + rest;
      assert c == [c[0]] + c[1..];
      forall i | 0 <= i < |text|
        ensures !("*/" <= (text + "*/")[i..])
      {
        assert text + "*/" == c;
        assert i > 0 ==> c[i..] == (rest + "*/")[i - 1..];
        assert i == 0 ==> c[i..] == c;
      }
    }
  }

  lemma {:induction false} GapSkipped(g: Gap)
    requires OkGap(g)
    ensures IsSpace(GapText(g))
    decreases g
  {
    match g
    case Nothing =>
    case BlankThen(c, rest) =>
      GapSkipped(rest);
      BlankIsSpace(c, GapText(rest));
    case CommentThen(text, rest) =>
      GapSkipped(rest);
      CommentSkipped(text);
      CommentIsSpace(text + "*/", GapText(rest));
  }

  lemma {:induction false} GapFound(w: string) returns (g: Gap)
    requires IsSpace(w)
    ensures OkGap(g) && GapText(g) == w
    decreases |w|
  {
    if w == "" {
      g := Nothing;
    } else if Blank(w[0]) {
      var rest := GapFound(w[1..]);
      g := BlankThen(w[0], rest);
      assert w == [w[0]] + w[1..];
    } else {
      var c := SplitComment(w[2..]);
      var text := CommentText(c);
      var rest := GapFound(SkipComment(w[2..]).value);
      g := CommentThen(text, rest);
      assert w == "/*" + w[2..];
    }
  }

  /** What is skipped as whitespace is exactly what the grammar of blanks and comments gives. */
  lemma SpaceGrammar(w: string)
    ensures IsSpace(w) <==> exists g: Gap :: OkGap(g) && GapText(g) == w
  {
    if IsSpace(w) {
      var g := GapFound(w);
    }
    if g: Gap :| OkGap(g) && GapText(g) == w {
      GapSkipped(g);
    }
  }

  // ------------------------------------------------------------------- strings

  /** The text an escape sequence `\c` stands for.  Unknown escapes stand for nothing. */
  function EscapeMeaning(c: char): string {
    if c == '\"' || c == '\\' || c == '/' then [c]
    else if c == 'b' then "\U{8}"
    else if c == 'f' then "\U{C}"
    else if c == 'n' then "\n"
    else if c == 'r' then "\r"
    else if c == 't' then "\t"
    else ""
  }

  /** Reads a string literal, one character at a time; `None` if there is no valid one. */
  function ReadString(d: string): (r: Option<(string, string)>)
    ensures r.Some? ==> |r.value.1| + 2 <= |d|
  {
    if d == "" || d[0] != '\"' then None else ReadBody(d[1..])
  }

  /** Reads the rest of a string literal whose opening quote has been consumed. */
  function ReadBody(d: string): (r: Option<(string, string)>)
    ensures r.Some? ==> |r.value.1| < |d|
  {
    if d == "" then None
    else if d[0] == '\"' then Some(("", d[1..]))
    else if d[0] != '\\' then Prepend(d[..1], ReadBody(d[1..]))
    else if |d| == 1 || d[1] == 'u' then None
    else Prepend(EscapeMeaning(d[1]), ReadBody(d[2..]))
  }

  function Prepend(p: string, r: Option<(string, string)>): Option<(string, string)> {
    match r
    case None => None
    case Some((s, rest)) => Some((p + s, rest))
  }

  lemma PrependTwice(p: string, q: string, r: Option<(string, string)>)
    ensures Prepend(p, Prepend(q, r)) == Prepend(p + q, r)
  {
    if r.Some? {
      assert p + (q + r.value.0) == (p + q) + r.value.0;
    }
  }

  /** The printer's escaping of one character. */
  function EscapeChar(c: char): string {
    if c == '\"' then "\\\""
    else if c == '\\' then "\\\\"
    else if c == '\U{8}' then "\\b"
    else if c == '\U{C}' then "\\f"
    else if c == '\n' then "\\n"
    else if c == '\r' then "\\r"
    else if c == '\t' then "\\t"
    else [c]
  }

  /** The printer's escaping of a string, without the quotes around it. */
  function Escape(s: string): string {
    if s == "" then "" else EscapeChar(s[0]) + Escape(s[1..])
  }

  /** `raw` may stand between quotes, and then denotes `s`. */
  predicate Spells(raw: string, s: string) {
    ReadBody(raw + "\"") == Some((s, ""))
  }

  lemma {:induction false} ReadBodyAppend(d: string, r: string)
    requires ReadBody(d).Some?
    ensures ReadBody(d + r) == Some((ReadBody(d).value.0, ReadBody(d).value.1 + r))
    decreases |d|
  {
    if d[0] == '\"' {
      assert (d + r)[1..] == d[1..] + r;
    } else if d[0] != '\\' {
      ReadBodyAppend(d[1..], r);
      assert (d + r)[1..] == d[1..] + r && (d + r)[..1] == d[..1];
    } else {
      ReadBodyAppend(d[2..], r);
      assert (d + r)[2..] == d[2..] + r;
    }
  }

  lemma SpelledReads(raw: string, s: string, r: string)
    requires Spells(raw, s)
    ensures ReadString("\"" + raw + "\"" + r) == Some((s, r))
  {
    ReadBodyAppend(raw + "\"", r);
    assert "" + r == r;
    assert ("\"" + raw + "\"" + r)[1..] == raw + "\"" + r;
  }

  /** A piece of a string literal: a character, or an escape other than `\u`. */
  datatype Piece = Ordinary(c: char) | Escaped(c: char)

  predicate OkPiece(p: Piece) {
    match p
    case Ordinary(c) => c != '\"' && c != '\\'
    case Escaped(c) => c != 'u'
  }

  predicate OkPieces(ps: seq<Piece>) {
    forall i :: 0 <= i < |ps| ==> OkPiece(ps[i])
  }

  /** What stands between the quotes. */
  function PiecesText(ps: seq<Piece>): string {
    if ps == [] then ""
    else (match ps[0] case Ordinary(c) => [c] case Escaped(c) => ['\\', c]) + PiecesText(ps[1..])
  }

  /** The string it stands for. */
  function PiecesMeaning(ps: seq<Piece>): string {
    if ps == [] then ""
    else (match ps[0] case Ordinary(c) => [c] case Escaped(c) => EscapeMeaning(c)) + PiecesMeaning(ps[1..])
  }

  lemma {:induction false} PiecesRead(ps: seq<Piece>)
    requires OkPieces(ps)
    ensures ReadBody(PiecesText(ps) + "\"") == Some((PiecesMeaning(ps), ""))
    decreases |ps|
  {
    var d := PiecesText(ps) + "\"";
    if ps == [] {
      assert d == "\"" && d[1..] == "";
    } else {
      var rest := PiecesText(ps[1..]) + "\"";
      PiecesRead(ps[1..]);
      match ps[0]
      case Ordinary(c) => assert d[..1] == [c] && d[1..] == rest;
      case Escaped(c) => assert d[0] == '\\' && d[1] == c && d[2..] == rest;
    }
  }

  /** A backslash right before the closing quote takes the quote with it. */
  lemma LoneEscape(d: string)
    requires |d| == 2 && d[0] == '\\'
    ensures ReadBody(d).None?
  {
    assert d[2..] == "";
  }

  lemma {:induction false} PiecesFound(raw: string) returns (ps: seq<Piece>)
    requires ReadBody(raw + "\"").Some? && ReadBody(raw + "\"").value.1 == ""
    ensures OkPieces(ps) && PiecesText(ps) == raw && PiecesMeaning(ps) == ReadBody(raw + "\"").value.0
    decreases |raw|
  {
    var d := raw + "\"";
    if raw == "" {
      ps := [];
    } else if raw[0] != '\\' {
      assert d[0] == raw[0] && d[1..] == raw[1..] + "\"" && d[..1] == [raw[0]];
      var rest := PiecesFound(raw[1..]);
      ps := [Ordinary(raw[0])] + rest;
      assert raw == [raw[0]] + raw[1..];
    } else {
      if |raw| == 1 {
        LoneEscape(d);
      }
      assert d[1] == raw[1] && d[2..] == raw[2..] + "\"";
      var rest := PiecesFound(raw[2..]);
      ps := [Escaped(raw[1])] + rest;
      assert raw == ['\\', raw[1]] + raw[2..];
    }
  }

  /** What spells a string in a literal is exactly what the grammar of pieces gives. */
  lemma StringGrammar(raw: string, s: string)
    ensures Spells(raw, s) <==>
      exists ps: seq<Piece> :: OkPieces(ps) && PiecesText(ps) == raw && PiecesMeaning(ps) == s
  {
    if Spells(raw, s) {
      var ps := PiecesFound(raw);
    }
    if ps: seq<Piece> :| OkPieces(ps) && PiecesText(ps) == raw && PiecesMeaning(ps) == s {
      PiecesRead(ps);
    }
  }

  /** The literal a successful read took off the input. */
  lemma {:induction false} SplitBody(d: string) returns (raw: string)
    requires ReadBody(d).Some?
    ensures Spells(raw, ReadBody(d).value.0)
    ensures d == raw + "\"" + ReadBody(d).value.1
    decreases |d|
  {
    if d[0] == '\"' {
      raw := "";
      assert (raw + "\"")[1..] == "";
    } else if d[0] == '\\' {
      var tail := SplitBody(d[2..]);
      raw := d[..2] + tail;
      assert (raw + "\"")[2..] == tail + "\"";
      JoinBody(d, 2, tail, ReadBody(d).value.1);
    } else {
      var tail := SplitBody(d[1..]);
      raw := d[..1] + tail;
      assert (raw + "\"")[1..] == tail + "\"";
      assert (raw + "\"")[..1] == d[..1];
      JoinBody(d, 1, tail, ReadBody(d).value.1);
    }
  }

  lemma JoinBody(d: string, k: nat, tail: string, r: string)
    requires k <= |d| && d[k..] == tail + "\"" + r
    ensures d == d[..k] + tail + "\"" + r
  {
    assert d == d[..k] + d[k..];
  }

  lemma {:induction false} SplitSpace(d: string) returns (w: string)
    requires SkipSpace(d).Some?
    ensures IsSpace(w) && d == w + SkipSpace(d).value
    decreases |d|
  {
    if d == "" {
      w := "";
    } else if Blank(d[0]) {
      var v := SplitSpace(d[1..]);
      w := [d[0]] + v;
      BlankIsSpace(d[0], v);
      AfterBlank(d, v, SkipSpace(d).value);
    } else if "/*" <= d {
      var c := SplitComment(d[2..]);
      var v := SplitSpace(SkipComment(d[2..]).value);
      w := "/*" + (c + v);
      CommentIsSpace(c, v);
      AfterComment(d, c, v, SkipSpace(d).value);
    } else {
      w := "";
      assert d == w + d;
    }
  }

  lemma BlankIsSpace(c: char, v: string)
    requires Blank(c) && IsSpace(v)
    ensures IsSpace([c] + v)
  {
    assert ([c] + v)[1..] == v;
  }

  lemma AfterBlank(d: string, v: string, rest: string)
    requires d != "" && d[1..] == v + rest
    ensures d == ([d[0]] + v) + rest
  {
    ConcatAssoc([d[0]], v, rest);
    assert d == [d[0]] + d[1..];
  }

  lemma AfterComment(d: string, c: string, v: string, rest: string)
    requires "/*" <= d && d[2..] == c + (v + rest)
    ensures d == ("/*" + (c + v)) + rest
  {
    ConcatAssoc(c, v, rest);
    ConcatAssoc("/*", c + v, rest);
    assert d == "/*" + d[2..];
  }

  lemma CommentIsSpace(c: string, v: string)
    requires SkipComment(c) == Some("") && IsSpace(v)
    ensures IsSpace("/*" + (c + v))
  {
    SkipCommentAppend(c, v);
    assert "" + v == v;
    assert ("/*" + (c + v))[2..] == c + v;
  }

  lemma {:induction false} SplitComment(d: string) returns (c: string)
    requires SkipComment(d).Some?
    ensures SkipComment(c) == Some("") && d == c + SkipComment(d).value
  {
    if "*/" <= d {
      c := "*/";
    } else {
      var b := SplitComment(d[1..]);
      c := d[..1] + b;
      assert c[1..] == b;
      assert |c| >= 2 ==> c[1] == b[0] == d[1];
    }
  }

  /** What is left after skipping starts with neither a blank nor a comment. */
  lemma {:induction false} SkippedStops(d: string)
    requires SkipSpace(d).Some?
    ensures SkipSpace(SkipSpace(d).value) == SkipSpace(d)
    decreases |d|
  {
    if d == "" {
    } else if Blank(d[0]) {
      SkippedStops(d[1..]);
    } else if "/*" <= d {
      SkippedStops(SkipComment(d[2..]).value);
    }
  }

  /** Reading the printer's quoted form of any string gives the string back, whatever follows. */
  lemma {:induction false} StringCodec(s: string, r: string)
    ensures ReadString("\"" + Escape(s) + "\"" + r) == Some((s, r))
  {
    EscapeReads(s, r);
    var d := "\"" + Escape(s) + "\"" + r;
    assert d[1..] == Escape(s) + ("\"" + r);
  }

  /** A character is printed as itself, or as two that stand for it. */
  lemma EscapeCharShape(c: char)
    ensures var e := EscapeChar(c);
      if |e| == 1 then e == [c] && c != '\"' && c != '\\'
      else |e| == 2 && e[0] == '\\' && e[1] != 'u' && EscapeMeaning(e[1]) == [c]
  {
  }

  lemma PlainCharReads(c: char, d: string)
    requires c != '\"' && c != '\\'
    ensures ReadBody([c] + d) == Prepend([c], ReadBody(d))
  {
    assert ([c] + d)[..1] == [c] && ([c] + d)[1..] == d;
  }

  lemma PairReads(e: string, c: char, d: string)
    requires |e| == 2 && e[0] == '\\' && e[1] != 'u' && EscapeMeaning(e[1]) == [c]
    ensures ReadBody(e + d) == Prepend([c], ReadBody(d))
  {
    assert (e + d)[2..] == d;
  }

  /** One escaped character in front of the rest of a literal. */
  lemma EscapedCharReads(c: char, d: string)
    ensures ReadBody(EscapeChar(c) + d) == Prepend([c], ReadBody(d))
  {
    EscapeCharShape(c);
    if |EscapeChar(c)| == 1 {
      PlainCharReads(c, d);
    } else {
      PairReads(EscapeChar(c), c, d);
    }
  }

  lemma {:induction false} EscapeReads(s: string, r: string)
    ensures ReadBody(Escape(s) + ("\"" + r)) == Some((s, r))
  {
    var d := "\"" + r;
    if s == "" {
      assert Escape(s) + d == d && d[1..] == r;
    } else {
      EscapeReads(s[1..], r);
      EscapedCharReads(s[0], Escape(s[1..]) + d);
      ConcatAssoc(EscapeChar(s[0]), Escape(s[1..]), d);
      assert s == [s[0]] + s[1..];
    }
  }

  lemma EscapeSpells(s: string)
    ensures Spells(Escape(s), s)
  {
    EscapeReads(s, "");
    assert "\"" + "" == "\"";
  }

  predicate Plain(s: string) {
    forall i :: 0 <= i < |s| ==> s[i] != '\"' && s[i] != '\\'
  }

  /**
   A string printed between quotes without escaping is read back exactly when it holds
   neither a quote nor a backslash.
   */
  lemma RawStringReads(s: string, r: string)
    ensures ReadBody(s + "\"" + r) == Some((s, r)) <==> Plain(s)
  {
    if Plain(s) {
      PlainReads(s, r);
    } else {
      NotPlainMisreads(s, r);
    }
  }

  lemma {:induction false} PlainReads(s: string, r: string)
    requires Plain(s)
    ensures ReadBody(s + "\"" + r) == Some((s, r))
  {
    var d := s + "\"" + r;
    if s == "" {
      assert d[1..] == r;
    } else {
      PlainReads(s[1..], r);
      assert d[1..] == s[1..] + "\"" + r && d[..1] == s[..1];
      assert s == s[..1] + s[1..];
    }
  }

  /** A decoded string is at most as long as its literal, and shorter if the literal has an escape. */
  lemma {:induction false} DecodedLength(d: string)
    requires ReadBody(d).Some?
    ensures |ReadBody(d).value.0| + |ReadBody(d).value.1| + 1 <= |d|
    decreases |d|
  {
    if d[0] == '\"' {
    } else if d[0] != '\\' {
      DecodedLength(d[1..]);
    } else {
      DecodedLength(d[2..]);
    }
  }

  lemma {:induction false} NotPlainMisreads(s: string, r: string)
    requires !Plain(s)
    ensures ReadBody(s + "\"" + r) != Some((s, r))
  {
    var d := s + "\"" + r;
    assert d[0] == s[0];
    if s[0] == '\"' {
      assert d[1..] == s[1..] + "\"" + r;
    } else if s[0] == '\\' {
      if ReadBody(d).Some? {
        DecodedLength(d[2..]);
      }
    } else {
      assert d[1..] == s[1..] + "\"" + r && d[..1] == s[..1];
      assert !Plain(s[1..]) by {
        var i :| 0 <= i < |s| && (s[i] == '\"' || s[i] == '\\');
        assert s[1..][i - 1] == s[i];
      }
      NotPlainMisreads(s[1..], r);
      if ReadBody(d[1..]).Some? {
        var u := ReadBody(d[1..]).value.0;
        assert (s[..1] + u)[1..] == u;
      }
    }
  }

  /** A quote that does not end a literal has been escaped, so there is one further left in what was read. */
  lemma {:induction false} QuoteEarlier(d: string, q: nat) returns (p: nat)
    requires ReadBody(d).Some? && q + |ReadBody(d).value.1| + 1 < |d| && d[q] == '\"'
    ensures p < q && p < |ReadBody(d).value.0| && ReadBody(d).value.0[p] == '\"'
    decreases |d|
  {
    if d[0] != '\\' {
      p := QuoteEarlier(d[1..], q - 1);
      p := p + 1;
    } else if q == 1 {
      p := 0;
    } else {
      p := QuoteEarlier(d[2..], q - 2);
      p := p + |EscapeMeaning(d[1])|;
    }
  }

  /** So what was read does not start with everything up to that quote. */
  lemma {:induction false} QuoteDescends(s: string, d: string, q: nat)
    requires ReadBody(d).Some? && q + |ReadBody(d).value.1| + 1 < |d| && d[q] == '\"'
    requires q <= |s| && s <= d
    ensures !(s <= ReadBody(d).value.0)
    decreases q
  {
    var p := QuoteEarlier(d, q);
    if s <= ReadBody(d).value.0 {
      assert d[p] == s[p] == '\"';
      QuoteDescends(s, d, p);
    }
  }

  /** What is read for an unescaped string that would have needed escaping does not even start with it. */
  lemma MisreadDiffers(s: string, r: string)
    requires !Plain(s) && ReadBody(s + "\"" + r).Some?
    ensures !(s <= ReadBody(s + "\"" + r).value.0)
  {
    var d := s + "\"" + r;
    var u, rest := ReadBody(d).value.0, ReadBody(d).value.1;
    DecodedLength(d);
    ReadSuffix(d);
    if |s| + |rest| + 1 < |d| {
      assert s <= d && d[|s|] == '\"';
      QuoteDescends(s, d, |s|);
    } else {
      NotPlainMisreads(s, r);
      assert d[|s| + 1..] == r;
      assert |rest| == |r| ==> rest == r;
      assert s <= u && |u| == |s| ==> u == s;
      assert ReadBody(d) == Some((u, rest));
    }
  }

  lemma {:induction false} ReadSuffix(d: string)
    requires ReadBody(d).Some?
    ensures var r := ReadBody(d).value.1; |r| <= |d| && d[|d| - |r|..] == r
    decreases |d|
  {
    if d[0] == '\"' {
    } else if d[0] != '\\' {
      ReadSuffix(d[1..]);
    } else {
      ReadSuffix(d[2..]);
    }
  }

  // ------------------------------------------------------------------- numbers

  function SkipDigits(d: string): (r: string)
    ensures |r| <= |d|
    ensures r != "" ==> !Digit(r[0])
  {
    if d != "" && Digit(d[0]) then SkipDigits(d[1..]) else d
  }

  /** The outcome of scanning part of a number. */
  datatype Scan =
    | At(rest: string)     // scanned; this much is left
    | Stop(rest: string)   // refused; this much is left
    | Past                 // the scan looked past the end of the input

  /** `0`, or a nonzero digit and all the digits after it. */
  function ScanInteger(n: string, original: string): (s: Scan)
    ensures s.At? ==> |s.rest| < |n|
  {
    if "0" <= n then At(n[1..])
    else if n == "" || !('1' <= n[0] <= '9') then Stop(n)
    else if SkipDigits(n[1..]) == "" then Stop(original)
    else At(SkipDigits(n[1..]))
  }

  function ScanFraction(n: string, original: string): (s: Scan)
    ensures s.At? ==> 0 < |s.rest| <= |n|
  {
    if n == "" then Past
    else if n[0] != '.' then At(n)
    else if SkipDigits(n[1..]) == "" then Stop(original)
    else At(SkipDigits(n[1..]))
  }

  function ScanExponent(n: string, original: string): (s: Scan)
    requires n != ""
    ensures s.At? ==> |s.rest| <= |n|
  {
    if n[0] != 'e' && n[0] != 'E' then At(n)
    else if |n| == 1 then Stop(original)
    else
      var digits := ExponentDigits(n);
      var rest := SkipDigits(digits);
      if rest == "" || rest == digits then Stop(original) else At(rest)
  }

  /** What follows the letter and the sign. */
  function ExponentDigits(n: string): (r: string)
    requires |n| > 1
    ensures |r| < |n|
  {
    if n[1] == '+' || n[1] == '-' then n[2..] else n[1..]
  }

  function ScanDecimal(n: string, original: string): (s: Scan)
    ensures s.At? ==> |s.rest| < |n|
  {
    match ScanInteger(n, original)
    case Stop(r) => Stop(r)
    case Past => Past
    case At(r) =>
      match ScanFraction(r, original)
      case Stop(r) => Stop(r)
      case Past => Past
      case At(r) => ScanExponent(r, original)
  }

  function SkipMinus(d: string): string {
    if "-" <= d then d[1..] else d
  }

  datatype NumberResult =
    | Number(text: string, rest: string)
    | NoNumber(rest: string)
    | NumberPast

  /** What `ConsumeNumber` reports and what it leaves behind. */
  function ReadNumber(d: string): NumberResult {
    var n := SkipMinus(d);
    if "nan" <= n then Number(d[..|d| - |n| + 3], n[3..])
    else if "null" <= n then Number("nan", n[4..])
    else if "inf" <= n then Number(d[..|d| - |n| + 3], n[3..])
    else
      match ScanDecimal(n, d)
      case At(r) => Number(d[..|d| - |r|], r)
      case Stop(r) => NoNumber(r)
      case Past => NumberPast
  }

  lemma ReadNumberShrinks(d: string)
    ensures ReadNumber(d).Number? ==> |ReadNumber(d).rest| < |d|
    ensures ReadNumber(d).NoNumber? ==> |ReadNumber(d).rest| <= |d|
  {
  }

  /**
   The header promises that `data_` is updated only on success.  `ConsumeNumber` keeps
   that promise exactly when the input is not a `-` without a number behind it.
   */
  lemma RefusedNumberRestores(d: string)
    requires ReadNumber(d).NoNumber?
    ensures ReadNumber(d).rest == d <==> !("-" <= d && (|d| == 1 || !Digit(d[1])))
  {
    if "-" <= d && !(|d| == 1 || !Digit(d[1])) {
      assert "0" <= d[1..] || '1' <= d[1..][0] <= '9';
    }
  }

  /** So a stray minus is gone after the refusal. */
  lemma StrayMinus()
    ensures ReadNumber("-x") == NoNumber("x")
  {
    assert "-x"[1..] == "x";
  }

  /** A number literal the tokenizer reports verbatim. */
  predicate IsNumber(v: string) {
    ReadNumber(v + ",") == Number(v, ",")
  }

  /** Characters that can follow a value: none of them continues a number or a keyword. */
  predicate Delimiter(c: char) {
    Blank(c) || c == '/' || c == ',' || c == ']' || c == '}'
  }

  // The scans commute with what follows the number, as long as that starts with a delimiter.

  predicate Tail(t: string) {
    t != "" && Delimiter(t[0])
  }

  lemma {:induction false} SkipDigitsTail(x: string, t: string)
    requires Tail(t)
    ensures SkipDigits(x + t) == SkipDigits(x) + t
  {
    if x == "" {
      assert SkipDigits(x) == "" && x + t == t && "" + t == t;
      assert !Digit(t[0]) && SkipDigits(t) == t;
    } else if Digit(x[0]) {
      SkipDigitsTail(x[1..], t);
      assert (x + t)[0] == x[0] && (x + t)[1..] == x[1..] + t;
    } else {
      assert (x + t)[0] == x[0];
    }
  }

  lemma PrefixTail(tok: string, x: string, t: string)
    requires Tail(t) && forall i :: 0 <= i < |tok| ==> !Delimiter(tok[i])
    ensures tok <= x + t <==> tok <= x
  {
    if |x| < |tok| {
      assert (x + t)[|x|] == t[0];
    }
  }

  /** Scanning `x` in front of the tail `t` gives what it gives in front of a comma. */
  ghost predicate SameScan(a: Scan, b: Scan, t: string) {
    a.At? ==> a.rest != "" && Last(a.rest) == ',' && b == At(ButLast(a.rest) + t)
  }

  lemma RestTail(y: string, t: string)
    ensures SameScan(At(y + ","), At(y + t), t)
  {
    assert ButLast(y + ",") == y;
  }

  lemma ScanIntegerTail(x: string, t: string, o: string, o': string)
    requires Tail(t)
    ensures SameScan(ScanInteger(x + ",", o), ScanInteger(x + t, o'), t)
  {
    PrefixTail("0", x, t);
    PrefixTail("0", x, ",");
    if x == "" {
      assert x + "," == "," && x + t == t;
    } else {
      var y := x[1..];
      assert (x + ",")[1..] == y + "," && (x + t)[1..] == y + t;
      RestTail(y, t);
      SkipDigitsTail(y, t);
      SkipDigitsTail(y, ",");
      RestTail(SkipDigits(y), t);
    }
  }

  lemma ScanFractionTail(x: string, t: string, o: string, o': string)
    requires Tail(t)
    ensures SameScan(ScanFraction(x + ",", o), ScanFraction(x + t, o'), t)
  {
    RestTail(x, t);
    if x == "" {
      assert x + "," == "," && x + t == t;
      assert ScanFraction(",", o) == At(",") && ScanFraction(t, o') == At(t);
    } else {
      var y := x[1..];
      assert (x + ",")[1..] == y + "," && (x + t)[1..] == y + t;
      SkipDigitsTail(y, t);
      SkipDigitsTail(y, ",");
      RestTail(SkipDigits(y), t);
    }
  }

  lemma ExponentDigitsTail(x: string, t: string)
    requires |x| > 1
    ensures ExponentDigits(x + t) == ExponentDigits(x) + t
  {
    assert (x + t)[1..] == x[1..] + t && (x + t)[2..] == x[2..] + t;
  }

  lemma ScanExponentTail(x: string, t: string, o: string, o': string)
    requires Tail(t)
    ensures SameScan(ScanExponent(x + ",", o), ScanExponent(x + t, o'), t)
  {
    if x == "" || (x[0] != 'e' && x[0] != 'E') {
      NoExponentTail(x, t, o, o');
    } else if |x| > 1 {
      SignedTail(x, t, o, o');
    } else {
      LetterOnly(x, o);
    }
  }

  lemma NoExponentTail(x: string, t: string, o: string, o': string)
    requires Tail(t) && (x == "" || (x[0] != 'e' && x[0] != 'E'))
    ensures SameScan(ScanExponent(x + ",", o), ScanExponent(x + t, o'), t)
  {
    RestTail(x, t);
    assert x == "" ==> (x + ",")[0] == ',' && (x + t)[0] == t[0];
  }

  lemma LetterOnly(x: string, o: string)
    requires |x| == 1 && (x[0] == 'e' || x[0] == 'E')
    ensures ScanExponent(x + ",", o).Stop?
  {
    assert ExponentDigits(x + ",") == ",";
    assert SkipDigits(",") == ",";
  }

  lemma SignedTail(x: string, t: string, o: string, o': string)
    requires Tail(t) && |x| > 1 && (x[0] == 'e' || x[0] == 'E')
    ensures SameScan(ScanExponent(x + ",", o), ScanExponent(x + t, o'), t)
  {
    ExponentDigitsTail(x, t);
    ExponentDigitsTail(x, ",");
    var digits := ExponentDigits(x);
    SkipDigitsTail(digits, t);
    SkipDigitsTail(digits, ",");
    RestTail(SkipDigits(digits), t);
    if SkipDigits(digits) + t == digits + t {
      assert |SkipDigits(digits)| == |digits|;
      SameSuffix(SkipDigits(digits), digits, t);
    }
  }

  lemma SameSuffix(a: string, b: string, t: string)
    requires a + t == b + t
    ensures a == b
  {
    assert a == (a + t)[..|a|] && b == (b + t)[..|b|];
  }

  lemma ScanDecimalTail(x: string, t: string, o: string, o': string)
    requires Tail(t)
    ensures SameScan(ScanDecimal(x + ",", o), ScanDecimal(x + t, o'), t)
  {
    ScanIntegerTail(x, t, o, o');
    var a := ScanInteger(x + ",", o);
    if a.At? {
      var y := ButLast(a.rest);
      assert a.rest == y + ",";
      ScanFractionTail(y, t, o, o');
      var b := ScanFraction(y + ",", o);
      if b.At? {
        var z := ButLast(b.rest);
        assert b.rest == z + ",";
        ScanExponentTail(z, t, o, o');
      }
    }
  }

  /** Which branch `ReadNumber` takes does not depend on the tail. */
  lemma NumberBranches(v: string, t: string)
    requires Tail(t)
    ensures SkipMinus(v + t) == SkipMinus(v) + t
    ensures "nan" <= SkipMinus(v + t) <==> "nan" <= SkipMinus(v)
    ensures "null" <= SkipMinus(v + t) <==> "null" <= SkipMinus(v)
    ensures "inf" <= SkipMinus(v + t) <==> "inf" <= SkipMinus(v)
  {
    PrefixTail("-", v, t);
    var x := SkipMinus(v);
    assert SkipMinus(v + t) == x + t;
    PrefixTail("nan", x, t);
    PrefixTail("null", x, t);
    PrefixTail("inf", x, t);
  }

  lemma DecimalDelimited(v: string, x: string, t: string)
    requires Tail(t) && ScanDecimal(x + ",", v + ",") == At(",")
    ensures ScanDecimal(x + t, v + t) == At(t)
  {
    ScanDecimalTail(x, t, v + ",", v + t);
    assert "" + t == t;
  }

  /** A number literal is read as itself in front of anything that may follow a value. */
  lemma NumberDelimited(v: string, t: string)
    requires IsNumber(v) && Tail(t)
    ensures ReadNumber(v + t) == Number(v, t)
  {
    NumberBranches(v, t);
    NumberBranches(v, ",");
    var x := SkipMinus(v);
    assert (v + t)[..|v|] == v;
    if "nan" <= x || "inf" <= x {
      assert (x + ",")[3..] == x[3..] + ",";
      assert (x + t)[3..] == x[3..] + t;
    } else if !("null" <= x) {
      DecimalDelimited(v, x, t);
    }
  }

  // Conversely, whatever `ConsumeNumber` reports is a number literal.

  predicate AllDigits(a: string) {
    forall i :: 0 <= i < |a| ==> Digit(a[i])
  }

  /** The three parts of a decimal literal.  A point needs no digit after it. */
  predicate IntegerPart(a: string) {
    a == "0" || (a != "" && '1' <= a[0] <= '9' && AllDigits(a[1..]))
  }

  predicate FractionPart(b: string) {
    b == "" || (b[0] == '.' && AllDigits(b[1..]))
  }

  predicate ExponentPart(c: string) {
    c == "" ||
    (|c| > 1 && (c[0] == 'e' || c[0] == 'E') &&
     if c[1] == '+' || c[1] == '-' then |c| > 2 && AllDigits(c[2..]) else AllDigits(c[1..]))
  }

  lemma {:induction false} SplitDigits(n: string) returns (a: string)
    ensures AllDigits(a) && n == a + SkipDigits(n)
  {
    if n != "" && Digit(n[0]) {
      var b := SplitDigits(n[1..]);
      a := [n[0]] + b;
      assert n == [n[0]] + n[1..];
    } else {
      a := "";
      assert n == a + n;
    }
  }

  lemma {:induction false} SkipAllDigits(a: string, t: string)
    requires AllDigits(a) && t != "" && !Digit(t[0])
    ensures SkipDigits(a + t) == t
  {
    if a == "" {
      assert a + t == t;
    } else {
      SkipAllDigits(a[1..], t);
      assert (a + t)[1..] == a[1..] + t;
    }
  }

  lemma SplitInteger(n: string, o: string) returns (a: string)
    requires ScanInteger(n, o).At?
    ensures IntegerPart(a) && n == a + ScanInteger(n, o).rest
  {
    if "0" <= n {
      a := "0";
    } else {
      var b := SplitDigits(n[1..]);
      a := [n[0]] + b;
      assert a[1..] == b;
    }
  }

  lemma ScanIntegerPart(a: string, t: string, o: string)
    requires IntegerPart(a) && t != "" && !Digit(t[0])
    ensures ScanInteger(a + t, o) == At(t)
  {
    assert (a + t)[1..] == a[1..] + t;
    if a == "0" {
      assert a[1..] + t == t;
    } else {
      SkipAllDigits(a[1..], t);
    }
  }

  lemma SplitFraction(n: string, o: string) returns (b: string)
    requires ScanFraction(n, o).At?
    ensures FractionPart(b) && n == b + ScanFraction(n, o).rest
    ensures b == "" ==> n[0] != '.'
  {
    if n[0] == '.' {
      var c := SplitDigits(n[1..]);
      b := [n[0]] + c;
      assert b[1..] == c;
    } else {
      b := "";
      assert n == b + n;
    }
  }

  lemma ScanFractionPart(b: string, t: string, o: string)
    requires FractionPart(b) && t != "" && !Digit(t[0]) && (b == "" ==> t[0] != '.')
    ensures ScanFraction(b + t, o) == At(t)
  {
    if b == "" {
      assert b + t == t;
    } else {
      SkipAllDigits(b[1..], t);
      assert (b + t)[1..] == b[1..] + t;
    }
  }

  lemma SplitExponent(n: string, o: string) returns (c: string)
    requires n != "" && ScanExponent(n, o).At?
    ensures ExponentPart(c) && n == c + ScanExponent(n, o).rest
  {
    if n[0] == 'e' || n[0] == 'E' {
      var k := if n[1] == '+' || n[1] == '-' then 2 else 1;
      var ds := SplitDigits(n[k..]);
      assert "" + SkipDigits(n[k..]) == SkipDigits(n[k..]);
      c := WithSign(n, k, ds, SkipDigits(n[k..]));
    } else {
      c := "";
      assert n == c + n;
    }
  }

  lemma WithSign(n: string, k: nat, ds: string, r: string) returns (c: string)
    requires 1 <= k <= 2 < |n| || (k == 1 && |n| == 2)
    requires n[k..] == ds + r && AllDigits(ds) && ds != ""
    requires (n[0] == 'e' || n[0] == 'E') && (k == 2 <==> n[1] == '+' || n[1] == '-')
    ensures ExponentPart(c) && n == c + r
  {
    c := n[..k] + ds;
    assert c[k..] == ds;
    assert n[k..][0] == n[k];
    assert n == n[..k] + n[k..];
    ConcatAssoc(n[..k], ds, r);
  }

  lemma ScanExponentPart(c: string, t: string, o: string)
    requires ExponentPart(c) && Tail(t)
    ensures ScanExponent(c + t, o) == At(t)
  {
    if c == "" {
      assert c + t == t;
    } else {
      var k := if c[1] == '+' || c[1] == '-' then 2 else 1;
      SkipAllDigits(c[k..], t);
      assert (c + t)[k..] == c[k..] + t;
      assert |c[k..] + t| > |t|;
    }
  }

  lemma ScanParts(a: string, b: string, c: string, t: string, o: string)
    requires IntegerPart(a) && FractionPart(b) && ExponentPart(c) && Tail(t)
    ensures ScanDecimal(a + (b + (c + t)), o) == At(t)
  {
    ScanExponentPart(c, t, o);
    var t' := c + t;
    ScanFractionPart(b, t', o);
    ScanIntegerPart(a, b + t', o);
  }

  lemma SplitDecimal(n: string, o: string) returns (a: string, b: string, c: string)
    requires ScanDecimal(n, o).At?
    ensures IntegerPart(a) && FractionPart(b) && ExponentPart(c)
    ensures n == a + (b + (c + ScanDecimal(n, o).rest))
  {
    a := SplitInteger(n, o);
    var r := ScanInteger(n, o).rest;
    b := SplitFraction(r, o);
    c := SplitExponent(ScanFraction(r, o).rest, o);
  }

  lemma KeywordReported(d: string)
    requires ReadNumber(d).Number?
    requires "nan" <= SkipMinus(d) || "null" <= SkipMinus(d) || "inf" <= SkipMinus(d)
    ensures IsNumber(ReadNumber(d).text)
  {
    var n := SkipMinus(d);
    KeywordNumber("nan");
    KeywordNumber("inf");
    if "nan" <= n {
      KeywordText(d, "nan");
    } else if !("null" <= n) {
      KeywordText(d, "inf");
    }
  }

  lemma KeywordNumber(v: string)
    requires v == "nan" || v == "inf"
    ensures IsNumber(v) && IsNumber("-" + v)
  {
    var m := "-" + v;
    assert v <= v + "," && (v + ",")[3..] == ",";
    assert (v + ",")[..3] == v;
    assert (v + ",")[0] == v[0] && v[0] != '-';
    assert SkipMinus(v + ",") == v + ",";
    assert SkipMinus(m + ",") == v + ",";
    assert (m + ",")[..4] == m;
  }

  lemma KeywordText(d: string, v: string)
    requires |v| == 3 && v <= SkipMinus(d)
    ensures d[..|d| - |SkipMinus(d)| + 3] == if "-" <= d then "-" + v else v
  {
    var n := SkipMinus(d);
    assert n[..3] == v;
    if "-" <= d {
      assert d == ['-'] + n;
      assert d[..4] == ['-'] + n[..3];
    }
  }

  lemma ScannedIsNumber(v: string)
    requires v != "" && Digit(v[0]) && ScanDecimal(v + ",", v + ",") == At(",")
    ensures IsNumber(v)
  {
    assert (v + ",")[..|v|] == v;
  }

  lemma NegatedIsNumber(v: string)
    requires v != "" && Digit(v[0]) && ScanDecimal(v + ",", "-" + v + ",") == At(",")
    ensures IsNumber("-" + v)
  {
    var w := "-" + v;
    assert (w + ",")[1..] == v + ",";
    assert (w + ",")[..|w|] == w;
  }

  lemma DecimalIsNumber(a: string, b: string, c: string)
    requires IntegerPart(a) && FractionPart(b) && ExponentPart(c)
    ensures IsNumber(a + (b + c)) && IsNumber("-" + (a + (b + c)))
  {
    var v := a + (b + c);
    ConcatAssoc(b, c, ",");
    ConcatAssoc(a, b + c, ",");
    ScanParts(a, b, c, ",", v + ",");
    ScannedIsNumber(v);
    ScanParts(a, b, c, ",", "-" + v + ",");
    NegatedIsNumber(v);
  }

  lemma ConsumedPrefix(d: string, v: string, r: string)
    requires SkipMinus(d) == v + r
    ensures d[..|d| - |r|] == if "-" <= d then "-" + v else v
  {
    if "-" <= d {
      assert d == "-" + (v + r);
    }
  }

  lemma SplitLiteral(n: string, o: string) returns (v: string)
    requires ScanDecimal(n, o).At?
    ensures n == v + ScanDecimal(n, o).rest && IsNumber(v) && IsNumber("-" + v)
  {
    var a, b, c := SplitDecimal(n, o);
    var r := ScanDecimal(n, o).rest;
    ConcatAssoc(b, c, r);
    ConcatAssoc(a, b + c, r);
    DecimalIsNumber(a, b, c);
    v := a + (b + c);
  }

  lemma DecimalReported(d: string, n: string)
    requires n == SkipMinus(d) && ScanDecimal(n, d).At?
    ensures IsNumber(d[..|d| - |ScanDecimal(n, d).rest|])
  {
    var v := SplitLiteral(n, d);
    ConsumedPrefix(d, v, ScanDecimal(n, d).rest);
  }

  lemma NumberReported(d: string)
    requires ReadNumber(d).Number?
    ensures IsNumber(ReadNumber(d).text)
  {
    var n := SkipMinus(d);
    if "nan" <= n || "null" <= n || "inf" <= n {
      KeywordReported(d);
    } else {
      DecimalReported(d, n);
    }
  }
}
