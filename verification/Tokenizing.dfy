/**
 The tokenizer itself: a cursor over the input with its state, its stack of open
 brackets and the last field name and value, as `aos::Tokenizer` keeps them.  Every
 method is proved to do what the functions of `Lexer` and `TokenMachine` say.
 */
module Tokenizing {
  import opened Common
  import opened Lexer
  import opened TokenMachine

  datatype TokenType =
    | TEnd | TError | TPastEnd | TStartObject | TEndObject | TStartArray | TEndArray
    | TField | TNumberValue | TStringValue | TTrueValue | TFalseValue

  /** The token a caller sees: its type together with the name or value the tokenizer holds. */
  function Seen(t: TokenType, name: string, value: string): Token {
    match t
    case TEnd => End
    case TError => Error
    case TPastEnd => PastEnd
    case TStartObject => StartObject
    case TEndObject => EndObject
    case TStartArray => StartArray
    case TEndArray => EndArray
    case TField => Field(name)
    case TNumberValue => NumberValue(value)
    case TStringValue => StringValue(value)
    case TTrueValue => TrueValue
    case TFalseValue => FalseValue
  }

  lemma PrependNothing(r: Option<(string, string)>)
    ensures Prepend("", r) == r
  {
    if r.Some? {
      assert "" + r.value.0 == r.value.0;
    }
  }

  /** What the next characters of a literal do to the string read so far. */
  lemma BodyStep(sofar: string, d: string)
    ensures Prepend(sofar, ReadBody(d)) ==
      if d == "" then None
      else if d[0] == '\"' then Some((sofar, d[1..]))
      else if d[0] != '\\' then Prepend(sofar + d[..1], ReadBody(d[1..]))
      else if |d| == 1 || d[1] == 'u' then None
      else Prepend(sofar + EscapeMeaning(d[1]), ReadBody(d[2..]))
  {
    if d == "" {
    } else if d[0] == '\"' {
      assert sofar + "" == sofar;
    } else if d[0] != '\\' {
      PrependTwice(sofar, d[..1], ReadBody(d[1..]));
    } else if |d| > 1 && d[1] != 'u' {
      PrependTwice(sofar, EscapeMeaning(d[1]), ReadBody(d[2..]));
    }
  }

  /** `s` and the segment of `last` before `d`, which is still to be copied, make up `sofar`. */
  ghost predicate Copied(s: string, last: string, d: string, sofar: string) {
    |d| <= |last| && last[|last| - |d|..] == d && sofar == s + last[..|last| - |d|]
  }

  lemma SegmentStarts(s: string, d: string)
    ensures Copied(s, d, d, s)
  {
    assert s + d[..0] == s;
  }

  /** One more character of the segment. */
  lemma SegmentGrows(s: string, last: string, d: string, sofar: string)
    requires d != "" && Copied(s, last, d, sofar)
    ensures Copied(s, last, d[1..], sofar + d[..1])
  {
    assert last[..|last| - |d| + 1] == last[..|last| - |d|] + d[..1];
  }

  class Tokenizer {
    var state: State
    var data: string
    var objectType: seq<Kind>
    var fieldName: string
    var fieldValue: string

    function View(): Machine
      reads this
    {
      Machine(state, data, objectType)
    }

    constructor (text: string)
      ensures View() == Start(text)
    {
      state, data, objectType := ExpectObjectStart, text, [];
      fieldName, fieldValue := "", "";
    }

    /** Consumes a fixed token; leaves the input alone if it is not there. */
    method Consume(token: string) returns (found: bool)
      modifies this`data
      ensures found <==> token <= old(data)
      ensures data == if found then old(data)[|token|..] else old(data)
    {
      var original := data;
      var i := 0;
      while i < |token|
        invariant i <= |token| && i <= |original|
        invariant token[..i] == original[..i] && data == original[i..]
      {
        if data == "" || token[i] != data[0] {
          data := original;
          return false;
        }
        data := data[1..];
        i := i + 1;
      }
      found := true;
    }

    /** Skips blanks and comments; `inRange` is false where the input ends inside a comment. */
    method ConsumeWhitespace() returns (inRange: bool)
      modifies this`data
      ensures inRange <==> SkipSpace(old(data)).Some?
      ensures inRange ==> data == SkipSpace(old(data)).value
    {
      while true
        invariant SkipSpace(data) == SkipSpace(old(data))
        decreases |data|
      {
        if data == "" {
          return true;
        }
        if Blank(data[0]) {
          data := data[1..];
        } else {
          var comment := Consume("/*");
          if !comment {
            return true;
          }
          ghost var body := data;
          var closed := Consume("*/");
          while !closed
            invariant !closed ==> SkipComment(data) == SkipComment(body) && !("*/" <= data)
            invariant closed ==> SkipComment(body) == Some(data)
            decreases !closed, |data|
          {
            if data == "" {
              return false;
            }
            data := data[1..];
            closed := Consume("*/");
          }
        }
      }
    }

    /**
     Consumes a string literal.  Runs of ordinary characters are copied in one piece, at
     the next quote or escape; a failure leaves the input alone.
     */
    method ConsumeString() returns (found: bool, s: string)
      modifies this`data
      ensures found <==> ReadString(old(data)).Some?
      ensures found ==> (s, data) == ReadString(old(data)).value
      ensures !found ==> data == old(data)
    {
      hide ReadBody, EscapeMeaning, Prepend;
      var original := data;
      s := "";
      if data == "" || data[0] != '\"' {
        return false, s;
      }
      data := data[1..];
      var last := data;
      ghost var sofar := "";
      PrependNothing(ReadBody(data));
      SegmentStarts(s, data);
      while true
        invariant Copied(s, last, data, sofar)
        invariant ReadString(original) == Prepend(sofar, ReadBody(data))
        decreases |data|
      {
        BodyStep(sofar, data);
        if data == "" {
          data := original;
          return false, s;
        }
        if data[0] == '\"' || data[0] == '\\' {
          s := s + last[..|last| - |data|];
          last := data;
          if data[0] == '\"' {
            data := data[1..];
            return true, s;
          }
          ghost var here := data;
          data := data[1..];
          assert |here| > 1 ==> data[0] == here[1] && data[1..] == here[2..];
          if data == "" || data[0] == 'u' {
            data := original;
            return false, s;
          }
          s := s + EscapeMeaning(data[0]);
          last := data[1..];
          sofar := s;
          SegmentStarts(s, last);
        } else {
          SegmentGrows(s, last, data, sofar);
          sofar := sofar + data[..1];
        }
        data := data[1..];
      }
    }

    /** Skips digits up to the next other character; `found` is false if the input ends first. */
    method ConsumeDigits() returns (found: bool)
      modifies this`data
      ensures data == SkipDigits(old(data))
      ensures found <==> data != ""
    {
      while data != "" && Digit(data[0])
        invariant SkipDigits(data) == SkipDigits(old(data))
        decreases |data|
      {
        data := data[1..];
      }
      found := data != "";
    }

    method ConsumeInteger(original: string) returns (ok: bool)
      modifies this`data
      ensures ScanInteger(old(data), original) == if ok then At(data) else Stop(data)
    {
      var zero := Consume("0");
      if zero {
        return true;
      }
      if data == "" || !('1' <= data[0] <= '9') {
        return false;
      }
      data := data[1..];
      ok := ConsumeDigits();
      if !ok {
        data := original;
      }
    }

    method ConsumeFraction(original: string) returns (ok: bool)
      requires data != ""
      modifies this`data
      ensures ScanFraction(old(data), original) == if ok then At(data) else Stop(data)
    {
      if data[0] != '.' {
        return true;
      }
      data := data[1..];
      ok := ConsumeDigits();
      if !ok {
        data := original;
      }
    }

    method ConsumeExponent(original: string) returns (ok: bool)
      requires data != ""
      modifies this`data
      ensures ScanExponent(old(data), original) == if ok then At(data) else Stop(data)
    {
      if data[0] != 'e' && data[0] != 'E' {
        return true;
      }
      data := data[1..];
      if data == "" {
        data := original;
        return false;
      }
      if data[0] == '+' || data[0] == '-' {
        data := data[1..];
      }
      var digits := data;
      ok := ConsumeDigits();
      if !ok || data == digits {
        data := original;
        ok := false;
      }
    }

    /**
     Consumes a number.  The text reported is what was consumed, except that `null` is
     reported as `nan`; `inRange` is false where the input ends right after a lone `0`.
     */
    method ConsumeNumber() returns (found: bool, inRange: bool, s: string)
      modifies this`data
      ensures !inRange ==> ReadNumber(old(data)) == NumberPast
      ensures inRange && found ==> ReadNumber(old(data)) == Number(s, data)
      ensures inRange && !found ==> ReadNumber(old(data)) == NoNumber(data)
    {
      var original := data;
      var _ := Consume("-");
      var word := Consume("nan");
      if word {
        return true, true, original[..|original| - |data|];
      }
      word := Consume("null");
      if word {
        return true, true, "nan";
      }
      word := Consume("inf");
      if word {
        return true, true, original[..|original| - |data|];
      }
      found, inRange := ConsumeDecimal(original);
      s := if found && inRange then original[..|original| - |data|] else "";
    }

    method ConsumeDecimal(original: string) returns (found: bool, inRange: bool)
      modifies this`data
      ensures ScanDecimal(old(data), original) ==
        if !inRange then Past else if found then At(data) else Stop(data)
    {
      found := ConsumeInteger(original);
      if !found {
        return false, true;
      }
      if data == "" {
        return false, false;
      }
      found := ConsumeFraction(original);
      if !found {
        return false, true;
      }
      found := ConsumeExponent(original);
      inRange := true;
    }

    /** What a call delivered: the token, and (while reading stays in range) the machine it left. */
    ghost predicate Delivered(s: Stepped, t: TokenType)
      reads this
    {
      Seen(t, fieldName, fieldValue) == s.token && (!s.token.PastEnd? ==> View() == s.machine)
    }

    /** The tokenizer's `Next`: one step of the machine. */
    method Next() returns (t: TokenType)
      requires Safe(View())
      modifies this
      ensures Delivered(Step(old(View())), t)
    {
      match state
      case ExpectObjectStart =>
        var brace := Consume("{");
        if !brace {
          return TError;
        }
        t := StartedObject(old(View()));
      case ExpectField =>
        t := NextField();
      case ExpectValue =>
        t := NextValue();
      case ExpectObjectEnd =>
        t := Unwind();
      case ExpectArrayEnd =>
        t := Unwind();
      case ExpectEnd =>
        t := if data == "" then TEnd else TError;
    }

    /** A `{` has just been consumed. */
    method StartedObject(ghost here: Machine) returns (t: TokenType)
      requires Safe(here)
      modifies this
      ensures Delivered(OpenObject(old(data), old(objectType), here), t)
    {
      objectType := objectType + [InObject];
      var inRange := ConsumeWhitespace();
      if !inRange {
        return TPastEnd;
      }
      var brace := Consume("}");
      if brace {
        inRange := ConsumeWhitespace();
        state := ExpectObjectEnd;
      } else {
        state := ExpectField;
      }
      t := if inRange then TStartObject else TPastEnd;
    }

    method NextField() returns (t: TokenType)
      requires state.ExpectField? && objectType != []
      modifies this
      ensures Delivered(FieldStep(old(View())), t)
    {
      hide ReadString, SkipSpace;
      var found, s := ConsumeString();
      if !found {
        var _ := Consume("}");
        return TError;
      }
      fieldName := s;
      var inRange := ConsumeWhitespace();
      if !inRange {
        return TPastEnd;
      }
      var colon := Consume(":");
      if !colon {
        // The error message prints the offending character.
        return if data == "" then TPastEnd else TError;
      }
      inRange := ConsumeWhitespace();
      state := ExpectValue;
      t := if inRange then TField else TPastEnd;
    }

    method NextValue() returns (t: TokenType)
      requires state.ExpectValue? && objectType != []
      modifies this
      ensures Delivered(ValueStep(old(View())), t)
    {
      hide OpenObject, Scalar, NumberStep, ReadString;
      var bracket := Consume("{");
      if bracket {
        t := StartedObject(old(View()));
        return;
      }
      bracket := Consume("[");
      if bracket {
        objectType := objectType + [InArray];
        var inRange := ConsumeWhitespace();
        return if inRange then TStartArray else TPastEnd;
      }
      var found, s := ConsumeString();
      if found {
        fieldValue := s;
        t := FinishScalar(TStringValue);
        return;
      }
      t := NextNumber();
    }

    method NextNumber() returns (t: TokenType)
      requires state.ExpectValue? && objectType != []
      modifies this
      ensures Delivered(NumberStep(old(View())), t)
    {
      hide Scalar, WordStep, ReadNumber;
      var found, inRange, s := ConsumeNumber();
      if !inRange {
        return TPastEnd;
      }
      if found {
        fieldValue := s;
        t := FinishScalar(TNumberValue);
        return;
      }
      t := NextWord();
    }

    method NextWord() returns (t: TokenType)
      requires state.ExpectValue? && objectType != []
      modifies this
      ensures Delivered(WordStep(old(data), old(objectType)), t)
    {
      hide Scalar, CloseStep;
      var word := Consume("true");
      if word {
        fieldValue := "true";
        t := FinishScalar(TTrueValue);
        return;
      }
      word := Consume("false");
      if word {
        fieldValue := "false";
        t := FinishScalar(TFalseValue);
        return;
      }
      t := NextClose();
    }

    /** No value at all: the object or array ends here, or the input is wrong. */
    method NextClose() returns (t: TokenType)
      requires state.ExpectValue? && objectType != []
      modifies this
      ensures Delivered(CloseStep(old(data), old(objectType)), t)
    {
      var closed := Consume(Closer(Last(objectType)));
      if closed {
        var inRange := ConsumeWhitespace();
        if !inRange {
          return TPastEnd;
        }
        state := CloseState(Last(objectType));
        t := Unwind();
        return;
      }
      t := FinishScalar(TError);
    }

    /** After a value: a comma and the next item, or the closing bracket. */
    method FinishScalar(result: TokenType) returns (t: TokenType)
      requires state.ExpectValue? && objectType != [] && !result.TPastEnd? && !result.TEnd?
      modifies this`state, this`data
      ensures Delivered(Scalar(Seen(result, fieldName, fieldValue), old(data), old(objectType)), t)
    {
      var inRange := ConsumeWhitespace();
      if !inRange {
        return TPastEnd;
      }
      t := Continue(result);
    }

    /** A comma and the next item, or the closing bracket of what is still open. */
    method Continue(result: TokenType) returns (t: TokenType)
      requires objectType != [] && !result.TPastEnd?
      modifies this`state, this`data
      ensures Delivered(Deliver(After(objectType, old(data)), Seen(result, fieldName, fieldValue), old(View())), t)
    {
      var top := Last(objectType);
      var comma := Consume(",");
      if comma {
        var inRange := ConsumeWhitespace();
        state := NextItem(top);
        return if inRange then result else TPastEnd;
      }
      var closed := Consume(Closer(top));
      if !closed {
        return TError;
      }
      var inRange := ConsumeWhitespace();
      state := CloseState(top);
      t := if inRange then result else TPastEnd;
    }

    /** Reports the end of the innermost object or array. */
    method Unwind() returns (t: TokenType)
      requires (state.ExpectObjectEnd? || state.ExpectArrayEnd?) && objectType != []
      modifies this
      ensures Delivered(Close(old(state), old(data), old(objectType)), t)
    {
      var result := if state.ExpectArrayEnd? then TEndArray else TEndObject;
      objectType := ButLast(objectType);
      if objectType == [] {
        state := ExpectEnd;
        return result;
      }
      t := Continue(result);
    }
  }
}
