/** Printing an integer into a buffer, last digit first, and turning the text around in place. */
module PrintInteger {
  import opened Common
  import opened Lexer
  import opened Decimal

  /** Division and remainder that round towards zero. */
  function Quotient(a: int, b: nat): (q: int)
    requires b > 0
    ensures a < 0 ==> q == -((-a) / b)
  {
    if a >= 0 then a / b else -((-a) / b)
  }

  function Remainder(a: int, b: nat): (r: int)
    requires b > 0
    ensures a < 0 ==> r == -((-a) % b)
  {
    if a >= 0 then a % b else -((-a) % b)
  }

  function Backwards(s: string): (r: string)
    ensures |r| == |s|
  {
    if s == "" then "" else [Last(s)] + Backwards(ButLast(s))
  }

  lemma {:induction false} BackwardsAt(s: string, k: nat)
    requires k < |s|
    ensures Backwards(s)[k] == s[|s| - 1 - k]
    decreases |s|
  {
    if k > 0 {
      BackwardsAt(ButLast(s), k - 1);
    }
  }

  /** What is left to print comes before what has been written, turned around. */
  predicate Pending(all: nat, rest: nat, written: string) {
    Digits(all) == Digits(rest) + Backwards(written)
  }

  lemma WriteDigit(all: nat, rest: nat, written: string)
    requires Pending(all, rest, written)
    ensures var more := written + [DigitChar(rest % 10)];
      if rest < 10 then Digits(all) == Backwards(more) else Pending(all, rest / 10, more)
  {
    var d := DigitChar(rest % 10);
    var more := written + [d];
    assert ButLast(more) == written;
    assert Backwards(more) == [d] + Backwards(written);
    if rest >= 10 {
      ConcatAssoc(Digits(rest / 10), [d], Backwards(written));
    }
  }

  /** The digits of `val` in reverse; false if there is no room for them. */
  method WriteDigits(buf: array<char>, val: int, room: nat) returns (ok: bool, len: nat)
    requires room <= buf.Length
    modifies buf
    ensures ok <==> |Digits(if val < 0 then -val else val)| <= room
    ensures ok ==> len <= room && Backwards(buf[..len]) == Digits(if val < 0 then -val else val)
    ensures forall i :: room <= i < buf.Length ==> buf[i] == old(buf[i])
    ensures ok ==> forall i :: len <= i < buf.Length ==> buf[i] == old(buf[i])
  {
    ghost var all: nat := if val < 0 then -val else val;
    var v := val;
    len := 0;
    ghost var rest := all;
    assert Digits(all) + "" == Digits(all);
    while true
      invariant len <= room && rest == (if v < 0 then -v else v) && (val < 0 ==> v <= 0) && (val >= 0 ==> v >= 0)
      invariant Pending(all, rest, buf[..len])
      invariant forall i :: len <= i < buf.Length ==> buf[i] == old(buf[i])
      decreases rest
    {
      if len == room {
        return false, len;
      }
      WriteDigit(all, rest, buf[..len]);
      ghost var written := buf[..len];
      buf[len] := NextDigit(val < 0, v);
      len := len + 1;
      assert buf[..len] == written + [DigitChar(rest % 10)];
      v := Quotient(v, 10);
      if v == 0 {
        assert rest < 10;
        return true, len;
      }
      rest := rest / 10;
    }
  }

  /** The last digit, taken from the remainder with its sign. */
  function NextDigit(negative: bool, v: int): (c: char)
    requires if negative then v <= 0 else v >= 0
    ensures c == DigitChar((if v < 0 then -v else v) % 10)
  {
    if negative then ('0' as int - Remainder(v, 10)) as char else ('0' as int + Remainder(v, 10)) as char
  }

  /** Swaps the outer characters inwards. */
  method TurnAround(buf: array<char>, len: nat)
    requires len <= buf.Length
    modifies buf
    ensures buf[..len] == Backwards(old(buf[..len]))
    ensures forall i :: len <= i < buf.Length ==> buf[i] == old(buf[i])
  {
    for i := 0 to len / 2
      invariant forall k :: 0 <= k < i ==> buf[k] == old(buf[len - 1 - k]) && buf[len - 1 - k] == old(buf[k])
      invariant forall k :: i <= k < len - i ==> buf[k] == old(buf[k])
      invariant forall k :: len <= k < buf.Length ==> buf[k] == old(buf[k])
    {
      buf[len - 1 - i], buf[i] := buf[i], buf[len - 1 - i];
    }
    ghost var was := old(buf[..len]);
    forall k | 0 <= k < len
      ensures buf[k] == Backwards(was)[k]
    {
      BackwardsAt(was, k);
    }
    assert buf[..len] == Backwards(was);
  }

  /**
   Prints the integer if it fits, exactly as long as its notation; nothing is taken from the
   room otherwise.  The smallest integer of a type is never negated.
   */
  method Print(buf: array<char>, val: int, room: nat) returns (ok: bool, left: nat)
    requires room <= buf.Length
    modifies buf
    ensures ok <==> |Show(val)| <= room
    ensures ok ==> left == room - |Show(val)| && buf[..|Show(val)|] == Show(val)
    ensures ok ==> forall i :: |Show(val)| <= i < buf.Length ==> buf[i] == old(buf[i])
    ensures !ok ==> left == room && forall i :: room <= i < buf.Length ==> buf[i] == old(buf[i])
  {
    left := room;
    var len;
    ok, len := WriteDigits(buf, val, room);
    if !ok {
      return;
    }
    ghost var digits := buf[..len];
    if val < 0 {
      if len == room {
        return false, left;
      }
      buf[len] := '-';
      len := len + 1;
      assert buf[..len] == digits + "-" && ButLast(digits + "-") == digits;
      assert Backwards(digits + "-") == "-" + Backwards(digits);
    }
    assert Backwards(buf[..len]) == Show(val);
    TurnAround(buf, len);
    left := room - len;
  }
}
