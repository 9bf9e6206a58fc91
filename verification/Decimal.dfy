/** Decimal notation of integers. */
module Decimal {
  import opened Common
  import opened Lexer

  function DigitChar(n: nat): (c: char)
    requires n < 10
    ensures Digit(c)
  {
    ('0' as int + n) as char
  }

  function DigitValue(c: char): (n: nat)
    requires Digit(c)
    ensures n < 10 && DigitChar(n) == c
  {
    c as int - '0' as int
  }

  /** The digits of a natural number, without leading zeros. */
  function Digits(n: nat): (s: string)
    ensures s != "" && AllDigits(s)
  {
    if n < 10 then [DigitChar(n)] else Digits(n / 10) + [DigitChar(n % 10)]
  }

  function Show(i: int): string {
    if i < 0 then "-" + Digits(-i) else Digits(i)
  }

  function Read(s: string): nat
    requires AllDigits(s)
  {
    if s == "" then 0 else 10 * Read(ButLast(s)) + DigitValue(Last(s))
  }

  lemma {:induction false} ReadDigits(n: nat)
    ensures Read(Digits(n)) == n
  {
    var s := Digits(n);
    if n < 10 {
      assert ButLast(s) == "";
    } else {
      ReadDigits(n / 10);
      assert ButLast(s) == Digits(n / 10);
    }
  }

  lemma {:induction false} NoLeadingZero(n: nat)
    requires n > 0
    ensures Digits(n)[0] != '0'
  {
    if n >= 10 {
      NoLeadingZero(n / 10);
    }
  }

  const INT64: int := 0x8000_0000_0000_0000

  predicate IsInteger(s: string) {
    var digits := SkipMinus(s);
    digits != "" && AllDigits(digits)
  }

  function IntegerValue(s: string): int
    requires IsInteger(s)
  {
    if "-" <= s then -(Read(s[1..]) as int) else Read(s)
  }

  /** What `strtoll` makes of a whole text: nothing unless it is an integer of 64 bits. */
  function AsInt(s: string): Option<int> {
    if IsInteger(s) && -INT64 <= IntegerValue(s) < INT64 then Some(IntegerValue(s)) else None
  }

  lemma ShowIsInteger(i: int)
    ensures IsInteger(Show(i)) && IntegerValue(Show(i)) == i
  {
    if i < 0 {
      ReadDigits(-i);
      assert Show(i)[1..] == Digits(-i);
    } else {
      ReadDigits(i);
      assert Digit(Show(i)[0]);
    }
  }

  /** A printed integer is read back exactly when it has 64 bits with sign. */
  lemma ShownAsInt(i: int)
    ensures AsInt(Show(i)) == if -INT64 <= i < INT64 then Some(i) else None
  {
    ShowIsInteger(i);
  }

  /** A printed integer is a number literal. */
  lemma ShowIsNumber(i: int)
    ensures IsNumber(Show(i))
  {
    var n: nat := if i < 0 then -i else i;
    var s := Digits(n);
    if n > 0 {
      NoLeadingZero(n);
    }
    assert IntegerPart(s);
    DecimalIsNumber(s, "", "");
    assert s + ("" + "") == s;
  }
}
