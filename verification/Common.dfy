/** Shared vocabulary of the model. */
module Common {
  datatype Option<+T> = None | Some(value: T)

  function Last<T>(s: seq<T>): T
    requires s != []
  {
    s[|s| - 1]
  }

  function ButLast<T>(s: seq<T>): seq<T>
    requires s != []
  {
    s[..|s| - 1]
  }

  lemma ConcatAssoc<T>(a: seq<T>, b: seq<T>, c: seq<T>)
    ensures (a + b) + c == a + (b + c)
  {
  }

  /** Quotient and remainder are unique. */
  lemma DivisionUnique(x: int, a: int, q: int, r: int)
    requires a > 0 && x == a * q + r && 0 <= r < a
    ensures x % a == r && x / a == q
  {
    var d := q - x / a;
    assert a * d == x % a - r by {
      assert x == a * (x / a) + x % a;
      assert a * d == a * q - a * (x / a);
    }
    assert d >= 1 ==> a * d >= a;
    assert d <= -1 ==> a * d <= -a;
  }
}
