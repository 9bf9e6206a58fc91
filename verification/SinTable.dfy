/** Table lookup of periodic functions at multiples of a ratio, with integer arithmetic only. */
module SinTable {
  import opened Common

  const UINT32_MAX := 0xffff_ffff

  function Log2RoundUp(x: nat): nat {
    if x < 2 then x else 1 + Log2RoundUp(x / 2)
  }

  function Pow2(k: nat): (p: nat)
    ensures p > 0
  {
    if k == 0 then 1 else 2 * Pow2(k - 1)
  }

  /** Compares with one shifted left by one less than the number of bits. */
  predicate IsPowerOf2(value: nat)
    requires 0 < value <= UINT32_MAX
  {
    LogPositive(value);
    value == Pow2(Log2RoundUp(value) - 1)
  }

  lemma LogPositive(x: nat)
    requires x > 0
    ensures Log2RoundUp(x) > 0
  {
  }

  /** The number of bits: two to the number less one is the largest power that is not greater. */
  lemma {:induction false} Log2Bounds(x: nat)
    requires x > 0
    ensures Log2RoundUp(x) > 0 && Pow2(Log2RoundUp(x) - 1) <= x < Pow2(Log2RoundUp(x))
    decreases x
  {
    if x >= 2 {
      Log2Bounds(x / 2);
    } else {
      assert Pow2(1) == 2 * Pow2(0);
    }
  }

  lemma {:induction false} LogOfPower(k: nat)
    ensures Log2RoundUp(Pow2(k)) == k + 1
    decreases k
  {
    if k > 0 {
      LogOfPower(k - 1);
      assert Pow2(k) / 2 == Pow2(k - 1);
    }
  }

  ghost predicate PowerOf2(value: nat) {
    exists k: nat :: value == Pow2(k)
  }

  /** The test recognises exactly the powers of two. */
  lemma IsPowerOf2Meaning(value: nat)
    requires 0 < value <= UINT32_MAX
    ensures IsPowerOf2(value) <==> PowerOf2(value)
  {
    Log2Bounds(value);
    if k: nat :| value == Pow2(k) {
      LogOfPower(k);
    }
  }

  // ------------------------------------------------------------------------- the ratio

  lemma {:induction false} Pow2Add(a: nat, b: nat)
    ensures Pow2(a + b) == Pow2(a) * Pow2(b)
    decreases a
  {
    if a > 0 {
      Pow2Add(a - 1, b);
      assert Pow2(a + b) == 2 * Pow2(a - 1 + b);
      DoubleProduct(Pow2(a - 1), Pow2(b));
    }
  }

  lemma DoubleProduct(x: int, y: int)
    ensures 2 * (x * y) == (2 * x) * y
  {
  }

  lemma {:induction false} Pow2Monotone(a: nat, b: nat)
    requires Pow2(a) <= Pow2(b)
    ensures a <= b
    decreases a
  {
    if a > 0 && b > 0 {
      Pow2Monotone(a - 1, b - 1);
    }
  }

  /**
   The two checks on the ratio of table size and denominator hold exactly for table sizes
   that are powers of two; nothing else that is checked says so.
   */
  lemma RatioChecks(den: nat, size: nat)
    requires 0 < den <= size && PowerOf2(den)
    ensures (size / den) * den == size && PowerOf2(size / den) <==> PowerOf2(size)
  {
    if (size / den) * den == size && PowerOf2(size / den) {
      PowersMultiply(size / den, den);
    }
    if PowerOf2(size) {
      var q := PowersDivide(size, den);
      DivisionUnique(size, den, q, 0);
    }
  }

  lemma PowersMultiply(a: nat, b: nat)
    requires PowerOf2(a) && PowerOf2(b)
    ensures PowerOf2(a * b)
  {
    var x: nat, y: nat :| a == Pow2(x) && b == Pow2(y);
    Pow2Add(x, y);
  }

  lemma PowersDivide(size: nat, den: nat) returns (q: nat)
    requires PowerOf2(size) && PowerOf2(den) && den <= size
    ensures PowerOf2(q) && size == den * q
  {
    var s: nat, d: nat :| size == Pow2(s) && den == Pow2(d);
    Pow2Monotone(d, s);
    Pow2Add(s - d, d);
    q := Pow2(s - d);
  }

  // ------------------------------------------------------------------------- the index

  /** What is checked when the lookup is instantiated. */
  predicate Accepted(num: int, den: int, size: int) {
    && 0 < num && 0 < den <= size <= UINT32_MAX && IsPowerOf2(den)
    && size * num < UINT32_MAX
    && (size / den) * den == size
    && 0 < size / den <= UINT32_MAX && IsPowerOf2(size / den)
  }

  function Index(num: int, den: int, size: int, theta: nat): (i: int)
    requires Accepted(num, den, size) && theta < den
    ensures 0 <= i < size
  {
    var ratio := size / den;
    (theta * ratio * num + ratio * num / 2) % size
  }

  lemma MulLess(a: nat, b: nat, c: nat)
    requires a < b
    ensures a * c + c <= b * c
  {
    var d := b - a - 1;
    assert b * c == (a + 1 + d) * c == a * c + c + d * c;
  }

  lemma Regroup(theta: int, ratio: int, num: int, den: int)
    ensures theta * ratio * num == theta * (ratio * num) && ratio * den * num == den * (ratio * num)
  {
  }

  /** No intermediate result leaves 32 bits. */
  lemma IntermediatesFit(num: int, den: int, size: int, theta: nat)
    requires Accepted(num, den, size) && theta < den
    ensures var ratio := size / den;
      && 0 <= theta * ratio <= UINT32_MAX && 0 <= theta * ratio * num <= UINT32_MAX
      && 0 <= ratio * num <= UINT32_MAX && 0 <= theta * ratio * num + ratio * num / 2 <= UINT32_MAX
  {
    hide IsPowerOf2;
    var ratio := size / den;
    Regroup(theta, ratio, num, den);
    MulLess(theta, den, ratio);
    Products(theta, den, ratio, num);
  }

  lemma Products(theta: nat, den: nat, ratio: nat, num: nat)
    requires theta < den && den * (ratio * num) < UINT32_MAX && num > 0
    ensures 0 <= theta * (ratio * num) && theta * (ratio * num) + ratio * num < UINT32_MAX
    ensures 0 <= theta * ratio <= theta * (ratio * num)
  {
    MulLess(theta, den, ratio * num);
    assert ratio <= ratio * num by {
      MulLess(0, num, ratio);
    }
    assert theta * ratio <= theta * (ratio * num) by {
      var e := ratio * num - ratio;
      assert theta * (ratio + e) == theta * ratio + theta * e;
    }
  }

  /**
   Where the function is sampled.  In units of half a table step, entry `i` is at `2 i + 1`,
   a turn is `2 size`, and the wanted angle, the ratio times `theta` and a half, is
   `(size / den) num (2 theta + 1)`.
   */
  lemma SamplePoint(num: int, den: int, size: int, theta: nat) returns (turns: int)
    requires Accepted(num, den, size) && theta < den
    ensures var scaled := size / den * num;
      2 * Index(num, den, size, theta) + 1 + 2 * size * turns - scaled * (2 * theta + 1) == 1 - scaled % 2
  {
    var scaled := size / den * num;
    Regroup(theta, size / den, num, den);
    turns := (theta * scaled + scaled / 2) / size;
    HalfSteps(theta, scaled, size);
  }

  lemma HalfSteps(theta: int, scaled: int, size: int)
    requires size > 0
    ensures var x := theta * scaled + scaled / 2;
      2 * (x % size) + 1 + 2 * size * (x / size) - scaled * (2 * theta + 1) == 1 - scaled % 2
  {
    var x := theta * scaled + scaled / 2;
    HalfStepsOf(theta * scaled, scaled, size, x / size, x % size);
    assert scaled * (2 * theta + 1) == 2 * (theta * scaled) + scaled;
  }

  lemma HalfStepsOf(p: int, scaled: int, size: int, turns: int, i: int)
    requires p + scaled / 2 == size * turns + i
    ensures 2 * i + 1 + 2 * size * turns - (2 * p + scaled) == 1 - scaled % 2
  {
    var q := size * turns;
    assert 2 * size * turns == 2 * q;
  }

  /** Half a step off, unless the scaled numerator is odd: with a reduced ratio, unless size and denominator agree. */
  lemma ExactWhen(num: int, den: int, size: int)
    requires Accepted(num, den, size) && den >= 2 && num % 2 == 1
    ensures (size / den * num) % 2 == 1 <==> size == den
  {
    EvenPower(den);
    var ratio := size / den;
    if size == den {
      DivisionUnique(size, den, 1, 0);
    } else {
      assert ratio == 1 ==> size == den;
      EvenPower(ratio);
      var h := ratio / 2;
      assert ratio * num == 2 * (h * num) by {
        assert ratio == 2 * h;
      }
    }
  }

  lemma EvenPower(value: nat)
    requires 2 <= value <= UINT32_MAX && IsPowerOf2(value)
    ensures value % 2 == 0
  {
    LogPositive(value);
    var k := Log2RoundUp(value) - 1;
    assert k > 0;
  }

  // -------------------------------------------------------------------- the table itself

  /** The angle of an entry, in turns. */
  function EntryAngle(i: int, size: int): real
    requires size > 0
  {
    (i as real + 0.5) / (size as real)
  }

  /** The wanted angle, in turns. */
  function Wanted(num: int, den: int, theta: int): real
    requires den > 0
  {
    (num as real) / (den as real) * (theta as real + 0.5)
  }

  /** The loop that fills a table with values of the function. */
  method Initialize(f: real -> real, table: array<real>)
    modifies table
    ensures forall i :: 0 <= i < table.Length ==> table[i] == f(EntryAngle(i, table.Length))
  {
    var i := 0;
    while i < table.Length
      invariant i <= table.Length
      invariant forall j :: 0 <= j < i ==> table[j] == f(EntryAngle(j, table.Length))
    {
      table[i] := f(EntryAngle(i, table.Length));
      i := i + 1;
    }
  }

  ghost predicate Periodic(f: real -> real) {
    forall x :: f(x) == f(x + 1.0)
  }

  lemma {:induction false} WholeTurns(f: real -> real, x: real, k: nat)
    requires Periodic(f)
    ensures f(x + k as real) == f(x)
    decreases k
  {
    if k > 0 {
      WholeTurns(f, x, k - 1);
      var y := x + (k - 1) as real;
      assert y + 1.0 == x + k as real;
      assert f(y) == f(y + 1.0);
    } else {
      assert x + 0.0 == x;
    }
  }

  /** Adding any number of whole turns to the angle of an entry. */
  lemma SameValue(f: real -> real, x: real, k: int)
    requires Periodic(f)
    ensures f(x + k as real) == f(x)
  {
    if k >= 0 {
      WholeTurns(f, x, k);
    } else {
      WholeTurns(f, x + k as real, -k);
      assert x + k as real + (-k) as real == x;
    }
  }

  lemma Scale(i: int, size: int, turns: int, wanted: int)
    requires size > 0 && 2 * i + 1 + 2 * size * turns == wanted
    ensures EntryAngle(i, size) + turns as real == (wanted as real / 2.0) / (size as real)
  {
    var s := size as real;
    assert (2 * size * turns) as real == 2.0 * (s * turns as real);
    assert wanted as real / 2.0 == i as real + 0.5 + s * turns as real;
    assert (s * turns as real) / s == turns as real;
  }

  lemma WantedScaled(num: int, den: int, theta: int)
    requires den > 0
    ensures Wanted(num, den, theta) == ((num * (2 * theta + 1)) as real / 2.0) / (den as real)
  {
    var n, d, t := num as real, den as real, theta as real + 0.5;
    assert (num * (2 * theta + 1)) as real == n * (2.0 * t) by {
      assert (2 * theta + 1) as real == 2.0 * t;
    }
    assert n / d * t == (n * t) / d;
  }

  /**
   With a reduced ratio and a table of the denominator's size, the lookup is the function at
   the ratio times `theta` and a half, exactly.
   */
  lemma LookupExact(f: real -> real, num: int, den: int, theta: nat, table: seq<real>)
    requires Accepted(num, den, den) && den >= 2 && num % 2 == 1 && theta < den && Periodic(f)
    requires |table| == den && forall i :: 0 <= i < den ==> table[i] == f(EntryAngle(i, den))
    ensures table[Index(num, den, den, theta)] == f(Wanted(num, den, theta))
  {
    var turns := SamplePoint(num, den, den, theta);
    ExactWhen(num, den, den);
    DivisionUnique(den, den, 1, 0);
    var i := Index(num, den, den, theta);
    Scale(i, den, turns, num * (2 * theta + 1));
    WantedScaled(num, den, theta);
    SameValue(f, EntryAngle(i, den), turns);
  }
}
