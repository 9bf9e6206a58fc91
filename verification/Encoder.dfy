/** Unwrapping of a rotary encoder: from readings modulo one revolution to positions. */
module Encoder {
  import opened Common

  const TWO31 := 0x8000_0000
  const TWO32 := 0x1_0000_0000

  function ToInt32(x: int): (r: int)
    ensures -TWO31 <= r < TWO31
    ensures -TWO31 <= x < TWO31 ==> r == x
  {
    (x + TWO31) % TWO32 - TWO31
  }

  function ToUint32(x: int): (r: int)
    ensures 0 <= r < TWO32
    ensures 0 <= x < TWO32 ==> r == x
  {
    x % TWO32
  }

  /** The remainder that takes the sign of the dividend. */
  function Remainder(a: int, n: int): (r: int)
    requires n > 0
    ensures a >= 0 ==> r == a % n
  {
    if a >= 0 then a % n else -((-a) % n)
  }

  // ------------------------------------------------------------------------ unwrapping

  datatype Tracker = Tracker(offset: int, last: int)

  /** One reading: the offset moves by a revolution when the reading jumps between the outer quarters. */
  function Advance(n: nat, s: Tracker, reading: int): (t: Tracker)
    ensures t.last == reading
  {
    var down := n / 4;
    var up := down * 3;
    if s.last > up && reading < down then Tracker(ToInt32(s.offset + n), reading)
    else if s.last < down && reading > up then Tracker(ToInt32(s.offset - n), reading)
    else Tracker(s.offset, reading)
  }

  /** The position as the tracker sees it. */
  function Position(s: Tracker): int {
    s.last + s.offset
  }

  /** The tracker holds the position `base + raw`, the encoder being `raw` counts from its zero. */
  predicate Tracks(n: nat, s: Tracker, base: int, raw: int)
    requires n > 0
  {
    s.last == raw % n && s.offset == base + raw - raw % n
  }

  /** The position and the offset of its revolution are 32 bit integers. */
  predicate Fits(n: nat, base: int, raw: int)
    requires n > 0
  {
    -TWO31 <= base + raw - raw % n && base + raw < TWO31
  }

  /** A step of less than a quarter of a revolution to an offset that fits. */
  predicate SmallStep(n: nat, base: int, from: int, to: int)
    requires n > 0
  {
    Fits(n, base, to) && -(n / 4) < to - from < n / 4
  }

  /** After a small step the tracker is still right. */
  lemma AdvanceTracks(n: nat, s: Tracker, base: int, raw: int, next: int)
    requires n > 0 && Tracks(n, s, base, raw) && SmallStep(n, base, raw, next)
    ensures Tracks(n, Advance(n, s, next % n), base, next)
  {
    var d := next - raw;
    var r := raw % n;
    assert raw == n * (raw / n) + r;
    if r + d >= n {
      DivisionUnique(next, n, raw / n + 1, r + d - n);
    } else if r + d < 0 {
      DivisionUnique(next, n, raw / n - 1, r + d + n);
    } else {
      DivisionUnique(next, n, raw / n, r + d);
    }
  }

  /** The tracker after a run of readings. */
  function Run(n: nat, s: Tracker, raws: seq<int>): Tracker
    requires n > 0
  {
    if raws == [] then s else Advance(n, Run(n, s, ButLast(raws)), Last(raws) % n)
  }

  /** The encoder's counts before the last step. */
  function Before(start: int, raws: seq<int>): int {
    if raws == [] then start else Last(raws)
  }

  /** A run of small steps. */
  predicate Slow(n: nat, base: int, start: int, raws: seq<int>)
    requires n > 0
  {
    raws == [] || (Slow(n, base, start, ButLast(raws)) && SmallStep(n, base, Before(start, ButLast(raws)), Last(raws)))
  }

  /** Over any number of readings the position is exact. */
  lemma {:induction false} RunTracks(n: nat, s: Tracker, base: int, start: int, raws: seq<int>)
    requires n > 0 && Tracks(n, s, base, start) && Slow(n, base, start, raws)
    ensures Tracks(n, Run(n, s, raws), base, Before(start, raws))
    ensures raws != [] ==> ToInt32(Position(Run(n, s, raws))) == base + Last(raws)
    decreases |raws|
  {
    if raws != [] {
      RunTracks(n, s, base, start, ButLast(raws));
      AdvanceTracks(n, Run(n, s, ButLast(raws)), base, Before(start, ButLast(raws)), Last(raws));
    }
  }

  /** A quarter of a revolution in one step, to the next revolution's zero, can already be too much. */
  lemma QuarterStepFails(n: nat, base: int)
    requires n >= 4 && n % 4 == 0 && -TWO31 <= base < TWO31 - n
    ensures var s := Tracker(base, n / 4 * 3);
      Tracks(n, s, base, n / 4 * 3) && Position(Advance(n, s, 0)) == base && !Tracks(n, Advance(n, s, 0), base, n)
  {
    DivisionUnique(n, n, 1, 0);
    DivisionUnique(n / 4 * 3, n, 0, n / 4 * 3);
  }

  // ----------------------------------------------------------------------------- the motor

  class Motor {
    const counts: nat
    var offset: int
    var last: int
    var calibration: int
    var multiplier: int
    // The count register of the timer, which wraps at the counts of one revolution.
    var register: nat

    /** Every sum of a count and the calibration is a 32 bit integer. */
    ghost predicate Valid()
      reads this
    {
      0 < counts && 3 * counts < TWO31 && register < counts && counts - TWO31 <= calibration < TWO31 - counts
    }

    ghost function State(): Tracker
      reads this
    {
      Tracker(offset, last)
    }

    constructor (counts: nat)
      requires 0 < counts && 3 * counts < TWO31
      ensures Valid() && this.counts == counts && State() == Tracker(0, 0) && multiplier == 1 && calibration == 0
    {
      this.counts := counts;
      offset, last, calibration, multiplier, register := 0, 0, 0, 1, 0;
    }

    /** Revolutions are added until a full turn backwards is still positive. */
    method SetCalibrationOffset(to: int)
      requires Valid() && counts - TWO31 <= to < TWO31 - counts
      modifies this`calibration
      ensures Valid() && calibration % counts == to % counts
      ensures calibration == to >= counts || (to < counts <= calibration < 2 * counts)
    {
      calibration := to;
      while calibration < counts
        invariant calibration % counts == to % counts
        invariant calibration == to || (to < counts && calibration < 2 * counts)
        decreases counts - calibration
      {
        SameRemainder(calibration, counts, 1);
        calibration := calibration + counts;
      }
    }

    /** The signed count plus the calibration. */
    function Sum(): int
      reads this
    {
      multiplier * register + calibration
    }

    /**
     The reading.  It is the sum modulo a revolution exactly if the sum is not negative or a
     multiple of a revolution; after calibration it always is, in both directions.
     */
    method WrappedEncoder() returns (r: int)
      requires Valid() && -TWO31 <= multiplier * register < TWO31 && -TWO31 <= Sum() < TWO31
      ensures 0 <= r < TWO32
      ensures r == Sum() % counts <==> Sum() >= 0 || Sum() % counts == 0
      ensures (multiplier == 1 || multiplier == -1) && calibration >= counts ==> 0 <= r < counts && r == Sum() % counts
    {
      var encoder := ToInt32(multiplier * register);
      r := ToUint32(Remainder(encoder + calibration, counts));
      NegativeRemainder(encoder + calibration, counts);
    }

    /** Restarts tracking from a reading: the position is `to` plus the reading. */
    method SetEncoderOffset(to: int)
      requires Valid() && (multiplier == 1 || multiplier == -1) && calibration >= counts && -TWO31 <= to < TWO31
      modifies this`offset, this`last
      ensures Valid() && last == Sum() % counts
      ensures Tracks(counts, State(), to, last)
    {
      offset := to;
      last := WrappedEncoder();
      DivisionUnique(last, counts, 0, last);
    }

    /** The position for a reading. */
    method AbsoluteEncoder(reading: int) returns (position: int)
      requires Valid() && 0 <= reading < TWO32
      modifies this`offset, this`last
      ensures Valid() && State() == Advance(counts, old(State()), reading)
      ensures position == ToInt32(Position(State()))
    {
      var down := counts / 4;
      var up := down * 3;
      if last > up && reading < down {
        offset := ToInt32(offset + counts);
      } else if last < down && reading > up {
        offset := ToInt32(offset - counts);
      }
      last := reading;
      SameWrap(reading, offset);
      position := ToInt32(ToInt32(reading) + offset);
    }
  }

  /** The remainder of a negative number is not the one modulo `n`, even as an unsigned number. */
  lemma NegativeRemainder(a: int, n: nat)
    requires 0 < n < TWO31 && -TWO31 <= a < TWO31
    ensures ToUint32(Remainder(a, n)) == a % n <==> a >= 0 || a % n == 0
  {
    if a < 0 {
      var q, r := (-a) / n, (-a) % n;
      assert -a == n * q + r;
      assert a == n * (-q) - r;
      if r == 0 {
        DivisionUnique(a, n, -q, 0);
      } else {
        assert a == n * (-q - 1) + (n - r);
        DivisionUnique(a, n, -q - 1, n - r);
        DivisionUnique(-r, TWO32, -1, TWO32 - r);
      }
    }
  }

  /** Wrapping the reading first makes no difference. */
  lemma SameWrap(x: int, y: int)
    ensures ToInt32(ToInt32(x) + y) == ToInt32(x + y)
  {
    var q := (x + TWO31) / TWO32;
    assert ToInt32(x) == x - TWO32 * q;
    SameRemainder(x + y + TWO31, TWO32, -q);
  }

  lemma SameRemainder(x: int, n: nat, turns: int)
    requires n > 0
    ensures (x + n * turns) % n == x % n
  {
    assert x + n * turns == n * (x / n + turns) + x % n;
    DivisionUnique(x + n * turns, n, x / n + turns, x % n);
  }

  /** The signed count is congruent to the reading: a count either way moves the reading by one. */
  lemma ReadingFollows(n: nat, sign: int, count: nat, calibration: int, more: int)
    requires n > 0 && (sign == 1 || sign == -1)
    ensures (sign * ((count + more) % n) + calibration) % n == (sign * count + calibration + sign * more) % n
  {
    var q := (count + more) / n;
    assert (count + more) == n * q + (count + more) % n;
    assert sign * ((count + more) % n) + calibration ==
      (sign * count + calibration + sign * more) + n * (-sign * q) by {
      assert sign * (n * q) == n * (sign * q);
    }
    SameRemainder(sign * count + calibration + sign * more, n, -sign * q);
  }

  lemma {:induction false} SlowPrefix(n: nat, base: int, start: int, raws: seq<int>, k: nat)
    requires n > 0 && Slow(n, base, start, raws) && k <= |raws|
    ensures Slow(n, base, start, raws[..k])
    decreases |raws|
  {
    if k < |raws| {
      SlowPrefix(n, base, start, ButLast(raws), k);
      assert ButLast(raws)[..k] == raws[..k];
    } else {
      assert raws[..k] == raws;
    }
  }

  /** Reading the motor over a whole run. */
  method Follow(motor: Motor, raws: seq<int>, base: int, start: int) returns (positions: seq<int>)
    requires motor.Valid() && Tracks(motor.counts, motor.State(), base, start)
    requires Slow(motor.counts, base, start, raws)
    modifies motor`offset, motor`last
    ensures |positions| == |raws| && forall i :: 0 <= i < |raws| ==> positions[i] == base + raws[i]
  {
    positions := [];
    ghost var s := motor.State();
    for k := 0 to |raws|
      invariant motor.Valid() && motor.State() == Run(motor.counts, s, raws[..k])
      invariant |positions| == k && forall i :: 0 <= i < k ==> positions[i] == base + raws[i]
    {
      var p := motor.AbsoluteEncoder(raws[k] % motor.counts);
      assert ButLast(raws[..k + 1]) == raws[..k] && Last(raws[..k + 1]) == raws[k];
      SlowPrefix(motor.counts, base, start, raws, k + 1);
      RunTracks(motor.counts, s, base, start, raws[..k + 1]);
      positions := positions + [p];
    }
  }
}
