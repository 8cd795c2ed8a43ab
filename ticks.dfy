/** Clock-tick quantisation of durations authored in microseconds (creator.py,
    creator/creator.py). Python floats are modelled as exact reals. */
module Ticks {

  /** A clock period in nanoseconds; Python's floor division by it needs it non-zero,
      and every revision uses a positive period (10 ns by default). */
  type Period = c: int | c > 0 witness 10

  /** Python's `int()` applied to a float: truncation toward zero. */
  function Int(x: real): (r: int)
    ensures 0.0 <= x ==> r as real <= x < r as real + 1.0
    ensures x < 0.0 ==> r as real - 1.0 < x <= r as real
  {
    if x >= 0.0 then x.Floor else -((-x).Floor)
  }

  /** `int(x * 1000 // clk)`: a duration of x microseconds as a whole number of clock
      periods of clk nanoseconds. The result is the number of whole periods that fit, so
      the conversion truncates and never rounds up (`TicksBracket`). */
  function ToClockTicks(x: real, clk: Period): (t: int)
    ensures 0.0 <= x <==> 0 <= t
  {
    (x * 1000.0 / clk as real).Floor
  }

  /** The tick count is the number of whole periods that fit in the duration. */
  lemma TicksBracket(x: real, clk: Period)
    ensures var t := ToClockTicks(x, clk);
      (t * clk) as real <= x * 1000.0 < ((t + 1) * clk) as real
  {
    var q := x * 1000.0 / clk as real;
    FloorScaled(q, clk);
    assert q * clk as real == x * 1000.0;
  }

  lemma FloorScaled(q: real, clk: Period)
    ensures (q.Floor * clk) as real <= q * clk as real < ((q.Floor + 1) * clk) as real
  {
    var f := q.Floor;
    var c := clk as real;
    assert f as real <= q;
    assert q < (f + 1) as real;
    RealMulLe(f as real, q, c);
    RealMulLt(q, (f + 1) as real, c);
    CastMul(f, clk);
    CastMul(f + 1, clk);
    calc {
      q * c;
    < (f + 1) as real * c;
    == ((f + 1) * clk) as real;
    }
  }

  lemma CastMul(a: int, b: int)
    ensures (a * b) as real == a as real * b as real
  {
  }

  lemma RealMulLe(a: real, b: real, c: real)
    requires a <= b && 0.0 <= c
    ensures a * c <= b * c
  {
    assert (b - a) * c >= 0.0;
  }

  lemma RealMulLt(a: real, b: real, c: real)
    requires a < b && 0.0 < c
    ensures a * c < b * c
  {
    assert (b - a) * c > 0.0;
  }

  lemma MulCancelLt(a: int, b: int, c: Period)
    requires a * c < b * c
    ensures a < b
  {
  }

  /** The tick count is the only integer whose periods bracket the duration. */
  lemma TicksUnique(x: real, clk: Period, t: int)
    requires (t * clk) as real <= x * 1000.0 < ((t + 1) * clk) as real
    ensures t == ToClockTicks(x, clk)
  {
    var u := ToClockTicks(x, clk);
    TicksBracket(x, clk);
    assert t * clk < (u + 1) * clk;
    MulCancelLt(t, u + 1, clk);
    assert u * clk < (t + 1) * clk;
    MulCancelLt(u, t + 1, clk);
  }

  /** `int(x * 1000) // clk`, the form `TCUParams.__str__` uses: truncate first, then
      divide (Dafny's division by a positive divisor is Python's floor division). */
  function DisplayTicks(x: real, clk: Period): (t: int)
    ensures 0.0 <= x ==> 0 <= t
    ensures x < 0.0 ==> t <= 0
  {
    Int(x * 1000.0) / clk
  }

  /** For a non-negative duration, truncating first gives the same tick count. */
  lemma DisplayTicksAgree(x: real, clk: Period)
    requires 0.0 <= x
    ensures DisplayTicks(x, clk) == ToClockTicks(x, clk)
  {
    var n := Int(x * 1000.0);
    var t := n / clk;
    assert t * clk <= n < (t + 1) * clk;
    assert (t * clk) as real <= n as real;
    assert (n + 1) as real <= ((t + 1) * clk) as real;
    TicksUnique(x, clk, t);
  }

  /** For a negative duration the two forms differ: `int()` truncates toward zero while
      floor division rounds down. */
  lemma DisplayTicksDifferBelowZero()
    ensures DisplayTicks(-0.0005, 10) == 0
    ensures ToClockTicks(-0.0005, 10) == -1
  {
    TicksUnique(-0.0005, 10, -1);
  }

  /** Sub-tick durations truncate to zero ticks; 10 us at 10 ns is 1000 ticks. */
  lemma TicksExamples()
    ensures ToClockTicks(0.0009, 10) == 0
    ensures ToClockTicks(10.0, 10) == 1000
    ensures ToClockTicks(30.0, 10) == 3000
    ensures ToClockTicks(500.0, 10) == 50000
    ensures ToClockTicks(3.5, 10) == 350
  {
    TicksUnique(0.0009, 10, 0);
    TicksUnique(10.0, 10, 1000);
    TicksUnique(30.0, 10, 3000);
    TicksUnique(500.0, 10, 50000);
    TicksUnique(3.5, 10, 350);
  }

  /** Quantising a sum loses at most what quantising the parts loses: the ticks of a + b
      are at least the ticks of a plus the ticks of b. */
  lemma TicksSuperadditive(a: real, b: real, clk: Period)
    ensures ToClockTicks(a + b, clk) >= ToClockTicks(a, clk) + ToClockTicks(b, clk)
  {
    var ta, tb, tab := ToClockTicks(a, clk), ToClockTicks(b, clk), ToClockTicks(a + b, clk);
    TicksBracket(a, clk);
    TicksBracket(b, clk);
    TicksBracket(a + b, clk);
    assert (a + b) * 1000.0 == a * 1000.0 + b * 1000.0;
    SumBelow(ta, tb, tab, clk, a * 1000.0, b * 1000.0);
  }

  lemma SumBelow(ta: int, tb: int, tab: int, clk: Period, x: real, y: real)
    requires (ta * clk) as real <= x && (tb * clk) as real <= y
    requires x + y < ((tab + 1) * clk) as real
    ensures ta + tb <= tab
  {
    var sa, sb, above := ta * clk, tb * clk, (tab + 1) * clk;
    assert sa + sb < above;
    assert (ta + tb) * clk == sa + sb;
    MulCancelLt(ta + tb, tab + 1, clk);
  }

  /** Longer durations never quantise to fewer ticks. */
  lemma TicksMonotone(a: real, b: real, clk: Period)
    requires a <= b
    ensures ToClockTicks(a, clk) <= ToClockTicks(b, clk)
  {
    var ta, tb := ToClockTicks(a, clk), ToClockTicks(b, clk);
    TicksBracket(a, clk);
    TicksBracket(b, clk);
    assert ta * clk < (tb + 1) * clk;
    MulCancelLt(ta, tb + 1, clk);
  }
}
