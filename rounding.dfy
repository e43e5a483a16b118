/** The numeric built-ins the chart relies on, on exact real values:
    Python's `round` (to an integer and to two decimals), `math.ceil`
    and the bits-per-second to megabits-per-second conversion. */
module Rounding {

  /** `round(x)` and `round(x, 0)`: the nearest integer, a tie going to the
      even neighbour. */
  function RoundHalfEven(x: real): (n: int)
    ensures x - 0.5 <= n as real <= x + 0.5
    ensures n as real - x == 0.5 || x - n as real == 0.5 ==> n % 2 == 0
  {
    var f := x.Floor;
    var d := x - f as real;
    if d < 0.5 then f
    else if d > 0.5 then f + 1
    else if f % 2 == 0 then f else f + 1
  }

  /** The two properties of RoundHalfEven determine it: any integer within
      one half of `x`, even on a tie, is the rounded value. */
  lemma RoundHalfEvenUnique(x: real, n: int)
    requires x - 0.5 <= n as real <= x + 0.5
    requires n as real - x == 0.5 || x - n as real == 0.5 ==> n % 2 == 0
    ensures n == RoundHalfEven(x)
  {
  }

  /** Rounding never reverses the order of two values. */
  lemma RoundHalfEvenMonotone(x: real, y: real)
    requires x <= y
    ensures RoundHalfEven(x) <= RoundHalfEven(y)
  {
  }

  /** A value between two integers rounds to an integer between them. */
  lemma RoundHalfEvenBetween(x: real, lo: int, hi: int)
    requires lo as real <= x <= hi as real
    ensures lo <= RoundHalfEven(x) <= hi
  {
  }

  /** An integer rounds to itself. */
  lemma RoundHalfEvenOfInt(k: int)
    ensures RoundHalfEven(k as real) == k
  {
  }

  /** `math.ceil(x)`: the least integer not below `x`. */
  function Ceil(x: real): (n: int)
    ensures x <= n as real < x + 1.0
  {
    -((-x).Floor)
  }

  /** `round(x, 2)`: the nearest multiple of one hundredth, a tie going to
      the even hundredth. */
  function RoundTo2(x: real): (r: real)
    ensures x - 0.005 <= r <= x + 0.005
    ensures (r * 100.0).Floor as real == r * 100.0
    ensures x * 100.0 - r * 100.0 == 0.5 || r * 100.0 - x * 100.0 == 0.5 ==> (r * 100.0).Floor % 2 == 0
  {
    var k := RoundHalfEven(x * 100.0);
    assert k as real / 100.0 * 100.0 == k as real;
    k as real / 100.0
  }

  /** The three properties of RoundTo2 determine it. */
  lemma RoundTo2Unique(x: real, r: real)
    requires x - 0.005 <= r <= x + 0.005
    requires (r * 100.0).Floor as real == r * 100.0
    requires x * 100.0 - r * 100.0 == 0.5 || r * 100.0 - x * 100.0 == 0.5 ==> (r * 100.0).Floor % 2 == 0
    ensures r == RoundTo2(x)
  {
    var k := (r * 100.0).Floor;
    RoundHalfEvenUnique(x * 100.0, k);
  }

  /** `round(bps / 1e6, 2)`: a rate in bits per second as megabits per
      second, rounded to a whole number of hundredths, a tie going to the
      even hundredth. */
  function ToMbps(bps: real): (m: real)
    ensures bps / 1000000.0 - 0.005 <= m <= bps / 1000000.0 + 0.005
    ensures (m * 100.0).Floor as real == m * 100.0
    ensures bps / 10000.0 - m * 100.0 == 0.5 || m * 100.0 - bps / 10000.0 == 0.5 ==> (m * 100.0).Floor % 2 == 0
  {
    assert bps / 1000000.0 * 100.0 == bps / 10000.0;
    RoundTo2(bps / 1000000.0)
  }

  /** A faster rate never shows as a slower one. */
  lemma ToMbpsMonotone(a: real, b: real)
    requires a <= b
    ensures ToMbps(a) <= ToMbps(b)
  {
    RoundHalfEvenMonotone(a / 1000000.0 * 100.0, b / 1000000.0 * 100.0);
  }

  /** Whole megabit rates convert exactly. */
  lemma ToMbpsWhole(k: int)
    ensures ToMbps(k as real * 1000000.0) == k as real
  {
    assert k as real * 1000000.0 / 1000000.0 * 100.0 == (k * 100) as real;
    RoundHalfEvenOfInt(k * 100);
  }
}
