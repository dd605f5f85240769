/** Python's `round`, on reals: to the nearest, ties to even. */
module Rounding {

  function Nearest(x: real): int {
    var f := x.Floor;
    var d := x - f as real;
    if d < 0.5 then f
    else if d > 0.5 then f + 1
    else if f % 2 == 0 then f else f + 1
  }

  /** `round(x, 2)`: to the paise grid. */
  function ToPaise(x: real): real {
    Nearest(x * 100.0) as real / 100.0
  }

  /** `round(x, 6)`. */
  function RoundSix(x: real): real {
    Nearest(x * 1000000.0) as real / 1000000.0
  }

  lemma NearestIsMonotone(x: real, y: real)
    requires x <= y
    ensures Nearest(x) <= Nearest(y)
  {
    assert x.Floor <= y.Floor;
  }

  /** Rounding to paise keeps order, leaves the grid alone and moves a value by at most half a paisa. */
  lemma PaiseRounding(x: real, y: real, n: int)
    ensures x <= y ==> ToPaise(x) <= ToPaise(y)
    ensures ToPaise(n as real / 100.0) == n as real / 100.0
    ensures -0.005 <= ToPaise(x) - x <= 0.005
  {
    if x <= y {
      NearestIsMonotone(x * 100.0, y * 100.0);
    }
    assert n as real / 100.0 * 100.0 == n as real;
  }

  /** The nearest whole number, and of two equally near ones the even one. */
  lemma NearestIsClosest(x: real, n: int)
    ensures Nearest(x) == n <==> -0.5 <= n as real - x <= 0.5 && ((n as real - x == 0.5 || n as real - x == -0.5) ==> n % 2 == 0)
  {
    var f := x.Floor;
    assert f as real <= x < f as real + 1.0;
    if -0.5 <= n as real - x <= 0.5 {
      assert f <= n <= f + 1;
    }
  }

  ghost function Hundredths(n: int): real { n as real / 100.0 }

  ghost function Millionths(n: int): real { n as real / 1000000.0 }

  /** `r` is a whole number of paise, and no more than half a paisa away from `x`. */
  ghost predicate InPaise(r: real, x: real) {
    (exists n :: r == Hundredths(n)) && -0.005 <= r - x <= 0.005
  }

  /** `r` has six decimals, and is no more than half a unit of the last one away from `x`. */
  ghost predicate InMicros(r: real, x: real) {
    (exists n :: r == Millionths(n)) && -0.0000005 <= r - x <= 0.0000005
  }

  lemma RoundsToPaise(x: real)
    ensures InPaise(ToPaise(x), x)
  {
    assert ToPaise(x) == Hundredths(Nearest(x * 100.0));
  }

  lemma RoundsToMicros(x: real)
    ensures InMicros(RoundSix(x), x)
  {
    assert RoundSix(x) == Millionths(Nearest(x * 1000000.0));
  }

  lemma RoundSixIsMonotone(x: real, y: real)
    requires x <= y
    ensures RoundSix(x) <= RoundSix(y)
  {
    NearestIsMonotone(x * 1000000.0, y * 1000000.0);
  }
}
