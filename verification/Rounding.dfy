/** Rounding of response figures to one and three decimals, halves away from zero. */
module Rounding {

  function RoundHalfAway(x: real): int {
    if x >= 0.0 then (x + 0.5).Floor else -((0.5 - x).Floor)
  }

  function Round1(v: real): real {
    RoundHalfAway(v * 10.0) as real / 10.0
  }

  function Round3(v: real): real {
    RoundHalfAway(v * 1000.0) as real / 1000.0
  }

  lemma FloorBounds(x: real)
    ensures x.Floor as real <= x < x.Floor as real + 1.0
  {
  }

  lemma FloorMonotone(x: real, y: real)
    requires x <= y
    ensures x.Floor <= y.Floor
  {
    FloorBounds(x);
    FloorBounds(y);
    assert x.Floor as real < y.Floor as real + 1.0;
  }

  lemma RoundNear(x: real)
    ensures -0.5 <= RoundHalfAway(x) as real - x <= 0.5
  {
    if x >= 0.0 { FloorBounds(x + 0.5); } else { FloorBounds(0.5 - x); }
  }

  lemma RoundMonotone(x: real, y: real)
    requires x <= y
    ensures RoundHalfAway(x) <= RoundHalfAway(y)
  {
    if x >= 0.0 {
      FloorMonotone(x + 0.5, y + 0.5);
    } else if y < 0.0 {
      FloorMonotone(0.5 - y, 0.5 - x);
    } else {
      FloorMonotone(0.5, 0.5 - x);
      FloorMonotone(0.5, y + 0.5);
    }
  }

  /** n is the whole number nearest to x; of two equally near ones the one farther from zero. */
  predicate IsNearest(x: real, n: int) {
    if x >= 0.0 then n as real - 0.5 <= x < n as real + 0.5 else n as real - 0.5 < x <= n as real + 0.5
  }

  lemma RoundsToNearest(x: real, n: int)
    ensures RoundHalfAway(x) == n <==> IsNearest(x, n)
  {
  }

  /** A figure is rounded to the nearest tenth. */
  lemma Round1Exactly(v: real, n: int)
    ensures Round1(v) == n as real / 10.0 <==> IsNearest(v * 10.0, n)
  {
    RoundsToNearest(v * 10.0, n);
  }

  /** A risk is rounded to the nearest thousandth. */
  lemma Round3Exactly(v: real, n: int)
    ensures Round3(v) == n as real / 1000.0 <==> IsNearest(v * 1000.0, n)
  {
    RoundsToNearest(v * 1000.0, n);
  }

  lemma Round1Near(v: real)
    ensures -0.05 <= Round1(v) - v <= 0.05
  {
    RoundNear(v * 10.0);
  }

  lemma Round3Near(v: real)
    ensures -0.0005 <= Round3(v) - v <= 0.0005
  {
    RoundNear(v * 1000.0);
  }

  lemma Round1Monotone(v: real, w: real)
    requires v <= w
    ensures Round1(v) <= Round1(w)
  {
    RoundMonotone(v * 10.0, w * 10.0);
  }

  lemma Round3Monotone(v: real, w: real)
    requires v <= w
    ensures Round3(v) <= Round3(w)
  {
    RoundMonotone(v * 1000.0, w * 1000.0);
  }

  lemma RoundWhole(n: int)
    ensures RoundHalfAway(n as real) == n
  {
    RoundNear(n as real);
  }

  lemma RoundUnits()
    ensures Round1(0.0) == 0.0 && Round3(0.0) == 0.0 && Round3(1.0) == 1.0
  {
    RoundWhole(0);
    RoundWhole(1000);
  }
}
