/**
  Decimal `quantize` on exact reals.  `ROUND_HALF_UP` (the tax engine and the price adjustment) sends a
  tie away from zero; `ROUND_HALF_EVEN` (Python's default, used by the snapshot and the summaries)
  sends it to the even neighbour.
*/
module Rounding {

  function Abs(x: real): real { if x < 0.0 then -x else x }
  function Min(a: real, b: real): real { if b < a then b else a }
  function Max(a: real, b: real): real { if b > a then b else a }
  function Times(a: real, b: real): real { a * b }

  /** The nearest integer; on a tie the neighbour farther from zero. */
  function NearestHalfUp(x: real): (n: int)
    ensures Abs(x - n as real) <= 0.5
    ensures Abs(x - n as real) == 0.5 ==> Abs(n as real) >= Abs(x)
  {
    if x >= 0.0 then (x + 0.5).Floor else -((0.5 - x).Floor)
  }

  /** The nearest integer; on a tie the even neighbour. */
  function NearestHalfEven(x: real): (n: int)
    ensures Abs(x - n as real) <= 0.5
    ensures Abs(x - n as real) == 0.5 ==> n % 2 == 0
  {
    var f := x.Floor;
    var d := x - f as real;
    if d < 0.5 then f
    else if d > 0.5 then f + 1
    else if f % 2 == 0 then f
    else f + 1
  }

  /** Whole paisa nearest to an amount in rupees. */
  function Paisa(x: real): int { NearestHalfUp(100.0 * x) }

  function HalfUp2(x: real): real { Paisa(x) as real / 100.0 }

  function HalfUp4(x: real): real { NearestHalfUp(10000.0 * x) as real / 10000.0 }

  function HalfEven2(x: real): real { NearestHalfEven(100.0 * x) as real / 100.0 }

  function HalfEven4(x: real): real { NearestHalfEven(10000.0 * x) as real / 10000.0 }

  predicate IsNearestUnit(units: real, wanted: real) {
    && units == units.Floor as real
    && -0.5 <= units - wanted <= 0.5
    && (units - wanted == 0.5 ==> wanted > 0.0)
    && (units - wanted == -0.5 ==> wanted < 0.0)
  }

  predicate IsNearestEvenUnit(units: real, wanted: real) {
    && units == units.Floor as real
    && -0.5 <= units - wanted <= 0.5
    && (units - wanted == 0.5 || units - wanted == -0.5 ==> units.Floor % 2 == 0)
  }

  /** `amount` is the multiple of 1 / scale nearest to `exact`; on a tie the one farther from zero. */
  predicate IsNearest(scale: real, amount: real, exact: real) { IsNearestUnit(scale * amount, scale * exact) }

  /** The same with a tie going to the even multiple. */
  predicate IsNearestEven(scale: real, amount: real, exact: real) { IsNearestEvenUnit(scale * amount, scale * exact) }

  lemma HalfUpUnits(y: real)
    ensures IsNearestUnit(NearestHalfUp(y) as real, y)
  {
  }

  lemma HalfEvenUnits(y: real)
    ensures IsNearestEvenUnit(NearestHalfEven(y) as real, y)
  {
  }

  lemma HalfUpIsNearest(x: real)
    ensures IsNearest(100.0, HalfUp2(x), x)
    ensures IsNearest(10000.0, HalfUp4(x), x)
  {
    HalfUpUnits(100.0 * x);
    HalfUpUnits(10000.0 * x);
    assert 100.0 * HalfUp2(x) == Paisa(x) as real;
    assert 10000.0 * HalfUp4(x) == NearestHalfUp(10000.0 * x) as real;
  }

  lemma HalfEvenIsNearest(x: real)
    ensures IsNearestEven(100.0, HalfEven2(x), x)
    ensures IsNearestEven(10000.0, HalfEven4(x), x)
  {
    HalfEvenUnits(100.0 * x);
    HalfEvenUnits(10000.0 * x);
    assert 100.0 * HalfEven2(x) == NearestHalfEven(100.0 * x) as real;
    assert 10000.0 * HalfEven4(x) == NearestHalfEven(10000.0 * x) as real;
  }

  /** The contract of `NearestHalfUp` determines it: there is only one such integer. */
  lemma NearestHalfUpIsUnique(x: real, n: int)
    requires Abs(x - n as real) <= 0.5
    requires Abs(x - n as real) == 0.5 ==> Abs(n as real) >= Abs(x)
    ensures n == NearestHalfUp(x)
  {
    var m := NearestHalfUp(x);
    assert Abs(m as real - n as real) <= 1.0;
    assert -1 <= m - n <= 1;
  }

  lemma NearestHalfUpMonotone(x: real, y: real)
    requires x <= y
    ensures NearestHalfUp(x) <= NearestHalfUp(y)
  {
  }

  lemma NearestHalfEvenMonotone(x: real, y: real)
    requires x <= y
    ensures NearestHalfEven(x) <= NearestHalfEven(y)
  {
  }

  lemma HalfUp2Monotone(x: real, y: real)
    requires x <= y
    ensures Paisa(x) <= Paisa(y)
    ensures HalfUp2(x) <= HalfUp2(y)
  {
    NearestHalfUpMonotone(100.0 * x, 100.0 * y);
  }

  lemma HalfUp2Close(x: real)
    ensures Abs(HalfUp2(x) - x) <= 0.005
  {
  }

  lemma PaisaOfCents(n: int)
    ensures Paisa(n as real / 100.0) == n
    ensures HalfUp2(n as real / 100.0) == n as real / 100.0
    ensures HalfEven2(n as real / 100.0) == n as real / 100.0
  {
    var x := 100.0 * (n as real / 100.0);
    assert x == n as real;
    NearestHalfUpIsUnique(x, n);
  }

  /** Rounding two parts separately is within one paisa of rounding their sum. */
  lemma SplitRounding(x: real, y: real)
    ensures -1 <= Paisa(x) + Paisa(y) - Paisa(x + y) <= 1
  {
    var a, b, c := Paisa(x), Paisa(y), Paisa(x + y);
    assert Abs((a + b - c) as real) <= 1.5;
  }
}
