/**
  What the goal engine's formulas mean: the closed form is the month-by-month recurrence, the future
  value grows with the rate, the bisection encloses every rate that hits the target, and the suggested
  contribution and horizon do reach it.
*/
module TvmLaws {
  import opened Rounding
  import opened Tvm

  // ---- The closed form ---------------------------------------------------------------------------

  /** The savings account itself: a month's growth on the balance, then the contribution. */
  function Balance(pv: real, pmt: real, months: nat, growth: real): real {
    if months == 0 then pv else Times(Balance(pv, pmt, months - 1, growth), growth) + pmt
  }

  /** What a contribution of one each month grows to. */
  function Annuity(growth: real, months: nat): real { Balance(0.0, 1.0, months, growth) }

  lemma {:induction false} GeometricSum(growth: real, months: nat)
    ensures Annuity(growth, months) * (growth - 1.0) == Pow(growth, months) - 1.0
  {
    if months > 0 {
      GeometricSum(growth, months - 1);
      var a, p := Annuity(growth, months - 1), Pow(growth, months - 1);
      assert (a * growth + 1.0) * (growth - 1.0) == a * (growth - 1.0) * growth + growth - 1.0;
      assert (p - 1.0) * growth + growth - 1.0 == p * growth - 1.0;
    }
  }

  lemma SplitStep(pv: real, pmt: real, power: real, annuity: real, growth: real)
    ensures Times(Grown(pv, power) + Times(pmt, annuity), growth) + pmt
         == Grown(pv, power * growth) + Times(pmt, Times(annuity, growth) + 1.0)
  {
    assert (pv * power + pmt * annuity) * growth == pv * (power * growth) + pmt * (annuity * growth);
  }

  lemma {:induction false} BalanceSplits(pv: real, pmt: real, months: nat, growth: real)
    ensures Balance(pv, pmt, months, growth) == Grown(pv, Pow(growth, months)) + Times(pmt, Annuity(growth, months))
  {
    if months > 0 {
      BalanceSplits(pv, pmt, months - 1, growth);
      SplitStep(pv, pmt, Pow(growth, months - 1), Annuity(growth, months - 1), growth);
    }
  }

  lemma {:induction false} NoGrowth(pv: real, pmt: real, months: nat)
    ensures Balance(pv, pmt, months, 1.0) == pv + pmt * months as real
  {
    if months > 0 {
      NoGrowth(pv, pmt, months - 1);
      assert pmt * (months - 1) as real + pmt == pmt * months as real;
    }
  }

  lemma AccruedIsAnnuity(pmt: real, growth: real, total: real, annuity: real, r: real)
    requires r != 0.0 && growth == 1.0 + r && annuity * (growth - 1.0) == total - 1.0
    ensures Accrued(pmt, total, r) == Times(pmt, annuity)
  {
    assert annuity * r == total - 1.0;
    assert pmt * (total - 1.0) == pmt * annuity * r;
  }

  /** The formula is the recurrence, for every rate and horizon; a zero rate included. */
  lemma FutureValueIsBalance(pv: real, pmt: real, months: nat, rate: real)
    ensures FutureValue(pv, pmt, months, rate) == Balance(pv, pmt, months, 1.0 + rate / 12.0)
  {
    if months > 0 {
      if rate == 0.0 {
        NoGrowth(pv, pmt, months);
      } else {
        var r := rate / 12.0;
        var growth := 1.0 + r;
        BalanceSplits(pv, pmt, months, growth);
        GeometricSum(growth, months);
        AccruedIsAnnuity(pmt, growth, Pow(growth, months), Annuity(growth, months), r);
      }
    }
  }

  // ---- Growth with the rate and with time --------------------------------------------------------

  lemma TimesMonotone(a: real, b: real, x: real, y: real)
    requires 0.0 <= a <= b && 0.0 < x <= y
    ensures 0.0 <= Times(a, x) <= Times(b, y)
    ensures (a < b || (0.0 < b && x < y)) ==> Times(a, x) < Times(b, y)
  {
    assert a * x <= b * x <= b * y;
    assert a < b ==> a * x < b * x;
    assert 0.0 < b && x < y ==> b * x < b * y;
  }

  /** Whether the future value depends on the rate at all. */
  predicate RateMatters(pv: real, pmt: real, months: nat) {
    (months >= 1 && pv > 0.0) || (months >= 2 && pmt > 0.0)
  }

  lemma {:induction false} BalanceGrowsWithRate(pv: real, pmt: real, months: nat, x: real, y: real)
    requires pv >= 0.0 && pmt >= 0.0 && 0.0 < x < y
    ensures 0.0 <= Balance(pv, pmt, months, x) <= Balance(pv, pmt, months, y)
    ensures Balance(pv, pmt, months, x) < Balance(pv, pmt, months, y) <==> RateMatters(pv, pmt, months)
    ensures pv > 0.0 || (months >= 1 && pmt > 0.0) ==> Balance(pv, pmt, months, x) > 0.0
  {
    if months > 0 {
      BalanceGrowsWithRate(pv, pmt, months - 1, x, y);
      var a, b := Balance(pv, pmt, months - 1, x), Balance(pv, pmt, months - 1, y);
      TimesMonotone(a, b, x, y);
      if pv > 0.0 || (months >= 2 && pmt > 0.0) {
        TimesPositive(a, x);
      } else if pmt == 0.0 || months == 1 {
        NothingGrows(pmt, months - 1, x);
        NothingGrows(pmt, months - 1, y);
      }
    }
  }

  lemma TimesPositive(a: real, x: real)
    requires a > 0.0 && x > 0.0
    ensures Times(a, x) > 0.0
  {
  }

  lemma {:induction false} NothingGrows(pmt: real, months: nat, x: real)
    requires pmt == 0.0 || months == 0
    ensures Balance(0.0, pmt, months, x) == 0.0
    ensures Times(0.0, x) == 0.0
  {
    if months > 0 {
      NothingGrows(pmt, months - 1, x);
    }
  }

  /** The future value never falls as the rate rises, and rises strictly exactly when the rate matters. */
  lemma FutureValueGrowsWithRate(pv: real, pmt: real, months: nat, low: real, high: real)
    requires pv >= 0.0 && pmt >= 0.0 && -12.0 < low < high
    ensures FutureValue(pv, pmt, months, low) <= FutureValue(pv, pmt, months, high)
    ensures FutureValue(pv, pmt, months, low) < FutureValue(pv, pmt, months, high)
       <==> RateMatters(pv, pmt, months)
  {
    FutureValueIsBalance(pv, pmt, months, low);
    FutureValueIsBalance(pv, pmt, months, high);
    BalanceGrowsWithRate(pv, pmt, months, 1.0 + low / 12.0, 1.0 + high / 12.0);
  }

  /** A case where it does not matter: nothing saved and one month to go, every rate gives the contribution. */
  lemma FirstContributionIgnoresRate(rate: real)
    ensures FutureValue(0.0, 100.0, 1, rate) == 100.0
  {
    FutureValueIsBalance(0.0, 100.0, 1, rate);
    NothingGrows(100.0, 0, 1.0 + rate / 12.0);
  }

  lemma {:induction false} BalanceGrowsWithTime(pv: real, pmt: real, months: nat, later: nat, growth: real)
    requires pv >= 0.0 && pmt >= 0.0 && growth >= 1.0 && months <= later
    ensures 0.0 <= Balance(pv, pmt, months, growth) <= Balance(pv, pmt, later, growth)
    decreases later
  {
    if later > 0 {
      if later > months {
        BalanceGrowsWithTime(pv, pmt, months, later - 1, growth);
      } else {
        BalanceGrowsWithTime(pv, pmt, months - 1, later - 1, growth);
      }
      var b := Balance(pv, pmt, later - 1, growth);
      TimesMonotone(b, b, 1.0, growth);
    }
  }

  /** Once a horizon is long enough, every longer one is. */
  lemma LaterMonthsReachToo(target: real, pv: real, pmt: real, months: nat, later: nat, rate: real)
    requires pv >= 0.0 && pmt >= 0.0 && rate >= 0.0 && months <= later
    requires Reaches(target, pv, pmt, months, rate)
    ensures Reaches(target, pv, pmt, later, rate)
  {
    FutureValueIsBalance(pv, pmt, months, rate);
    FutureValueIsBalance(pv, pmt, later, rate);
    BalanceGrowsWithTime(pv, pmt, months, later, 1.0 + rate / 12.0);
  }

  lemma {:induction false} PowAgainstOne(x: real, months: nat)
    requires x > 0.0 && months > 0
    ensures x > 1.0 ==> Pow(x, months) > 1.0
    ensures x < 1.0 ==> 0.0 < Pow(x, months) < 1.0
  {
    if months == 1 {
      assert Pow(x, 1) == Pow(x, 0) * x;
    } else {
      PowAgainstOne(x, months - 1);
      var p := Pow(x, months - 1);
      if x > 1.0 {
        assert p * x > 1.0 * x;
      } else if x < 1.0 {
        assert 0.0 < p * x < 1.0 * x;
      }
    }
  }

  // ---- The bisection -----------------------------------------------------------------------------

  predicate Encloses(g: Goal, b: Bracket) {
    b.lo <= b.hi && ValueAt(g, b.lo) <= g.target <= ValueAt(g, b.hi)
  }

  /** What every step keeps: the target stays enclosed, inside the previous bracket, at half the width. */
  lemma {:induction false} NarrowEncloses(value: real -> real, target: real, b: Bracket, steps: nat)
    requires b.lo <= b.hi && value(b.lo) <= target <= value(b.hi)
    ensures var n := Narrow(value, target, b, steps);
            && b.lo <= n.lo <= n.hi <= b.hi
            && value(n.lo) <= target <= value(n.hi)
            && (n.hi - n.lo) * Pow(2.0, steps) == b.hi - b.lo
    decreases steps
  {
    if steps > 0 {
      var h := Half(value, target, b);
      assert h.hi - h.lo == (b.hi - b.lo) / 2.0;
      NarrowEncloses(value, target, h, steps - 1);
      var n := Narrow(value, target, h, steps - 1);
      assert (n.hi - n.lo) * (Pow(2.0, steps - 1) * 2.0) == (n.hi - n.lo) * Pow(2.0, steps - 1) * 2.0;
    }
  }

  lemma StartsEnclosed(g: Goal)
    requires InBracket(g)
    ensures EnclosedBy(Curve(g), g.target, Bracket(LOWEST_RATE, HIGHEST_RATE))
  {
  }

  predicate EnclosedBy(value: real -> real, target: real, b: Bracket) { value(b.lo) <= target <= value(b.hi) }

  lemma NarrowFromEnds(value: real -> real, target: real, steps: nat)
    requires EnclosedBy(value, target, Bracket(LOWEST_RATE, HIGHEST_RATE))
    ensures var b := Narrow(value, target, Bracket(LOWEST_RATE, HIGHEST_RATE), steps);
            && LOWEST_RATE <= b.lo <= b.hi <= HIGHEST_RATE
            && EnclosedBy(value, target, b)
            && (b.hi - b.lo) * Pow(2.0, steps) == 2.5
  {
    NarrowEncloses(value, target, Bracket(LOWEST_RATE, HIGHEST_RATE), steps);
  }

  /**
    The rate found is the middle of a bracket of width 2.5 / 2^steps, inside the searched one, whose ends
    still enclose the target.
  */
  lemma CagrBracket(g: Goal, steps: nat)
    requires InBracket(g)
    ensures LOWEST_RATE <= FinalBracket(g, steps).lo <= FinalBracket(g, steps).hi <= HIGHEST_RATE
    ensures (FinalBracket(g, steps).hi - FinalBracket(g, steps).lo) * Pow(2.0, steps) == 2.5
    ensures EnclosedBy(Curve(g), g.target, FinalBracket(g, steps))
  {
    StartsEnclosed(g);
    NarrowFromEnds(Curve(g), g.target, steps);
  }

  lemma InsideEnclosure(g: Goal, b: Bracket, rate: real)
    requires g.presentValue >= 0.0 && g.contribution >= 0.0
    requires RateMatters(g.presentValue, g.contribution, g.months)
    requires Encloses(g, b) && -12.0 < b.lo && -12.0 < rate && ValueAt(g, rate) == g.target
    ensures b.lo <= rate <= b.hi
  {
    if rate < b.lo {
      FutureValueGrowsWithRate(g.presentValue, g.contribution, g.months, rate, b.lo);
    } else if b.hi < rate {
      FutureValueGrowsWithRate(g.presentValue, g.contribution, g.months, b.hi, rate);
    }
  }

  predicate Hits(g: Goal, rate: real) { LOWEST_RATE <= rate <= HIGHEST_RATE && ValueAt(g, rate) == g.target }

  /** Two rates at most 2.5 / 2^(steps + 1) apart. */
  predicate WithinPrecision(a: real, b: real, steps: nat) { Abs(a - b) * Pow(2.0, steps + 1) <= 2.5 }

  lemma HitIsInBracket(g: Goal, rate: real)
    requires g.presentValue >= 0.0 && g.contribution >= 0.0 && Hits(g, rate)
    ensures InBracket(g)
  {
    if LOWEST_RATE < rate {
      FutureValueGrowsWithRate(g.presentValue, g.contribution, g.months, LOWEST_RATE, rate);
    }
    if rate < HIGHEST_RATE {
      FutureValueGrowsWithRate(g.presentValue, g.contribution, g.months, rate, HIGHEST_RATE);
    }
  }

  lemma {:induction false} TwoToThe(steps: nat)
    ensures Pow(2.0, steps) >= 1.0
  {
    if steps > 0 {
      TwoToThe(steps - 1);
    }
  }

  /** A rate of the bracket that hits the target exactly is within half the final width of the result. */
  lemma ExactRateIsFound(g: Goal, rate: real, steps: nat)
    requires g.presentValue >= 0.0 && g.contribution >= 0.0
    requires RateMatters(g.presentValue, g.contribution, g.months)
    requires Hits(g, rate)
    ensures Cagr(g, steps).Some? && WithinPrecision(rate, Cagr(g, steps).value, steps)
  {
    HitIsInBracket(g, rate);
    CagrBracket(g, steps);
    var b := FinalBracket(g, steps);
    InsideEnclosure(g, b, rate);
    MiddleIsClose(b, rate, steps);
  }

  lemma MiddleIsClose(b: Bracket, rate: real, steps: nat)
    requires b.lo <= rate <= b.hi && (b.hi - b.lo) * Pow(2.0, steps) == 2.5
    ensures WithinPrecision(rate, Middle(b), steps)
  {
    TwoToThe(steps);
    HalfOf(Abs(rate - Middle(b)), b.hi - b.lo, Pow(2.0, steps));
  }

  lemma HalfOf(distance: real, width: real, scale: real)
    requires 0.0 <= 2.0 * distance <= width && scale > 0.0 && width * scale == 2.5
    ensures distance * (scale * 2.0) <= 2.5
  {
    assert 2.0 * distance * scale <= width * scale;
  }

  /**
    The condition of `ExactRateIsFound` is exact.  With nothing saved and a single month left every rate
    gives the same future value; all of them hit the target, and the result is close to only one.
  */
  lemma PrecisionExactly(g: Goal, exact: real, steps: nat)
    requires g.presentValue >= 0.0 && g.contribution >= 0.0 && g.months > 0 && Hits(g, exact) && steps > 0
    ensures Cagr(g, steps).Some?
    ensures RateMatters(g.presentValue, g.contribution, g.months)
       <==> forall rate :: Hits(g, rate) ==> WithinPrecision(rate, Cagr(g, steps).value, steps)
  {
    var pv, pmt, n := g.presentValue, g.contribution, g.months;
    FutureValueGrowsWithRate(pv, pmt, n, LOWEST_RATE, HIGHEST_RATE);
    if RateMatters(pv, pmt, n) {
      forall rate | Hits(g, rate)
        ensures Cagr(g, steps).Some? && WithinPrecision(rate, Cagr(g, steps).value, steps)
      {
        ExactRateIsFound(g, rate, steps);
      }
      assert WithinPrecision(exact, Cagr(g, steps).value, steps);
    } else {
      SameValueEverywhere(g, exact, LOWEST_RATE);
      SameValueEverywhere(g, exact, HIGHEST_RATE);
      assert Hits(g, LOWEST_RATE) && Hits(g, HIGHEST_RATE);
      CagrBracket(g, steps);
      NotBothEnds(Cagr(g, steps).value, steps);
    }
  }

  lemma SameValueEverywhere(g: Goal, a: real, b: real)
    requires g.presentValue >= 0.0 && g.contribution >= 0.0 && -12.0 < a && -12.0 < b
    requires !RateMatters(g.presentValue, g.contribution, g.months)
    ensures ValueAt(g, a) == ValueAt(g, b)
  {
    if a < b {
      FutureValueGrowsWithRate(g.presentValue, g.contribution, g.months, a, b);
    } else if b < a {
      FutureValueGrowsWithRate(g.presentValue, g.contribution, g.months, b, a);
    }
  }

  lemma NotBothEnds(rate: real, steps: nat)
    requires steps > 0
    ensures !WithinPrecision(LOWEST_RATE, rate, steps) || !WithinPrecision(HIGHEST_RATE, rate, steps)
  {
    TwoToThe(steps - 1);
    var scale := Pow(2.0, steps + 1);
    var far := Max(Abs(LOWEST_RATE - rate), Abs(HIGHEST_RATE - rate));
    assert Pow(2.0, steps) >= 2.0;
    assert far >= 1.25 && scale >= 4.0;
    assert far * scale >= 1.25 * scale;
  }

  // ---- The required contribution -----------------------------------------------------------------

  lemma FillingFills(deficit: real, growth: real, r: real)
    requires r != 0.0 && growth != 1.0
    ensures Accrued(Filling(deficit, growth, r), growth, r) == deficit
  {
    var gain := growth - 1.0;
    var q := deficit * r / gain;
    assert q * gain == deficit * r;
    assert deficit * r / r == deficit;
  }

  lemma QuotientSign(a: real, b: real)
    requires b != 0.0
    ensures (a > 0.0 && b > 0.0) || (a < 0.0 && b < 0.0) ==> a / b > 0.0
  {
  }

  lemma FillingIsPositive(deficit: real, growth: real, r: real)
    requires deficit > 0.0 && ((r > 0.0 && growth > 1.0) || (r < 0.0 && growth < 1.0))
    ensures Filling(deficit, growth, r) > 0.0
  {
    assert r > 0.0 ==> deficit * r > 0.0;
    assert r < 0.0 ==> deficit * r < 0.0;
    QuotientSign(deficit * r, growth - 1.0);
  }

  lemma NothingAccrues(growth: real, r: real)
    requires r != 0.0
    ensures Accrued(0.0, growth, r) == 0.0
  {
    assert 0.0 * (growth - 1.0) == 0.0;
  }

  /** The contribution asked for makes the future value exactly the target, or is zero when none is needed. */
  lemma RequiredPmtLandsOnTarget(target: real, pv: real, months: nat, rate: real)
    requires months > 0 && rate > -12.0
    ensures RequiredPmt(target, pv, months, rate).Success?
    ensures var pmt := RequiredPmt(target, pv, months, rate).value;
            && (if FutureValue(pv, 0.0, months, rate) >= target then pmt == 0.0
                else pmt > 0.0 && FutureValue(pv, pmt, months, rate) == target)
  {
    if rate != 0.0 {
      var r := rate / 12.0;
      var growth := Pow(1.0 + r, months);
      var deficit := target - Grown(pv, growth);
      PowAgainstOne(1.0 + r, months);
      NothingAccrues(growth, r);
      if deficit > 0.0 {
        FillingIsPositive(deficit, growth, r);
        FillingFills(deficit, growth, r);
      }
    } else {
      ZeroRateDeficit(target, pv, months);
    }
  }

  lemma ZeroRateDeficit(target: real, pv: real, months: nat)
    requires months > 0
    ensures (target - pv) / months as real * months as real == target - pv
    ensures (target - pv) / months as real > 0.0 <==> target > pv
  {
    var q, n := (target - pv) / months as real, months as real;
    assert q * n == target - pv;
    assert q > 0.0 ==> q * n > 0.0;
    assert q <= 0.0 ==> q * n <= 0.0;
  }

  /** Rounding a contribution to the paisa moves the outcome by at most half a paisa a month, grown. */
  lemma RoundedContributionIsClose(target: real, pv: real, months: nat, rate: real)
    requires months > 0 && rate > -12.0 && FutureValue(pv, 0.0, months, rate) < target
    ensures RequiredPmt(target, pv, months, rate).Success?
    ensures var pmt := HalfEven2(RequiredPmt(target, pv, months, rate).value);
            var reach := 0.005 * Annuity(1.0 + rate / 12.0, months);
            target - reach <= FutureValue(pv, pmt, months, rate) <= target + reach
  {
    RequiredPmtLandsOnTarget(target, pv, months, rate);
    var exact := RequiredPmt(target, pv, months, rate).value;
    var pmt := HalfEven2(exact);
    var growth := 1.0 + rate / 12.0;
    var a := Annuity(growth, months);
    ContributionChange(pv, exact, pmt, months, rate);
    BalanceGrowsWithRate(0.0, 1.0, months, growth, growth + 1.0);
    HalfEven2Close(exact);
    ScaledError(pmt - exact, a);
  }

  /** With no month left there is nothing to contribute, and no horizon reaches more than is saved already. */
  lemma NoMonthLeft(target: real, pv: real, pmt: real, rate: real)
    ensures RequiredPmt(target, pv, 0, rate).Success? && RequiredPmt(target, pv, 0, rate).value == 0.0
    ensures Reaches(target, pv, pmt, 0, rate) <==> pv >= target
  {
  }

  lemma ContributionChange(pv: real, before: real, after: real, months: nat, rate: real)
    ensures var a := Annuity(1.0 + rate / 12.0, months);
            FutureValue(pv, after, months, rate) - FutureValue(pv, before, months, rate) == Times(after - before, a)
  {
    var growth := 1.0 + rate / 12.0;
    FutureValueIsBalance(pv, before, months, rate);
    FutureValueIsBalance(pv, after, months, rate);
    BalanceSplits(pv, before, months, growth);
    BalanceSplits(pv, after, months, growth);
    var a := Annuity(growth, months);
    TimesDistributes(after, before, a);
  }

  lemma TimesDistributes(x: real, y: real, a: real)
    ensures Times(x - y, a) == Times(x, a) - Times(y, a)
  {
    assert (x - y) * a == x * a - y * a;
  }

  lemma ScaledError(error: real, a: real)
    requires -0.005 <= error <= 0.005 && a >= 0.0
    ensures -(0.005 * a) <= Times(error, a) <= 0.005 * a
  {
    assert error * a <= 0.005 * a;
    assert (-error) * a <= 0.005 * a;
    assert (-error) * a == -(error * a);
  }

  lemma HalfEven2Close(x: real)
    ensures -0.005 <= HalfEven2(x) - x <= 0.005
  {
  }
}
