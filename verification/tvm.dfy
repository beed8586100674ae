/**
  Time value of money for the goal engine, psx_api/goals/tvm.py: the closed-form future value, the
  bisection for the required annual rate, the required contribution, and the feasible horizon.
*/
module Tvm {
  import opened Wrappers
  import opened Rounding

  /** What a saver has, adds each month and wants; `months` is the whole-month horizon. */
  datatype Goal = Goal(target: real, presentValue: real, contribution: real, months: nat)

  datatype TvmError = DivisionByZero

  const LOWEST_RATE := -0.5
  const HIGHEST_RATE := 2.0
  const BISECTION_STEPS: nat := 80
  const HORIZON_CAP: nat := 720

  function Pow(x: real, n: nat): real { if n == 0 then 1.0 else Pow(x, n - 1) * x }

  /** A present value after the whole growth. */
  function Grown(pv: real, growth: real): real { pv * growth }

  /** Contributions after the whole growth, each growing from the month it is paid: a geometric sum. */
  function Accrued(pmt: real, growth: real, r: real): real
    requires r != 0.0
  {
    pmt * (growth - 1.0) / r
  }

  function FutureValue(pv: real, pmt: real, months: nat, rate: real): real {
    if months == 0 then pv
    else if rate == 0.0 then pv + pmt * months as real
    else
      var r := rate / 12.0;
      var growth := Pow(1.0 + r, months);
      Grown(pv, growth) + Accrued(pmt, growth, r)
  }

  function ValueAt(g: Goal, rate: real): real { FutureValue(g.presentValue, g.contribution, g.months, rate) }

  // ---- The required annual rate ------------------------------------------------------------------

  predicate InBracket(g: Goal) { ValueAt(g, LOWEST_RATE) <= g.target <= ValueAt(g, HIGHEST_RATE) }

  datatype Bracket = Bracket(lo: real, hi: real)

  function Middle(b: Bracket): real { (b.lo + b.hi) / 2.0 }

  /** The half of the bracket that a bisection step keeps. */
  function Half(value: real -> real, target: real, b: Bracket): Bracket {
    if value(Middle(b)) < target then Bracket(Middle(b), b.hi) else Bracket(b.lo, Middle(b))
  }

  function Narrow(value: real -> real, target: real, b: Bracket, steps: nat): Bracket
    decreases steps
  {
    if steps == 0 then b else Narrow(value, target, Half(value, target, b), steps - 1)
  }

  /** The future value as a function of the annual rate. */
  function Curve(g: Goal): real -> real { rate => ValueAt(g, rate) }

  function FinalBracket(g: Goal, steps: nat): Bracket {
    Narrow(Curve(g), g.target, Bracket(LOWEST_RATE, HIGHEST_RATE), steps)
  }

  function Cagr(g: Goal, steps: nat): Option<real> {
    if g.months == 0 || !InBracket(g) then None
    else Some(Middle(FinalBracket(g, steps)))
  }

  method BisectCagr(g: Goal, steps: nat := BISECTION_STEPS) returns (r: Option<real>)
    ensures r == Cagr(g, steps)
  {
    if g.months == 0 {
      return None;
    }
    var lo, hi := LOWEST_RATE, HIGHEST_RATE;
    var fvLo := ValueAt(g, lo);
    var fvHi := ValueAt(g, hi);
    if g.target < fvLo || g.target > fvHi {
      return None;
    }
    for i := 0 to steps
      invariant Narrow(Curve(g), g.target, Bracket(lo, hi), steps - i) == FinalBracket(g, steps)
    {
      var mid := (lo + hi) / 2.0;
      assert Middle(Bracket(lo, hi)) == mid;
      var fvMid := ValueAt(g, mid);
      if fvMid < g.target {
        lo := mid;
      } else {
        hi := mid;
      }
    }
    r := Some((lo + hi) / 2.0);
  }

  // ---- The required contribution and the feasible horizon ----------------------------------------

  /** The contribution that makes up a deficit. */
  function Filling(deficit: real, growth: real, r: real): real
    requires growth != 1.0
  {
    deficit * r / (growth - 1.0)
  }

  function RequiredPmt(target: real, pv: real, months: nat, rate: real): Result<real, TvmError> {
    if months == 0 then Success(0.0)
    else if rate == 0.0 then Success(Max(0.0, (target - pv) / months as real))
    else
      var r := rate / 12.0;
      var growth := Pow(1.0 + r, months);
      var deficit := target - Grown(pv, growth);
      if deficit <= 0.0 then Success(0.0)
      else if growth == 1.0 then Failure(DivisionByZero)
      else Success(Filling(deficit, growth, r))
  }

  predicate Reaches(target: real, pv: real, pmt: real, months: nat, rate: real) {
    FutureValue(pv, pmt, months, rate) >= target
  }

  /** The first month from 1 on, below the cap, whose future value reaches the target. */
  method MonthsToDropToFeasible(target: real, pv: real, pmt: real, rate: real) returns (r: Option<nat>)
    ensures match r
            case Some(m) => && 1 <= m < HORIZON_CAP && Reaches(target, pv, pmt, m, rate)
                            && forall k :: 1 <= k < m ==> !Reaches(target, pv, pmt, k, rate)
            case None => forall k :: 1 <= k < HORIZON_CAP ==> !Reaches(target, pv, pmt, k, rate)
  {
    for months := 1 to HORIZON_CAP
      invariant forall k :: 1 <= k < months ==> !Reaches(target, pv, pmt, k, rate)
    {
      var fv := FutureValue(pv, pmt, months, rate);
      if fv >= target {
        return Some(months);
      }
    }
    r := None;
  }
}
