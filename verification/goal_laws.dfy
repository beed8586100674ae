/**
  What the goal analysis of psx_api/goals/tvm.py promises, and exactly when: a bad rating does not always
  mean that the goal is missed at 10%, nor is the advice always more, nor always enough.
*/
module GoalLaws {
  import opened Wrappers
  import opened Rounding
  import opened Tvm
  import opened TvmLaws
  import opened Goals

  // ---- A rate that was found ---------------------------------------------------------------------

  lemma {:induction false} AThousandfold(steps: nat)
    requires steps >= 10
    ensures Pow(2.0, steps) >= 1024.0
  {
    if steps == 10 {
      assert Pow(2.0, 5) == 32.0;
    } else {
      AThousandfold(steps - 1);
    }
  }

  /** When every rate reaches the target the bisection runs down to the lowest one. */
  lemma {:induction false} StaysLow(value: real -> real, target: real, b: Bracket, steps: nat)
    requires LOWEST_RATE <= b.lo <= b.hi
    requires forall x :: LOWEST_RATE <= x ==> value(x) >= target
    ensures Narrow(value, target, b, steps).lo == b.lo
    decreases steps
  {
    if steps > 0 {
      StaysLow(value, target, Half(value, target, b), steps - 1);
    }
  }

  lemma FarApart(width: real, scale: real)
    requires scale >= 1024.0 && width >= 0.0 && width * scale == 2.5
    ensures width <= 0.0025
  {
    assert width * scale >= width * 1024.0;
  }

  /** A required rate rated worse than 14% exceeds, by more than the bisection's error, every lower rate. */
  lemma BadRatingNeedsMore(g: Goal, steps: nat, rate: real)
    requires g.presentValue >= 0.0 && g.contribution >= 0.0 && steps >= 10 && -12.0 < rate <= STRETCH_RATE
    requires Cagr(g, steps).Some? && NeedsAdvice(RatingForCagr(Percent(Cagr(g, steps).value)))
    ensures ValueAt(g, rate) < g.target
  {
    CagrBracket(g, steps);
    AThousandfold(steps);
    var b := FinalBracket(g, steps);
    FarApart(b.hi - b.lo, Pow(2.0, steps));
    HalfEven2Close(Cagr(g, steps).value * 100.0);
    assert b.lo > STRETCH_RATE;
    RatingMeansRateMatters(g, steps);
    FutureValueGrowsWithRate(g.presentValue, g.contribution, g.months, rate, b.lo);
  }

  lemma RatingMeansRateMatters(g: Goal, steps: nat)
    requires g.presentValue >= 0.0 && g.contribution >= 0.0
    requires Cagr(g, steps).Some? && FinalBracket(g, steps).lo > STRETCH_RATE
    ensures RateMatters(g.presentValue, g.contribution, g.months)
  {
    if !RateMatters(g.presentValue, g.contribution, g.months) {
      BisectionIgnoresRate(g, steps);
    }
  }

  lemma BisectionIgnoresRate(g: Goal, steps: nat)
    requires g.presentValue >= 0.0 && g.contribution >= 0.0 && InBracket(g)
    requires !RateMatters(g.presentValue, g.contribution, g.months)
    ensures FinalBracket(g, steps).lo == LOWEST_RATE
  {
    forall rate | LOWEST_RATE <= rate
      ensures Curve(g)(rate) >= g.target
    {
      SameValueEverywhere(g, rate, HIGHEST_RATE);
    }
    StaysLow(Curve(g), g.target, Bracket(LOWEST_RATE, HIGHEST_RATE), steps);
  }

  lemma MoreReachesTarget(g: Goal, rate: real)
    requires g.presentValue >= 0.0 && g.contribution >= 0.0 && g.months > 0 && rate > -12.0
    requires ValueAt(g, rate) < g.target
    ensures Contribution(g, rate) > g.contribution
    ensures FutureValue(g.presentValue, Contribution(g, rate), g.months, rate) == g.target
  {
    var pv, n := g.presentValue, g.months;
    RequiredPmtLandsOnTarget(g.target, pv, n, rate);
    ContributionOrder(pv, 0.0, g.contribution, n, rate);
    ContributionOrder(pv, g.contribution, Contribution(g, rate), n, rate);
  }

  /** The future value orders contributions as they are ordered. */
  lemma ContributionOrder(pv: real, before: real, after: real, months: nat, rate: real)
    requires months > 0 && rate > -12.0
    ensures FutureValue(pv, before, months, rate) < FutureValue(pv, after, months, rate) <==> before < after
    ensures FutureValue(pv, before, months, rate) == FutureValue(pv, after, months, rate) <==> before == after
  {
    var a := Annuity(1.0 + rate / 12.0, months);
    BalanceGrowsWithRate(0.0, 1.0, months, 1.0 + rate / 12.0, 2.0 + rate / 12.0);
    ContributionChange(pv, before, after, months, rate);
    SignOfProduct(after - before, a);
  }

  lemma SignOfProduct(x: real, a: real)
    requires a > 0.0
    ensures Times(x, a) > 0.0 <==> x > 0.0
    ensures Times(x, a) == 0.0 <==> x == 0.0
  {
    if x > 0.0 {
      TimesPositive(x, a);
    } else if x < 0.0 {
      TimesPositive(-x, a);
      assert (-x) * a == -(x * a);
    }
  }

  /** Where half-even rounding takes a number above a whole one. */
  lemma HalfEvenAbove(y: real, n: int)
    requires y > n as real
    ensures NearestHalfEven(y) >= n
    ensures NearestHalfEven(y) > n <==> y > n as real + 0.5 || (y == n as real + 0.5 && n % 2 == 1)
  {
  }

  /** The future value with half a paisa more a month. */
  function HalfPaisaMore(g: Goal, rate: real): real {
    FutureValue(g.presentValue, g.contribution + 0.005, g.months, rate)
  }

  /**
    The rounded contribution against the present one, of n paisa, when the latter misses the target: never
    less, and more if and only if half a paisa more a month would still miss, or would just hit with n odd.
  */
  lemma SuggestionExceedsExactly(g: Goal, rate: real, n: int)
    requires g.presentValue >= 0.0 && g.contribution == n as real / 100.0 >= 0.0
    requires g.months > 0 && rate > -12.0 && ValueAt(g, rate) < g.target
    ensures Suggestion(g, rate) >= g.contribution
    ensures Suggestion(g, rate) > g.contribution
       <==> HalfPaisaMore(g, rate) < g.target || (HalfPaisaMore(g, rate) == g.target && n % 2 == 1)
  {
    var x := Contribution(g, rate);
    MoreReachesTarget(g, rate);
    ContributionOrder(g.presentValue, g.contribution + 0.005, x, g.months, rate);
    assert 100.0 * g.contribution == n as real;
    HalfEvenAbove(100.0 * x, n);
  }

  /** With at least the rate at which the present contribution reaches the target, no more is asked for. */
  lemma LessReachesTarget(g: Goal, rate: real)
    requires g.presentValue >= 0.0 && g.contribution >= 0.0 && g.months > 0 && rate > -12.0
    requires ValueAt(g, rate) >= g.target
    ensures Contribution(g, rate) <= g.contribution
  {
    var pv, n := g.presentValue, g.months;
    RequiredPmtLandsOnTarget(g.target, pv, n, rate);
    ContributionOrder(pv, g.contribution, Contribution(g, rate), n, rate);
  }

  /** Saving the rounded contribution reaches the target exactly when it was not rounded down. */
  lemma SuggestionReachesExactly(g: Goal, rate: real)
    requires g.months > 0 && rate > -12.0
    ensures FutureValue(g.presentValue, Suggestion(g, rate), g.months, rate) >= g.target
       <==> Suggestion(g, rate) >= Contribution(g, rate)
  {
    var pv, n := g.presentValue, g.months;
    RequiredPmtLandsOnTarget(g.target, pv, n, rate);
    var exact := Contribution(g, rate);
    if exact == 0.0 {
      assert NearestHalfEven(100.0 * 0.0) == 0;
    }
    ContributionOrder(pv, Suggestion(g, rate), exact, n, rate);
  }

  // ---- The ratings -------------------------------------------------------------------------------

  /** Each rating is an interval of the percentage reported, which is the required rate to two places. */
  lemma RatingIsInterval(g: Goal, steps: nat, first: Option<nat>)
    requires g.presentValue < g.target && g.months > 0 && Cagr(g, steps).Some?
    ensures var a := AnalysisOf(g, steps, first);
      && a.requiredCagrPct.Some?
      && var pct := a.requiredCagrPct.value;
         && IsNearestEven(100.0, pct, 100.0 * Cagr(g, steps).value)
         && (a.rating == Feasible <==> pct <= 8.0)
         && (a.rating == Stretch <==> 8.0 < pct <= 14.0)
         && (a.rating == Aggressive <==> 14.0 < pct <= 20.0)
         && (a.rating == Unrealistic <==> 20.0 < pct)
         && (a.suggestedContribution.Some? <==> 14.0 < pct)
  {
    HalfEvenIsNearest(Cagr(g, steps).value * 100.0);
    assert Cagr(g, steps).value * 100.0 == 100.0 * Cagr(g, steps).value;
  }

  /** The other ratings: funded already, or out of time, or without a rate between -50% and 200% a year. */
  lemma OtherRatings(g: Goal, steps: nat, first: Option<nat>)
    ensures AnalysisOf(g, steps, first).rating == AlreadyFunded <==> g.presentValue >= g.target
    ensures g.presentValue < g.target && (g.months == 0 || Cagr(g, steps).None?) ==>
              AnalysisOf(g, steps, first).rating == Unrealistic
  {
  }

  // ---- Which goals are rated badly ---------------------------------------------------------------

  predicate NonNegative(g: Goal) { g.presentValue >= 0.0 && g.contribution >= 0.0 }

  /** A goal not yet funded, with time left, that the analysis rates aggressive or unrealistic. */
  predicate BadlyRated(g: Goal, steps: nat) {
    g.presentValue < g.target && g.months > 0 && NeedsAdvice(AnalysisOf(g, steps, None).rating)
  }

  ghost predicate EveryRateOvershoots(g: Goal) {
    forall rate :: LOWEST_RATE <= rate <= HIGHEST_RATE ==> ValueAt(g, rate) > g.target
  }

  ghost predicate EveryRateFallsShort(g: Goal) {
    forall rate :: LOWEST_RATE <= rate <= HIGHEST_RATE ==> ValueAt(g, rate) < g.target
  }

  lemma RateOrder(g: Goal, low: real, high: real)
    requires NonNegative(g) && -12.0 < low <= high
    ensures ValueAt(g, low) <= ValueAt(g, high)
  {
    if low < high {
      FutureValueGrowsWithRate(g.presentValue, g.contribution, g.months, low, high);
    }
  }

  /** No rate is found, with time left, exactly when all rates searched overshoot or all fall short. */
  lemma NoRateExactly(g: Goal, steps: nat)
    requires NonNegative(g) && g.months > 0
    ensures Cagr(g, steps).None? <==> EveryRateOvershoots(g) || EveryRateFallsShort(g)
    ensures EveryRateOvershoots(g) <==> g.target < ValueAt(g, LOWEST_RATE)
    ensures EveryRateFallsShort(g) <==> g.target > ValueAt(g, HIGHEST_RATE)
  {
    forall rate | LOWEST_RATE <= rate <= HIGHEST_RATE
      ensures ValueAt(g, LOWEST_RATE) <= ValueAt(g, rate) <= ValueAt(g, HIGHEST_RATE)
    {
      RateOrder(g, LOWEST_RATE, rate);
      RateOrder(g, rate, HIGHEST_RATE);
    }
  }

  /** What a goal without a rate makes of any rate searched. */
  lemma NoRateMissesExactly(g: Goal, steps: nat, rate: real)
    requires NonNegative(g) && g.months > 0 && Cagr(g, steps).None? && LOWEST_RATE <= rate <= HIGHEST_RATE
    ensures ValueAt(g, rate) < g.target <==> g.target >= ValueAt(g, LOWEST_RATE)
    ensures ValueAt(g, rate) != g.target
  {
    RateOrder(g, LOWEST_RATE, rate);
    RateOrder(g, rate, HIGHEST_RATE);
  }

  /**
    When a badly rated goal is in fact missed at 10%, or at any lower rate searched: exactly when even the
    lowest rate does not overshoot the target.
  */
  lemma BadRatingMissesExactly(g: Goal, steps: nat, rate: real)
    requires NonNegative(g) && steps >= 10 && BadlyRated(g, steps) && LOWEST_RATE <= rate <= STRETCH_RATE
    ensures ValueAt(g, rate) < g.target <==> g.target >= ValueAt(g, LOWEST_RATE)
  {
    if Cagr(g, steps).None? {
      NoRateMissesExactly(g, steps, rate);
    } else {
      BadRatingNeedsMore(g, steps, rate);
    }
  }

  // ---- The advice on the contribution ------------------------------------------------------------

  /** The rate at which the advised contribution is worked out. */
  function AdviceRate(g: Goal, steps: nat): real {
    if Cagr(g, steps).None? then FALLBACK_RATE else STRETCH_RATE
  }

  lemma AdviceRateMissesExactly(g: Goal, steps: nat)
    requires NonNegative(g) && steps >= 10 && BadlyRated(g, steps)
    ensures ValueAt(g, AdviceRate(g, steps)) < g.target <==> g.target >= ValueAt(g, LOWEST_RATE)
  {
    if Cagr(g, steps).None? {
      NoRateMissesExactly(g, steps, FALLBACK_RATE);
    } else {
      BadRatingMissesExactly(g, steps, STRETCH_RATE);
    }
  }

  lemma LessRoundsToLess(x: real, n: int)
    requires 100.0 * x <= n as real
    ensures HalfEven2(x) <= n as real / 100.0
  {
    NearestHalfEvenMonotone(100.0 * x, n as real);
    assert NearestHalfEven(n as real) == n;
  }

  lemma MoreThanEnough(g: Goal, rate: real)
    requires g.months > 0 && rate > -12.0 && ValueAt(g, rate) >= g.target
    ensures HalfPaisaMore(g, rate) > g.target
  {
    ContributionOrder(g.presentValue, g.contribution, g.contribution + 0.005, g.months, rate);
  }

  /**
    The contribution advised for a badly rated goal, against the present one of n paisa.  It is more exactly
    when half a paisa more a month would still miss, or would just hit with n odd; before rounding, exactly
    when the lowest rate does not overshoot; and when that does, it is never more.
  */
  lemma AdviceAsksForMoreExactly(g: Goal, steps: nat, first: Option<nat>, n: int)
    requires NonNegative(g) && g.contribution == n as real / 100.0 && steps >= 10 && BadlyRated(g, steps)
    ensures AnalysisOf(g, steps, first).suggestedContribution.Some?
    ensures var advised, rate := AnalysisOf(g, steps, first).suggestedContribution.value, AdviceRate(g, steps);
            && (advised > g.contribution
                <==> HalfPaisaMore(g, rate) < g.target || (HalfPaisaMore(g, rate) == g.target && n % 2 == 1))
            && (Contribution(g, rate) > g.contribution <==> g.target >= ValueAt(g, LOWEST_RATE))
            && (if g.target >= ValueAt(g, LOWEST_RATE) then advised >= g.contribution else advised <= g.contribution)
  {
    var rate := AdviceRate(g, steps);
    AdviceRateMissesExactly(g, steps);
    assert AnalysisOf(g, steps, first).suggestedContribution == Some(Suggestion(g, rate));
    if g.target >= ValueAt(g, LOWEST_RATE) {
      MoreReachesTarget(g, rate);
      SuggestionExceedsExactly(g, rate, n);
    } else {
      LessReachesTarget(g, rate);
      LessRoundsToLess(Contribution(g, rate), n);
      MoreThanEnough(g, rate);
    }
  }

  /** A target of 1.01 in two months from 0.50 a month: 24% is needed, and 0.50 is advised. */
  const SMALL_GOAL := Goal(1.01, 0.0, 0.5, 2)

  lemma SmallGoalRate(steps: nat)
    requires steps >= 10
    ensures Cagr(SMALL_GOAL, steps).Some? && Cagr(SMALL_GOAL, steps).value >= 0.2375
  {
    FutureValueIsBalance(0.0, 0.5, 2, 0.24);
    assert Balance(0.0, 0.5, 1, 1.02) == Times(0.0, 1.02) + 0.5;
    assert Balance(0.0, 0.5, 2, 1.02) == Times(0.5, 1.02) + 0.5 == 1.01;
    assert Hits(SMALL_GOAL, 0.24);
    ExactRateIsFound(SMALL_GOAL, 0.24, steps);
    AThousandfold(steps);
    var off := Abs(0.24 - Cagr(SMALL_GOAL, steps).value);
    assert Pow(2.0, steps + 1) == Pow(2.0, steps) * 2.0;
    ScaledUp(off, Pow(2.0, steps + 1));
  }

  lemma ScaledUp(off: real, scale: real)
    requires off >= 0.0 && scale >= 2048.0 && off * scale <= 2.5
    ensures off <= 0.0025
  {
    assert off * 2048.0 <= off * scale;
  }

  /** The rounding can swallow the whole difference: an unrealistic goal is advised what is paid already. */
  lemma SuggestionCanBeThePresentOne(steps: nat)
    requires steps >= 10
    ensures Cagr(SMALL_GOAL, steps).Some?
    ensures RatingForCagr(Percent(Cagr(SMALL_GOAL, steps).value)) == Unrealistic
    ensures Suggestion(SMALL_GOAL, STRETCH_RATE) == SMALL_GOAL.contribution
  {
    SmallGoalRate(steps);
    HalfEven2Close(Cagr(SMALL_GOAL, steps).value * 100.0);
    FutureValueIsBalance(0.0, 0.5, 2, STRETCH_RATE);
    FutureValueIsBalance(0.0, 0.505, 2, STRETCH_RATE);
    var growth := 1.0 + STRETCH_RATE / 12.0;
    assert Balance(0.0, 0.5, 1, growth) == Times(0.0, growth) + 0.5;
    assert Balance(0.0, 0.505, 1, growth) == Times(0.0, growth) + 0.505;
    assert Balance(0.0, 0.5, 2, growth) == Times(0.5, growth) + 0.5 < 1.01;
    assert Balance(0.0, 0.505, 2, growth) == Times(0.505, growth) + 0.505 > 1.01;
    SuggestionExceedsExactly(SMALL_GOAL, STRETCH_RATE, 50);
  }

  /**
    A target of 100 in two months from 100 a month: every rate from -50% up overshoots, so no rate is found,
    the goal is rated unrealistic, and half of what is paid already is advised, for twelve months more.
  */
  const EASY_GOAL := Goal(100.0, 0.0, 100.0, 2)

  lemma EasyGoalIsRatedUnrealistic(steps: nat, first: Option<nat>)
    ensures var a := AnalysisOf(EASY_GOAL, steps, first);
            && a.rating == Unrealistic && a.requiredCagrPct == None && a.suggestedExtension == Some(12)
            && a.suggestedContribution.Some? && a.suggestedContribution.value < EASY_GOAL.contribution
    ensures EveryRateOvershoots(EASY_GOAL) && FeasibleAfter(EASY_GOAL, EASY_GOAL.months)
  {
    var lowest := 1.0 + LOWEST_RATE / 12.0;
    FutureValueIsBalance(0.0, 100.0, 2, LOWEST_RATE);
    assert Balance(0.0, 100.0, 1, lowest) == Times(0.0, lowest) + 100.0;
    assert Balance(0.0, 100.0, 2, lowest) == Times(100.0, lowest) + 100.0 > 100.0;
    NoRateExactly(EASY_GOAL, steps);
    assert ValueAt(EASY_GOAL, FEASIBLE_RATE) > 100.0;
    var growth := 1.0 + FALLBACK_RATE / 12.0;
    FutureValueIsBalance(0.0, 99.0, 2, FALLBACK_RATE);
    assert Balance(0.0, 99.0, 1, growth) == Times(0.0, growth) + 99.0;
    assert Balance(0.0, 99.0, 2, growth) == Times(99.0, growth) + 99.0 > 100.0;
    LessReachesTarget(EASY_GOAL.(contribution := 99.0), FALLBACK_RATE);
    LessRoundsToLess(Contribution(EASY_GOAL, FALLBACK_RATE), 9900);
  }

  /** The same in figures: a badly rated goal is missed at 10% a year if and only if -50% does not overshoot it. */
  lemma BadRatingInFigures(g: Goal, steps: nat)
    requires g.presentValue >= 0.0 && g.contribution >= 0.0 && steps >= 10 && BadlyRated(g, steps)
    ensures var value := (rate: real) => FutureValue(g.presentValue, g.contribution, g.months, rate);
      value(0.10) < g.target <==> g.target >= value(-0.5)
    ensures AdviceRate(g, steps) == (if AnalysisOf(g, steps, None).requiredCagrPct.None? then 0.12 else 0.10)
    ensures FeasibleAfter(g, g.months)
       <==> FutureValue(g.presentValue, g.contribution, g.months, 0.08) >= g.target
  {
    BadRatingMissesExactly(g, steps, 0.10);
  }

  // ---- The advice on the horizon -----------------------------------------------------------------

  /** Being feasible lasts, so it is a matter of the first feasible month. */
  lemma FeasibleExactly(g: Goal, first: Option<nat>, months: nat)
    requires NonNegative(g) && FirstFeasible(g, first) && months > 0
    ensures first.Some? || months < HORIZON_CAP ==>
              (FeasibleAfter(g, months) <==> first.Some? && first.value <= months)
  {
    if first.Some? && first.value <= months {
      LaterMonthsReachToo(g.target, g.presentValue, g.contribution, first.value, months, FEASIBLE_RATE);
    }
  }

  /**
    The horizon advised for a badly rated goal is later than the present one; the present one is short at
    8% exactly when the lowest rate does not overshoot.
  */
  lemma AdviceExtendsExactly(g: Goal, steps: nat, first: Option<nat>)
    requires NonNegative(g) && steps >= 10 && BadlyRated(g, steps) && FirstFeasible(g, first)
    ensures var more := AnalysisOf(g, steps, first).suggestedExtension;
            more.Some? ==> more.value >= 1
    ensures !FeasibleAfter(g, g.months) <==> g.target >= ValueAt(g, LOWEST_RATE)
  {
    BadRatingMissesExactly(g, steps, FEASIBLE_RATE);
    FeasibleExactly(g, first, g.months);
  }

  /**
    When waiting for the advised extension makes 8% enough: always if a rate was found, and after the fixed
    twelve months exactly when the first feasible month comes by then.
  */
  lemma ExtensionReachesExactly(g: Goal, steps: nat, first: Option<nat>)
    requires NonNegative(g) && BadlyRated(g, steps) && FirstFeasible(g, first)
    requires AnalysisOf(g, steps, first).suggestedExtension.Some?
    ensures var later := g.months + AnalysisOf(g, steps, first).suggestedExtension.value;
            && (Cagr(g, steps).Some? ==> FeasibleAfter(g, later))
            && (first.Some? || later < HORIZON_CAP ==>
                  (FeasibleAfter(g, later) <==> first.Some? && first.value <= later))
  {
    FeasibleExactly(g, first, g.months + AnalysisOf(g, steps, first).suggestedExtension.value);
  }

  /** With a rate, the extension advised is the shortest: 8% is not enough at any horizon before it. */
  lemma ExtensionIsShortest(g: Goal, steps: nat, first: Option<nat>, months: nat)
    requires NonNegative(g) && steps >= 10 && BadlyRated(g, steps) && FirstFeasible(g, first)
    requires Cagr(g, steps).Some? && AnalysisOf(g, steps, first).suggestedExtension.Some?
    requires 1 <= months < g.months + AnalysisOf(g, steps, first).suggestedExtension.value
    ensures !FeasibleAfter(g, months)
  {
    BadRatingNeedsMore(g, steps, FEASIBLE_RATE);
    FeasibleExactly(g, first, g.months);
  }

  /** A target of 1000 in a month from 1 a month: no rate is found, and twelve months more fall short at 8%. */
  const HARD_GOAL := Goal(1000.0, 0.0, 1.0, 1)

  lemma {:induction false} SmallAnnuity(growth: real, months: nat)
    requires 0.0 <= growth <= 1.01 && months <= 50
    ensures 0.0 <= Annuity(growth, months) <= 2.0 * months as real
  {
    if months > 0 {
      SmallAnnuity(growth, months - 1);
      TimesAtMost(Annuity(growth, months - 1), growth);
    }
  }

  lemma TimesAtMost(a: real, growth: real)
    requires a >= 0.0 && 0.0 <= growth <= 1.01
    ensures 0.0 <= Times(a, growth) <= 1.01 * a
  {
    assert a * growth <= a * 1.01;
  }

  lemma TwelveMonthsCanFallShort(steps: nat, first: Option<nat>)
    ensures var a := AnalysisOf(HARD_GOAL, steps, first);
            a.rating == Unrealistic && a.suggestedExtension == Some(12)
    ensures EveryRateFallsShort(HARD_GOAL) && !FeasibleAfter(HARD_GOAL, HARD_GOAL.months + 12)
  {
    var highest, growth := 1.0 + HIGHEST_RATE / 12.0, 1.0 + FEASIBLE_RATE / 12.0;
    FutureValueIsBalance(0.0, 1.0, 1, HIGHEST_RATE);
    assert Balance(0.0, 1.0, 1, highest) == Times(0.0, highest) + 1.0 == 1.0;
    NoRateExactly(HARD_GOAL, steps);
    FutureValueIsBalance(0.0, 1.0, 13, FEASIBLE_RATE);
    SmallAnnuity(growth, 13);
  }
}
