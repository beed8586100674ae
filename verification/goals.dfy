/**
  The goal analysis, psx_api/goals/tvm.py `analyze`: the rating of the required rate and the advice that
  goes with a bad one.  When no rate is found the rating is bad too, and the advice is a fixed one.
*/
module Goals {
  import opened Wrappers
  import opened Rounding
  import opened Tvm
  import opened TvmLaws

  const FEASIBLE_RATE := 0.08
  const STRETCH_RATE := 0.10
  const FALLBACK_RATE := 0.12
  const FALLBACK_MONTHS: nat := 12

  datatype Rating = Feasible | Stretch | Aggressive | Unrealistic | AlreadyFunded

  datatype GoalAnalysis = GoalAnalysis(
    rating: Rating, requiredCagrPct: Option<real>, suggestedContribution: Option<real>,
    suggestedExtension: Option<nat>)

  function RatingForCagr(pct: real): Rating {
    if pct <= 8.0 then Feasible
    else if pct <= 14.0 then Stretch
    else if pct <= 20.0 then Aggressive
    else Unrealistic
  }

  predicate NeedsAdvice(rating: Rating) { rating == Aggressive || rating == Unrealistic }

  function Percent(rate: real): real { HalfEven2(rate * 100.0) }

  predicate FeasibleAfter(g: Goal, months: nat) {
    Reaches(g.target, g.presentValue, g.contribution, months, FEASIBLE_RATE)
  }

  /** The first feasible month below the cap, if there is one. */
  predicate FirstFeasible(g: Goal, first: Option<nat>) {
    match first
    case None => forall k :: 1 <= k < HORIZON_CAP ==> !FeasibleAfter(g, k)
    case Some(m) => 1 <= m < HORIZON_CAP && FeasibleAfter(g, m) && forall k :: 1 <= k < m ==> !FeasibleAfter(g, k)
  }

  function Extension(g: Goal, first: Option<nat>): Option<nat> {
    match first
    case None => None
    case Some(m) => Some(if m > g.months then m - g.months else 0)
  }

  function Contribution(g: Goal, rate: real): real
    requires g.months > 0 && rate > -12.0
  {
    RequiredPmtLandsOnTarget(g.target, g.presentValue, g.months, rate);
    RequiredPmt(g.target, g.presentValue, g.months, rate).value
  }

  function Suggestion(g: Goal, rate: real): real
    requires g.months > 0 && rate > -12.0
  {
    HalfEven2(Contribution(g, rate))
  }

  method SuggestExtension(g: Goal) returns (more: Option<nat>, ghost first: Option<nat>)
    ensures FirstFeasible(g, first) && more == Extension(g, first)
  {
    var ext := MonthsToDropToFeasible(g.target, g.presentValue, g.contribution, FEASIBLE_RATE);
    first := ext;
    more := None;
    if ext.Some? {
      more := Some(if ext.value - g.months > 0 then ext.value - g.months else 0);
    }
  }

  /** The whole analysis; `first` is the first feasible month, which only a rate rated badly makes it look for. */
  function AnalysisOf(g: Goal, steps: nat, first: Option<nat>): GoalAnalysis {
    if g.presentValue >= g.target then GoalAnalysis(AlreadyFunded, None, None, None)
    else if g.months == 0 then GoalAnalysis(Unrealistic, None, None, None)
    else
      match Cagr(g, steps)
      case None => GoalAnalysis(Unrealistic, None, Some(Suggestion(g, FALLBACK_RATE)), Some(FALLBACK_MONTHS))
      case Some(rate) =>
        var pct := Percent(rate);
        if NeedsAdvice(RatingForCagr(pct)) then
          GoalAnalysis(RatingForCagr(pct), Some(pct), Some(Suggestion(g, STRETCH_RATE)), Extension(g, first))
        else
          GoalAnalysis(RatingForCagr(pct), Some(pct), None, None)
  }

  method Analyze(g: Goal, steps: nat := BISECTION_STEPS) returns (a: GoalAnalysis, ghost first: Option<nat>)
    ensures a.(suggestedExtension := None) == AnalysisOf(g, steps, None).(suggestedExtension := None)
    ensures a == AnalysisOf(g, steps, first)
    ensures NeedsAdvice(a.rating) && a.requiredCagrPct.Some? ==> FirstFeasible(g, first)
  {
    first := None;
    if g.presentValue >= g.target {
      return GoalAnalysis(AlreadyFunded, None, None, None), None;
    }
    if g.months == 0 {
      return GoalAnalysis(Unrealistic, None, None, None), None;
    }
    var rate := BisectCagr(g, steps);
    if rate.None? {
      var fallback := Suggestion(g, FALLBACK_RATE);
      return GoalAnalysis(Unrealistic, None, Some(fallback), Some(FALLBACK_MONTHS)), None;
    }
    var pct := Percent(rate.value);
    var rating := RatingForCagr(pct);
    var suggestedPmt, suggestedExt := None, None;
    if rating == Aggressive || rating == Unrealistic {
      var pmt := Suggestion(g, STRETCH_RATE);
      suggestedPmt := Some(pmt);
      suggestedExt, first := SuggestExtension(g);
    }
    a := GoalAnalysis(rating, Some(pct), suggestedPmt, suggestedExt);
  }
}
