/** What a backtest may know, how deep it falls, and what its strategy believes about the position. */
module RunLaws {
  import opened Engine
  import opened EngineLaws

  // ---- No look-ahead -----------------------------------------------------------------------------

  /** A strategy that at bar i looks at bars 0..i only, and otherwise at its own state. */
  ghost predicate Causal<S(!new)>(strategy: Strategy<S>) {
    forall memory: S, bars, i: nat :: i < |bars| ==> UsesPastOnly(strategy, memory, bars, i)
  }

  ghost predicate UsesPastOnly<S(!new)>(strategy: Strategy<S>, memory: S, bars: seq<Bar>, i: nat)
    requires i < |bars|
  {
    strategy.step(memory, bars, i) == strategy.step(memory, bars[..i + 1], i)
  }

  lemma CausalOnPrefix<S(!new)>(strategy: Strategy<S>, memory: S, bars: seq<Bar>, n: nat, i: nat)
    requires Causal(strategy) && i < n <= |bars|
    ensures strategy.step(memory, bars[..n], i) == strategy.step(memory, bars, i)
  {
    assert bars[..n][..i + 1] == bars[..i + 1];
    assert UsesPastOnly(strategy, memory, bars, i) && UsesPastOnly(strategy, memory, bars[..n], i);
  }

  lemma StepOnPrefix<S(!new)>(
    st: State<S>, bars: seq<Bar>, n: nat, i: nat, cfg: Config, strategy: Strategy<S>)
    requires Causal(strategy) && i + 1 < n <= |bars|
    ensures Step(st, bars[..n], i, cfg, strategy) == Step(st, bars, i, cfg, strategy)
  {
    CausalOnPrefix(strategy, st.memory, bars, n, i);
  }

  lemma {:induction false} RunOnPrefix<S(!new)>(bars: seq<Bar>, n: nat, k: nat, cfg: Config, strategy: Strategy<S>)
    requires Causal(strategy) && k < n <= |bars|
    ensures RunTo(bars[..n], k, cfg, strategy) == RunTo(bars, k, cfg, strategy)
  {
    if k > 0 {
      RunOnPrefix(bars, n, k - 1, cfg, strategy);
      var st := RunTo(bars, k - 1, cfg, strategy);
      if st.Success? {
        StepOnPrefix(st.value, bars, n, k - 1, cfg, strategy);
      }
    }
  }

  /** The equity curve gains one point a bar and never changes an old one. */
  lemma {:induction false} CurveGrows<S>(bars: seq<Bar>, k: nat, n: nat, cfg: Config, strategy: Strategy<S>)
    requires k <= n <= |bars| && RunTo(bars, n, cfg, strategy).Success?
    ensures RunTo(bars, k, cfg, strategy).Success?
    ensures |RunTo(bars, k, cfg, strategy).value.curve| == k
    ensures |RunTo(bars, n, cfg, strategy).value.curve| == n
    ensures RunTo(bars, n, cfg, strategy).value.curve[..k] == RunTo(bars, k, cfg, strategy).value.curve
    decreases n
  {
    if k < n {
      CurveGrows(bars, k, n - 1, cfg, strategy);
    } else if n > 0 {
      CurveGrows(bars, n - 1, n - 1, cfg, strategy);
    }
  }

  /** A bar adds one point: the equity before it acts, measured from the raised high-water mark. */
  lemma OneMorePoint<S>(bars: seq<Bar>, k: nat, cfg: Config, strategy: Strategy<S>)
    requires k < |bars| && RunTo(bars, k + 1, cfg, strategy).Success?
    ensures RunTo(bars, k, cfg, strategy).Success?
    ensures var before, st := RunTo(bars, k, cfg, strategy).value, RunTo(bars, k + 1, cfg, strategy).value;
      var equity := Equity(before.book, bars[k]);
      && st.highWater == (if equity > before.highWater then equity else before.highWater)
      && st.curve == before.curve + [EquityPoint(
           bars[k].date, equity, DrawdownPct(st.highWater, equity), before.book.quantity > 0.0)]
  {
  }

  /**
    No look-ahead: stopping a run after bar k gives the same equity curve up to bar k as letting it go
    on, whatever comes later, in spite of next-open fills and the forced exit.
  */
  lemma NoLookAhead<S(!new)>(bars: seq<Bar>, k: nat, cfg: Config, strategy: Strategy<S>)
    requires Causal(strategy) && k < |bars| && RunOutcome(bars, cfg, strategy).Success?
    ensures RunOutcome(bars[..k + 1], cfg, strategy).Success?
    ensures |RunOutcome(bars, cfg, strategy).value.curve| == |bars|
    ensures RunOutcome(bars[..k + 1], cfg, strategy).value.curve
         == RunOutcome(bars, cfg, strategy).value.curve[..k + 1]
  {
    OutcomeCurve(bars, cfg, strategy);
    OutcomeCurve(bars[..k + 1], cfg, strategy);
    CurveGrows(bars, k + 1, |bars|, cfg, strategy);
    PrefixCurve(bars, k, cfg, strategy);
  }

  lemma OutcomeCurve<S>(bars: seq<Bar>, cfg: Config, strategy: Strategy<S>)
    requires bars != [] && cfg.capital > 0.0
    ensures RunOutcome(bars, cfg, strategy).Success? <==> RunTo(bars, |bars|, cfg, strategy).Success?
    ensures RunOutcome(bars, cfg, strategy).Success? ==>
      RunOutcome(bars, cfg, strategy).value.curve == RunTo(bars, |bars|, cfg, strategy).value.curve
  {
  }

  /** On the short history bar k is the last one and forces an exit; its point of the curve is the same. */
  lemma PrefixCurve<S(!new)>(bars: seq<Bar>, k: nat, cfg: Config, strategy: Strategy<S>)
    requires Causal(strategy) && k < |bars| && RunTo(bars, k + 1, cfg, strategy).Success?
    ensures RunTo(bars[..k + 1], k + 1, cfg, strategy).Success?
    ensures RunTo(bars[..k + 1], k + 1, cfg, strategy).value.curve == RunTo(bars, k + 1, cfg, strategy).value.curve
  {
    var short := bars[..k + 1];
    OneMorePoint(bars, k, cfg, strategy);
    RunOnPrefix(bars, k + 1, k, cfg, strategy);
    LastBarSucceeds(short, cfg, strategy);
    OneMorePoint(short, k, cfg, strategy);
  }

  /** The last bar never asks the strategy, so it cannot fail. */
  lemma LastBarSucceeds<S>(bars: seq<Bar>, cfg: Config, strategy: Strategy<S>)
    requires bars != [] && RunTo(bars, |bars| - 1, cfg, strategy).Success?
    ensures RunTo(bars, |bars|, cfg, strategy).Success?
  {
  }

  // ---- Drawdown ----------------------------------------------------------------------------------

  lemma EquityIsPositive(book: Book, bar: Bar, cfg: Config)
    requires GoodConfig(cfg) && Sound(book, cfg) && bar.close > 0.0
    ensures Equity(book, bar) > 0.0
    ensures Flat(book) ==> Equity(book, bar) == book.cash
  {
    NothingHeld(bar.close);
    if Long(book, cfg.rate) {
      assert bar.close * book.quantity > 0.0;
    }
  }

  /** A point at or before `j` with the highest equity. */
  function PeakIndex(curve: seq<EquityPoint>, j: nat): (i: nat)
    requires j < |curve|
    ensures i <= j
  {
    if j == 0 then 0
    else if curve[j].equity > curve[PeakIndex(curve, j - 1)].equity then j
    else PeakIndex(curve, j - 1)
  }

  lemma {:induction false} PeakIsHighest(curve: seq<EquityPoint>, j: nat)
    requires j < |curve|
    ensures forall i :: 0 <= i <= j ==> curve[i].equity <= curve[PeakIndex(curve, j)].equity
  {
    if j > 0 {
      PeakIsHighest(curve, j - 1);
    }
  }

  lemma {:induction false} PeakOfPrefix(curve: seq<EquityPoint>, n: nat, j: nat)
    requires j < n <= |curve|
    ensures PeakIndex(curve[..n], j) == PeakIndex(curve, j)
  {
    if j > 0 {
      PeakOfPrefix(curve, n, j - 1);
    }
  }

  /** The running high-water mark is the highest equity so far. */
  lemma {:induction false} HighWaterIsPeak<S>(bars: seq<Bar>, k: nat, cfg: Config, strategy: Strategy<S>)
    requires 0 < k <= |bars| && cfg.capital == Equity(Initial(cfg, strategy).book, bars[0])
    requires RunTo(bars, k, cfg, strategy).Success?
    ensures var st := RunTo(bars, k, cfg, strategy).value;
      |st.curve| == k && st.highWater == st.curve[PeakIndex(st.curve, k - 1)].equity
  {
    OneMorePoint(bars, k - 1, cfg, strategy);
    var before, st := RunTo(bars, k - 1, cfg, strategy).value, RunTo(bars, k, cfg, strategy).value;
    if k > 1 {
      HighWaterIsPeak(bars, k - 1, cfg, strategy);
    } else {
      assert before == Initial(cfg, strategy);
    }
    PeakStep(before.curve, st.curve[|before.curve|], before.highWater);
  }

  /** Each bar's point of the curve: a positive equity, and its fall from the mark raised so far. */
  lemma LastPoint<S>(bars: seq<Bar>, k: nat, cfg: Config, strategy: Strategy<S>)
    requires GoodConfig(cfg) && GoodPrices(bars) && 0 < k <= |bars|
    requires RunTo(bars, k, cfg, strategy).Success?
    ensures var st := RunTo(bars, k, cfg, strategy).value;
      && st.curve != []
      && st.curve[|st.curve| - 1].equity > 0.0
      && st.curve[|st.curve| - 1].drawdownPct == DrawdownPct(st.highWater, st.curve[|st.curve| - 1].equity)
  {
    OneMorePoint(bars, k - 1, cfg, strategy);
    EveryStateIsSound(bars, k - 1, cfg, strategy);
    EquityIsPositive(RunTo(bars, k - 1, cfg, strategy).value.book, bars[k - 1], cfg);
  }

  lemma NothingBoughtYet<S>(bars: seq<Bar>, cfg: Config, strategy: Strategy<S>)
    requires bars != []
    ensures cfg.capital == Equity(Initial(cfg, strategy).book, bars[0])
  {
    NothingHeld(bars[0].close);
  }

  /** Raising the mark by one more point keeps it at the peak; it starts at the first point's equity. */
  lemma PeakStep(curve: seq<EquityPoint>, point: EquityPoint, peak: real)
    requires peak == if curve == [] then point.equity else curve[PeakIndex(curve, |curve| - 1)].equity
    ensures var longer := curve + [point];
      longer[PeakIndex(longer, |curve|)].equity == if point.equity > peak then point.equity else peak
  {
    if curve != [] {
      var longer := curve + [point];
      assert longer[..|curve|] == curve;
      PeakOfPrefix(longer, |curve|, |curve| - 1);
    }
  }

  lemma {:induction false} PointIsDrawdown<S>(bars: seq<Bar>, j: nat, n: nat, cfg: Config, strategy: Strategy<S>)
    requires GoodConfig(cfg) && GoodPrices(bars) && j < n <= |bars|
    requires RunTo(bars, n, cfg, strategy).Success?
    ensures var curve := RunTo(bars, n, cfg, strategy).value.curve;
      && |curve| == n
      && curve[j].equity > 0.0
      && curve[j].drawdownPct == DrawdownPct(curve[PeakIndex(curve, j)].equity, curve[j].equity)
  {
    CurveGrows(bars, j + 1, n, cfg, strategy);
    NothingBoughtYet(bars, cfg, strategy);
    HighWaterIsPeak(bars, j + 1, cfg, strategy);
    LastPoint(bars, j + 1, cfg, strategy);
    PointOfPrefix(RunTo(bars, n, cfg, strategy).value.curve, RunTo(bars, j + 1, cfg, strategy).value.curve, j);
  }

  /** What holds of the last point of a prefix holds of that point of the whole curve. */
  lemma PointOfPrefix(curve: seq<EquityPoint>, upto: seq<EquityPoint>, j: nat)
    requires j < |curve| && upto == curve[..j + 1]
    requires upto[j].equity > 0.0
    requires upto[j].drawdownPct == DrawdownPct(upto[PeakIndex(upto, j)].equity, upto[j].equity)
    ensures curve[j].equity > 0.0
    ensures curve[j].drawdownPct == DrawdownPct(curve[PeakIndex(curve, j)].equity, curve[j].equity)
  {
    PeakOfPrefix(curve, j + 1, j);
  }

  lemma HigherPeakDeeperFall(low: real, high: real, equity: real)
    requires 0.0 < equity && 0.0 < low <= high && equity <= high
    ensures DrawdownPct(low, equity) <= DrawdownPct(high, equity)
    ensures 0.0 <= DrawdownPct(high, equity) < 100.0
  {
    FallFraction(high, equity);
    FallFraction(low, equity);
    FractionShrinks(equity, low, high);
    FractionShrinks(equity, equity, high);
    assert equity / equity == 1.0 && 0.0 < equity / high;
  }

  lemma FallFraction(peak: real, equity: real)
    requires peak > 0.0
    ensures (peak - equity) / peak == 1.0 - equity / peak
  {
    var x, z := equity / peak, (peak - equity) / peak;
    assert x * peak == equity && z * peak == peak - equity;
    Cancel(z, 1.0 - x, peak);
  }

  lemma Cancel(a: real, b: real, c: real)
    requires c > 0.0
    ensures a * c == b * c ==> a == b
    ensures a * c <= b * c ==> a <= b
  {
  }

  lemma FractionShrinks(a: real, low: real, high: real)
    requires 0.0 < a && 0.0 < low <= high
    ensures a / high <= a / low
  {
    var x, y := a / low, a / high;
    assert x * low == a && y * high == a && x > 0.0;
    assert x * low <= x * high;
    Cancel(y, x, high);
  }

  /** The single-pass drawdown at `j` is the deepest fall into `j` from any earlier point. */
  lemma DrawdownIsDeepestFall<S>(bars: seq<Bar>, i: nat, j: nat, cfg: Config, strategy: Strategy<S>)
    requires GoodConfig(cfg) && GoodPrices(bars) && i <= j < |bars|
    requires RunTo(bars, |bars|, cfg, strategy).Success?
    ensures var curve := RunTo(bars, |bars|, cfg, strategy).value.curve;
      && |curve| == |bars|
      && DrawdownPct(curve[i].equity, curve[j].equity) <= curve[j].drawdownPct
      && curve[j].drawdownPct == DrawdownPct(curve[PeakIndex(curve, j)].equity, curve[j].equity)
      && 0.0 <= curve[j].drawdownPct < 100.0
  {
    var curve := RunTo(bars, |bars|, cfg, strategy).value.curve;
    PointIsDrawdown(bars, i, |bars|, cfg, strategy);
    PointIsDrawdown(bars, j, |bars|, cfg, strategy);
    PeakIsHighest(curve, j);
    HigherPeakDeeperFall(curve[i].equity, curve[PeakIndex(curve, j)].equity, curve[j].equity);
  }

  // ---- Metrics -----------------------------------------------------------------------------------

  /** `max(p.drawdown_pct for p in curve)`, with default 0. */
  function MaxDrawdown(curve: seq<EquityPoint>): real {
    if curve == [] then 0.0
    else if |curve| == 1 then curve[0].drawdownPct
    else
      var rest := MaxDrawdown(curve[1..]);
      if rest > curve[0].drawdownPct then rest else curve[0].drawdownPct
  }

  lemma {:induction false} MaxDrawdownIsMax(curve: seq<EquityPoint>) returns (j: nat)
    requires curve != []
    ensures j < |curve| && MaxDrawdown(curve) == curve[j].drawdownPct
    ensures forall i :: 0 <= i < |curve| ==> curve[i].drawdownPct <= MaxDrawdown(curve)
  {
    if |curve| == 1 {
      j := 0;
    } else {
      var rest := MaxDrawdownIsMax(curve[1..]);
      j := if MaxDrawdown(curve[1..]) > curve[0].drawdownPct then rest + 1 else 0;
      forall i | 0 <= i < |curve|
        ensures curve[i].drawdownPct <= MaxDrawdown(curve)
      {
        if i > 0 {
          assert curve[i] == curve[1..][i - 1];
        }
      }
    }
  }

  /** The reported maximum is the deepest fall between any two points in time, and some pair attains it. */
  lemma MaxDrawdownIsDeepestFall<S>(bars: seq<Bar>, cfg: Config, strategy: Strategy<S>) returns (from: nat, to: nat)
    requires GoodConfig(cfg) && GoodPrices(bars) && RunOutcome(bars, cfg, strategy).Success?
    ensures var curve := RunOutcome(bars, cfg, strategy).value.curve;
      && |curve| == |bars|
      && (forall i, j :: 0 <= i <= j < |bars| ==>
            DrawdownPct(curve[i].equity, curve[j].equity) <= MaxDrawdown(curve))
      && from <= to < |curve|
      && MaxDrawdown(curve) == DrawdownPct(curve[from].equity, curve[to].equity)
      && 0.0 <= MaxDrawdown(curve) < 100.0
  {
    var curve := RunOutcome(bars, cfg, strategy).value.curve;
    DrawdownIsDeepestFall(bars, 0, 0, cfg, strategy);
    to := MaxDrawdownIsMax(curve);
    DrawdownIsDeepestFall(bars, to, to, cfg, strategy);
    from := PeakIndex(curve, to);
    forall i, j | 0 <= i <= j < |bars|
      ensures DrawdownPct(curve[i].equity, curve[j].equity) <= MaxDrawdown(curve)
    {
      DrawdownIsDeepestFall(bars, i, j, cfg, strategy);
    }
  }

  // ---- Strategy state against engine state -------------------------------------------------------

  /** A strategy that answers 1 or 0 and notes its own answer as "long". */
  ghost predicate Tracks<S(!new)>(strategy: Strategy<S>, long: S -> bool) {
    && !long(strategy.start)
    && forall memory: S, bars, i: nat :: strategy.step(memory, bars, i).Success? ==>
         Answered(strategy.step(memory, bars, i).value, long)
  }

  predicate Answered<S>(answer: (S, Decision), long: S -> bool) {
    answer.1.target == if long(answer.0) then 1 else 0
  }

  /** At every call such a strategy's flag says whether the engine holds a position. */
  lemma {:induction false} FlagAgreesWithPosition<S(!new)>(
    bars: seq<Bar>, k: nat, cfg: Config, strategy: Strategy<S>, long: S -> bool)
    requires GoodConfig(cfg) && GoodPrices(bars) && Tracks(strategy, long)
    requires k < |bars| && RunTo(bars, k, cfg, strategy).Success?
    ensures var st := RunTo(bars, k, cfg, strategy).value;
      long(st.memory) <==> st.book.quantity > 0.0
  {
    if k <= cfg.warmup {
      WarmupIsFlat(bars, k, cfg, strategy);
    } else {
      var before := RunTo(bars, k - 1, cfg, strategy).value;
      EveryStateIsSound(bars, k - 1, cfg, strategy);
      var answer := strategy.step(before.memory, bars, k - 1);
      assert answer.Success? && Answered(answer.value, long);
      FillKeepsSound(before.book, bars[k], k, answer.value.1, cfg);
    }
  }
}
