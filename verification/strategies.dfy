/**
  The five preset strategies of psx_api/backtest/strategies.py.  Each recomputes its indicators from the
  closes up to the bar it is asked about; the RSI and Bollinger ones carry a `long` flag between calls.
  The wording of the reason strings is abbreviated.
*/
module Strategies {
  import opened Wrappers
  import opened Engine
  import opened EngineLaws
  import opened RunLaws
  import opened Indicators
  import opened IndicatorLaws

  /** Python's `bars[: i + 1]`. */
  function Upto(bars: seq<Bar>, i: nat): seq<Bar> { if i < |bars| then bars[..i + 1] else bars }

  function Closes(bars: seq<Bar>): (r: seq<real>)
    ensures |r| == |bars|
  {
    seq(|bars|, k requires 0 <= k < |bars| => bars[k].adjustedClose)
  }

  function Last(s: Series): Option<real>
    requires s != []
  {
    s[|s| - 1]
  }

  const FLAT := Decision(0, "")

  // ---- SMA crossover -----------------------------------------------------------------------------

  /** The decision from the two averages now and one bar ago. */
  function CrossDecision(
    fastNow: Option<real>, slowNow: Option<real>, fastPrev: Option<real>, slowPrev: Option<real>): Decision
  {
    if fastNow.None? || slowNow.None? || fastPrev.None? || slowPrev.None? then FLAT
    else if fastNow.value > slowNow.value then
      Decision(1, if fastPrev.value <= slowPrev.value then "Golden cross" else "")
    else
      Decision(0, if fastPrev.value >= slowPrev.value then "Death cross" else "")
  }

  function SmaCrossoverStep(fast: int, slow: int, bars: seq<Bar>, i: nat): Result<((), Decision), RunError> {
    var closes := Closes(Upto(bars, i));
    if |closes| < slow + 1 then Success(((), FLAT))
    else if fast <= 0 || slow <= 0 then Failure(StrategyFailed)
    else
      var before := closes[..|closes| - 1];
      Success(((), CrossDecision(
        Last(SmaSeries(closes, fast)), Last(SmaSeries(closes, slow)),
        Last(SmaSeries(before, fast)), Last(SmaSeries(before, slow)))))
  }

  function SmaCrossover(fast: int, slow: int): Strategy<()> {
    Strategy((), (memory: (), bars: seq<Bar>, i: nat) => SmaCrossoverStep(fast, slow, bars, i))
  }

  // ---- RSI oversold / overbought -----------------------------------------------------------------

  /** `None` means no opinion: keep what the flag says. */
  function HoldIfSilent(long: bool, opinion: Option<Decision>): (bool, Decision) {
    match opinion
    case Some(d) => (d.target == 1, d)
    case None => (long, Decision(if long then 1 else 0, ""))
  }

  function RsiOpinion(rsi: Option<real>, oversold: real, overbought: real): Option<Decision> {
    if rsi.None? then Some(FLAT)
    else if rsi.value < oversold then Some(Decision(1, "RSI oversold buy signal"))
    else if rsi.value > overbought then Some(Decision(0, "RSI overbought, exit"))
    else None
  }

  function RsiStep(period: int, oversold: real, overbought: real, long: bool, bars: seq<Bar>, i: nat)
    : Result<(bool, Decision), RunError>
  {
    var closes := Closes(Upto(bars, i));
    if |closes| < period + 2 then Success(HoldIfSilent(long, Some(FLAT)))
    else if period <= 0 || closes == [] then Failure(StrategyFailed)
    else Success(HoldIfSilent(long, RsiOpinion(Last(RsiSeries(closes, period)), oversold, overbought)))
  }

  function RsiOversold(period: int, oversold: real, overbought: real): Strategy<bool> {
    Strategy(false, (long: bool, bars: seq<Bar>, i: nat) => RsiStep(period, oversold, overbought, long, bars, i))
  }

  // ---- MACD signal cross -------------------------------------------------------------------------

  function MacdDecision(macd: Option<real>, signal: Option<real>): Decision {
    if macd.None? || signal.None? then FLAT
    else if macd.value > signal.value then Decision(1, "MACD above signal")
    else Decision(0, "MACD below signal")
  }

  function MacdStep(fast: int, slow: int, signal: int, bars: seq<Bar>, i: nat): Result<((), Decision), RunError> {
    var closes := Closes(Upto(bars, i));
    if |closes| < slow + signal + 5 then Success(((), FLAT))
    else if !MacdDefined(|closes|, fast, slow, signal) || closes == [] then Failure(StrategyFailed)
    else
      var lines := MacdSpec(closes, fast, slow, signal);
      Success(((), MacdDecision(Last(lines.macd), Last(lines.signal))))
  }

  function MacdSignal(fast: int, slow: int, signal: int): Strategy<()> {
    Strategy((), (memory: (), bars: seq<Bar>, i: nat) => MacdStep(fast, slow, signal, bars, i))
  }

  // ---- Bollinger mean reversion ------------------------------------------------------------------

  function BandOpinion(price: real, upper: Option<real>, middle: Option<real>, lower: Option<real>): Option<Decision> {
    if upper.None? || middle.None? || lower.None? then Some(FLAT)
    else if price <= lower.value then Some(Decision(1, "Price at or below lower band"))
    else if price >= middle.value then Some(Decision(0, "Price reverted to middle band"))
    else None
  }

  function BollingerStep(period: int, numStd: real, sqrt: real -> real, long: bool, bars: seq<Bar>, i: nat)
    : Result<(bool, Decision), RunError>
  {
    var closes := Closes(Upto(bars, i));
    if |closes| < period + 1 then Success(HoldIfSilent(long, Some(FLAT)))
    else if period <= 0 || closes == [] then Failure(StrategyFailed)
    else
      var bands := BandsSpec(closes, period, numStd, sqrt);
      Success(HoldIfSilent(long, BandOpinion(
        closes[|closes| - 1], Last(bands.upper), Last(bands.middle), Last(bands.lower))))
  }

  function BollingerRevert(period: int, numStd: real, sqrt: real -> real): Strategy<bool> {
    Strategy(false, (long: bool, bars: seq<Bar>, i: nat) => BollingerStep(period, numStd, sqrt, long, bars, i))
  }

  // ---- Buy and hold ------------------------------------------------------------------------------

  function BuyAndHold(): Strategy<()> {
    Strategy((), (memory: (), bars: seq<Bar>, i: nat) =>
      Success(((), if i == 0 || |bars| < 2 then FLAT else Decision(1, "Buy and hold benchmark"))))
  }

  // ---- Causality ---------------------------------------------------------------------------------

  lemma UptoTwice(bars: seq<Bar>, i: nat)
    requires i < |bars|
    ensures Upto(bars[..i + 1], i) == Upto(bars, i)
  {
    assert bars[..i + 1][..i + 1] == bars[..i + 1];
  }

  /** No preset looks past the bar it is asked about, so `NoLookAhead` applies to all five. */
  lemma PresetsAreCausal(a: int, b: int, c: int, x: real, y: real, sqrt: real -> real)
    ensures Causal(SmaCrossover(a, b))
    ensures Causal(RsiOversold(a, x, y))
    ensures Causal(MacdSignal(a, b, c))
    ensures Causal(BollingerRevert(a, x, sqrt))
    ensures Causal(BuyAndHold())
  {
    forall memory: (), bars: seq<Bar>, i: nat | i < |bars|
      ensures UsesPastOnly(SmaCrossover(a, b), memory, bars, i)
      ensures UsesPastOnly(MacdSignal(a, b, c), memory, bars, i)
      ensures UsesPastOnly(BuyAndHold(), memory, bars, i)
    {
      UptoTwice(bars, i);
    }
    forall long: bool, bars: seq<Bar>, i: nat | i < |bars|
      ensures UsesPastOnly(RsiOversold(a, x, y), long, bars, i)
      ensures UsesPastOnly(BollingerRevert(a, x, sqrt), long, bars, i)
    {
      UptoTwice(bars, i);
    }
  }

  /** The RSI and Bollinger flags record their own last answer. */
  lemma RsiTracks(period: int, oversold: real, overbought: real)
    ensures Tracks(RsiOversold(period, oversold, overbought), (long: bool) => long)
  {
    var strategy := RsiOversold(period, oversold, overbought);
    forall memory: bool, bars: seq<Bar>, i: nat | strategy.step(memory, bars, i).Success?
      ensures Answered(strategy.step(memory, bars, i).value, (long: bool) => long)
    {
      RsiAnswers(period, oversold, overbought, memory, bars, i);
    }
  }

  lemma RsiAnswers(period: int, oversold: real, overbought: real, long: bool, bars: seq<Bar>, i: nat)
    requires RsiStep(period, oversold, overbought, long, bars, i).Success?
    ensures var answer := RsiStep(period, oversold, overbought, long, bars, i).value;
            answer.1.target == if answer.0 then 1 else 0
  {
  }

  lemma BollingerTracks(period: int, numStd: real, sqrt: real -> real)
    ensures Tracks(BollingerRevert(period, numStd, sqrt), (long: bool) => long)
  {
    var strategy := BollingerRevert(period, numStd, sqrt);
    forall memory: bool, bars: seq<Bar>, i: nat | strategy.step(memory, bars, i).Success?
      ensures Answered(strategy.step(memory, bars, i).value, (long: bool) => long)
    {
      BollingerAnswers(period, numStd, sqrt, memory, bars, i);
    }
  }

  lemma BollingerAnswers(period: int, numStd: real, sqrt: real -> real, long: bool, bars: seq<Bar>, i: nat)
    requires BollingerStep(period, numStd, sqrt, long, bars, i).Success?
    ensures var answer := BollingerStep(period, numStd, sqrt, long, bars, i).value;
            answer.1.target == if answer.0 then 1 else 0
  {
  }

  /** At every call the RSI closure's flag says whether the engine is in the market. */
  lemma RsiFlagAgrees(bars: seq<Bar>, k: nat, cfg: Config, period: int, oversold: real, overbought: real)
    requires GoodConfig(cfg) && GoodPrices(bars) && k < |bars|
    requires RunTo(bars, k, cfg, RsiOversold(period, oversold, overbought)).Success?
    ensures var st := RunTo(bars, k, cfg, RsiOversold(period, oversold, overbought)).value;
      st.memory <==> st.book.quantity > 0.0
  {
    RsiTracks(period, oversold, overbought);
    FlagAgreesWithPosition(bars, k, cfg, RsiOversold(period, oversold, overbought), (long: bool) => long);
  }

  lemma BollingerFlagAgrees(bars: seq<Bar>, k: nat, cfg: Config, period: int, numStd: real, sqrt: real -> real)
    requires GoodConfig(cfg) && GoodPrices(bars) && k < |bars|
    requires RunTo(bars, k, cfg, BollingerRevert(period, numStd, sqrt)).Success?
    ensures var st := RunTo(bars, k, cfg, BollingerRevert(period, numStd, sqrt)).value;
      st.memory <==> st.book.quantity > 0.0
  {
    BollingerTracks(period, numStd, sqrt);
    FlagAgreesWithPosition(bars, k, cfg, BollingerRevert(period, numStd, sqrt), (long: bool) => long);
  }

  // ---- Recomputing against reading a precomputed series -----------------------------------------

  lemma ClosesOfPrefix(bars: seq<Bar>, i: nat)
    requires i < |bars|
    ensures Closes(Upto(bars, i)) == Closes(bars)[..i + 1]
    ensures i > 0 ==> Closes(Upto(bars, i))[..i] == Closes(bars)[..i]
  {
  }

  /** The crossover read off two series computed once for the whole history. */
  function SmaCrossoverTable(fast: int, slow: int, closes: seq<real>): Strategy<()>
    requires fast > 0 && slow > 0
  {
    Strategy((), (memory: (), bars: seq<Bar>, i: nat) =>
      if i + 1 < slow + 1 || i >= |closes| then Success(((), FLAT))
      else Success(((), CrossDecision(
        SmaSeries(closes, fast)[i], SmaSeries(closes, slow)[i],
        SmaSeries(closes, fast)[i - 1], SmaSeries(closes, slow)[i - 1]))))
  }

  function RsiTable(period: int, oversold: real, overbought: real, closes: seq<real>): Strategy<bool>
    requires period > 0
  {
    Strategy(false, (long: bool, bars: seq<Bar>, i: nat) =>
      if i + 1 < period + 2 || i >= |closes| then Success(HoldIfSilent(long, Some(FLAT)))
      else Success(HoldIfSilent(long, RsiOpinion(RsiSeries(closes, period)[i], oversold, overbought))))
  }

  function MacdTable(fast: int, slow: int, signal: int, closes: seq<real>): Strategy<()>
    requires fast > 0 && slow > 0 && signal > 0
  {
    Strategy((), (memory: (), bars: seq<Bar>, i: nat) =>
      if i + 1 < slow + signal + 5 || i >= |closes| then Success(((), FLAT))
      else
        var lines := MacdSpec(closes, fast, slow, signal);
        Success(((), MacdDecision(lines.macd[i], lines.signal[i]))))
  }

  function BollingerTable(period: int, numStd: real, sqrt: real -> real, closes: seq<real>): Strategy<bool>
    requires period > 0
  {
    Strategy(false, (long: bool, bars: seq<Bar>, i: nat) =>
      if i + 1 < period + 1 || i >= |closes| then Success(HoldIfSilent(long, Some(FLAT)))
      else
        var bands := BandsSpec(closes, period, numStd, sqrt);
        Success(HoldIfSilent(long, BandOpinion(closes[i], bands.upper[i], bands.middle[i], bands.lower[i]))))
  }

  /** Two strategies that answer alike on these bars drive the engine alike. */
  ghost predicate AlikeOn<S(!new)>(a: Strategy<S>, b: Strategy<S>, bars: seq<Bar>) {
    a.start == b.start && forall memory: S, i: nat :: i < |bars| ==> AlikeAt(a, b, memory, bars, i)
  }

  ghost predicate AlikeAt<S(!new)>(a: Strategy<S>, b: Strategy<S>, memory: S, bars: seq<Bar>, i: nat) {
    a.step(memory, bars, i) == b.step(memory, bars, i)
  }

  lemma {:induction false} AlikeRuns<S(!new)>(
    a: Strategy<S>, b: Strategy<S>, bars: seq<Bar>, k: nat, cfg: Config)
    requires AlikeOn(a, b, bars) && k <= |bars|
    ensures RunTo(bars, k, cfg, a) == RunTo(bars, k, cfg, b)
  {
    if k > 0 {
      AlikeRuns(a, b, bars, k - 1, cfg);
      var st := RunTo(bars, k - 1, cfg, a);
      if st.Success? {
        assert AlikeAt(a, b, st.value.memory, bars, k - 1);
      }
    }
  }

  lemma SmaLastOfPrefix(closes: seq<real>, period: int, i: nat)
    requires period > 0 && i < |closes|
    ensures Last(SmaSeries(closes[..i + 1], period)) == SmaSeries(closes, period)[i]
  {
    SmaIsStable(closes, period, i);
  }

  lemma SmaStepFromTables(fast: int, slow: int, bars: seq<Bar>, i: nat)
    requires fast > 0 && 0 < slow <= i < |bars|
    ensures var f, s := SmaSeries(Closes(bars), fast), SmaSeries(Closes(bars), slow);
            SmaCrossoverStep(fast, slow, bars, i) == Success(((), CrossDecision(f[i], s[i], f[i - 1], s[i - 1])))
  {
    var closes := Closes(bars);
    ClosesOfPrefix(bars, i);
    SmaLastOfPrefix(closes, fast, i);
    SmaLastOfPrefix(closes, slow, i);
    SmaLastOfPrefix(closes, fast, i - 1);
    SmaLastOfPrefix(closes, slow, i - 1);
  }

  lemma SmaCrossoverAt(fast: int, slow: int, bars: seq<Bar>, i: nat)
    requires fast > 0 && slow > 0 && i < |bars|
    ensures AlikeAt(SmaCrossover(fast, slow), SmaCrossoverTable(fast, slow, Closes(bars)), (), bars, i)
  {
    if slow <= i {
      SmaStepFromTables(fast, slow, bars, i);
    }
  }

  lemma RsiAtBar(period: int, oversold: real, overbought: real, long: bool, bars: seq<Bar>, i: nat)
    requires period > 0 && i < |bars|
    ensures AlikeAt(RsiOversold(period, oversold, overbought),
                    RsiTable(period, oversold, overbought, Closes(bars)), long, bars, i)
  {
    ClosesOfPrefix(bars, i);
    RsiIsStable(Closes(bars), period, i);
  }

  lemma MacdAtBar(fast: int, slow: int, signal: int, bars: seq<Bar>, i: nat)
    requires fast > 0 && slow > 0 && signal > 0 && i < |bars|
    ensures AlikeAt(MacdSignal(fast, slow, signal), MacdTable(fast, slow, signal, Closes(bars)), (), bars, i)
  {
    ClosesOfPrefix(bars, i);
    MacdIsStable(Closes(bars), fast, slow, signal, i);
  }

  lemma BollingerAtBar(period: int, numStd: real, sqrt: real -> real, long: bool, bars: seq<Bar>, i: nat)
    requires period > 0 && i < |bars|
    ensures AlikeAt(BollingerRevert(period, numStd, sqrt),
                    BollingerTable(period, numStd, sqrt, Closes(bars)), long, bars, i)
  {
    ClosesOfPrefix(bars, i);
    BandsAreStable(Closes(bars), period, numStd, sqrt, i);
  }

  /**
    Recomputing every indicator at every bar gives the same run as reading series computed once over the
    whole history: the fast form refines the shipped one.
  */
  lemma RecomputingIsReadingOnce(
    bars: seq<Bar>, cfg: Config, fast: int, slow: int, signal: int, period: int, x: real, y: real,
    sqrt: real -> real)
    requires fast > 0 && slow > 0 && signal > 0 && period > 0
    ensures var closes := Closes(bars);
      && RunOutcome(bars, cfg, SmaCrossover(fast, slow)) == RunOutcome(bars, cfg, SmaCrossoverTable(fast, slow, closes))
      && RunOutcome(bars, cfg, RsiOversold(period, x, y)) == RunOutcome(bars, cfg, RsiTable(period, x, y, closes))
      && RunOutcome(bars, cfg, MacdSignal(fast, slow, signal))
         == RunOutcome(bars, cfg, MacdTable(fast, slow, signal, closes))
      && RunOutcome(bars, cfg, BollingerRevert(period, x, sqrt))
         == RunOutcome(bars, cfg, BollingerTable(period, x, sqrt, closes))
  {
    var closes := Closes(bars);
    forall memory: (), i: nat | i < |bars|
      ensures AlikeAt(SmaCrossover(fast, slow), SmaCrossoverTable(fast, slow, closes), memory, bars, i)
      ensures AlikeAt(MacdSignal(fast, slow, signal), MacdTable(fast, slow, signal, closes), memory, bars, i)
    {
      SmaCrossoverAt(fast, slow, bars, i);
      MacdAtBar(fast, slow, signal, bars, i);
    }
    forall long: bool, i: nat | i < |bars|
      ensures AlikeAt(RsiOversold(period, x, y), RsiTable(period, x, y, closes), long, bars, i)
      ensures AlikeAt(BollingerRevert(period, x, sqrt), BollingerTable(period, x, sqrt, closes), long, bars, i)
    {
      RsiAtBar(period, x, y, long, bars, i);
      BollingerAtBar(period, x, sqrt, long, bars, i);
    }
    AlikeRuns(SmaCrossover(fast, slow), SmaCrossoverTable(fast, slow, closes), bars, |bars|, cfg);
    AlikeRuns(RsiOversold(period, x, y), RsiTable(period, x, y, closes), bars, |bars|, cfg);
    AlikeRuns(MacdSignal(fast, slow, signal), MacdTable(fast, slow, signal, closes), bars, |bars|, cfg);
    AlikeRuns(BollingerRevert(period, x, sqrt), BollingerTable(period, x, sqrt, closes), bars, |bars|, cfg);
  }
}
