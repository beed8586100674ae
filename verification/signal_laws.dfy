/**
  When each strategy wants to be in the market, in terms of the indicator series over the whole history:
  the five presets, the operators and indicator names of the rule builder, its groups and its closure.
*/
module SignalLaws {
  import opened Wrappers
  import opened Engine
  import opened Indicators
  import opened IndicatorLaws
  import opened Strategies
  import opened StrategyBuilder

  // ---- The presets -------------------------------------------------------------------------------

  /** What a step answers, as the target alone. */
  predicate Wants<S>(answer: Result<(S, Decision), RunError>, target: int) {
    answer.Success? && answer.value.1.target == target
  }

  lemma ClosesUpto(bars: seq<Bar>, i: nat)
    requires i < |bars|
    ensures Closes(Upto(bars, i)) == Closes(bars)[..i + 1]
    ensures forall k :: 0 <= k < |bars| ==> Closes(bars)[k] == bars[k].adjustedClose
  {
  }

  lemma SmaNow(bars: seq<Bar>, i: nat, period: int)
    requires i < |bars| && 0 < period
    ensures var upto := Closes(Upto(bars, i));
      && |upto| == i + 1
      && Last(SmaSeries(upto, period)) == SmaSeries(Closes(bars), period)[i]
      && (i > 0 ==> Last(SmaSeries(upto[..i], period)) == SmaSeries(Closes(bars), period)[i - 1])
  {
    ClosesUpto(bars, i);
    SmaIsStable(Closes(bars), period, i);
    if i > 0 {
      SmaIsStable(Closes(bars), period, i - 1);
      assert Closes(bars)[..i + 1][..i] == Closes(bars)[..i];
    }
  }

  /** The crossover is long exactly while the fast average is above the slow one, from bar `slow` (and `fast`) on. */
  lemma CrossoverIsLongExactly(fast: int, slow: int, bars: seq<Bar>, i: nat)
    requires 0 < fast && 0 < slow && i < |bars|
    ensures var f, s := SmaSeries(Closes(bars), fast), SmaSeries(Closes(bars), slow);
      var long := i >= slow && i >= fast && f[i].Some? && s[i].Some? && f[i].value > s[i].value;
      Wants(SmaCrossoverStep(fast, slow, bars, i), if long then 1 else 0)
  {
    SmaNow(bars, i, fast);
    SmaNow(bars, i, slow);
  }

  /** A crossing is named on the bar on which the averages change sides. */
  lemma CrossingIsNamedExactly(fast: int, slow: int, bars: seq<Bar>, i: nat)
    requires 0 < fast <= i && 0 < slow <= i && i < |bars|
    ensures var f, s := SmaSeries(Closes(bars), fast), SmaSeries(Closes(bars), slow);
      && f[i].Some? && s[i].Some? && f[i - 1].Some? && s[i - 1].Some?
      && SmaCrossoverStep(fast, slow, bars, i).Success?
      && SmaCrossoverStep(fast, slow, bars, i).value.1.reason
         == if f[i].value > s[i].value && f[i - 1].value <= s[i - 1].value then "Golden cross"
            else if f[i].value <= s[i].value && f[i - 1].value >= s[i - 1].value then "Death cross"
            else ""
  {
    SmaNow(bars, i, fast);
    SmaNow(bars, i, slow);
  }

  /** Oversold buys, overbought sells, anything between keeps the position; before period + 2 bars it is out. */
  lemma RsiIsLongExactly(
    period: int, oversold: real, overbought: real, long: bool, bars: seq<Bar>, i: nat)
    requires 0 < period && i < |bars|
    ensures var rsi := RsiSeries(Closes(bars), period)[i];
      Wants(RsiStep(period, oversold, overbought, long, bars, i),
            if i < period + 1 || rsi.None? then 0
            else if rsi.value < oversold then 1
            else if rsi.value > overbought then 0
            else if long then 1 else 0)
  {
    ClosesUpto(bars, i);
    RsiIsStable(Closes(bars), period, i);
  }

  /** MACD is long exactly while its line is above the signal line, from bar slow + signal + 4 on. */
  lemma MacdIsLongExactly(fast: int, slow: int, signal: int, bars: seq<Bar>, i: nat)
    requires 0 < fast && 0 < slow && 0 < signal && i < |bars|
    ensures var lines := MacdSpec(Closes(bars), fast, slow, signal);
      && |lines.macd| == |lines.signal| == |bars|
      && var long := && i >= slow + signal + 4 && lines.macd[i].Some? && lines.signal[i].Some?
                     && lines.macd[i].value > lines.signal[i].value;
         Wants(MacdStep(fast, slow, signal, bars, i), if long then 1 else 0)
  {
    ClosesUpto(bars, i);
    MacdIsStable(Closes(bars), fast, slow, signal, i);
  }

  lemma BandsNow(bars: seq<Bar>, i: nat, period: int, numStd: real, sqrt: real -> real)
    requires i < |bars| && 0 < period
    ensures var upto := Closes(Upto(bars, i));
      && |upto| == i + 1 && upto[i] == bars[i].adjustedClose
      && var now, bands := BandsSpec(upto, period, numStd, sqrt), BandsSpec(Closes(bars), period, numStd, sqrt);
         && |bands.upper| == |bands.middle| == |bands.lower| == |bars|
         && |now.upper| == |now.middle| == |now.lower| == i + 1
         && Last(now.upper) == bands.upper[i] && Last(now.middle) == bands.middle[i]
         && Last(now.lower) == bands.lower[i]
         && (bands.upper[i].Some? <==> period <= i + 1)
  {
    ClosesUpto(bars, i);
    BandsAreStable(Closes(bars), period, numStd, sqrt, i);
  }

  lemma OpinionHolds(price: real, upper: Option<real>, middle: Option<real>, lower: Option<real>, long: bool)
    requires upper.Some?
    ensures HoldIfSilent(long, BandOpinion(price, upper, middle, lower)).1.target
         == if middle.None? || lower.None? then 0
            else if price <= lower.value then 1
            else if price >= middle.value then 0
            else if long then 1 else 0
  {
  }

  /** At or below the lower band buys, at or above the middle sells, anything between keeps the position. */
  lemma BollingerIsLongExactly(
    period: int, numStd: real, sqrt: real -> real, long: bool, bars: seq<Bar>, i: nat)
    requires 0 < period && i < |bars|
    ensures var bands := BandsSpec(Closes(bars), period, numStd, sqrt);
      && |bands.middle| == |bands.lower| == |bars|
      && Wants(BollingerStep(period, numStd, sqrt, long, bars, i),
               if i < period || bands.middle[i].None? || bands.lower[i].None? then 0
               else if bars[i].adjustedClose <= bands.lower[i].value then 1
               else if bars[i].adjustedClose >= bands.middle[i].value then 0
               else if long then 1 else 0)
  {
    BandsNow(bars, i, period, numStd, sqrt);
    if period <= i {
      var bands := BandsSpec(Closes(bars), period, numStd, sqrt);
      OpinionHolds(bars[i].adjustedClose, bands.upper[i], bands.middle[i], bands.lower[i], long);
    }
  }

  /** The benchmark is long from the second bar on. */
  lemma HoldIsLongExactly(bars: seq<Bar>, i: nat)
    requires i < |bars|
    ensures Wants(BuyAndHold().step((), bars, i), if 1 <= i && 2 <= |bars| then 1 else 0)
  {
  }

  // ---- Operands and operators --------------------------------------------------------------------

  /** What an operand is worth at bar i: a price, a constant, or the indicator's series over raw prices at i. */
  lemma PlainOperands(bars: seq<Bar>, i: nat, x: real)
    requires i < |bars|
    ensures EvalOperand(Constant(Some(x)), bars, i) == Success(Some(x))
    ensures EvalOperand(Price, bars, i) == Success(Some(bars[i].close))
    ensures RawCloses(bars)[i] == bars[i].close && Highs(bars)[i] == bars[i].high && Lows(bars)[i] == bars[i].low
  {
  }

  /** The bars rules are tried on: twenty days from 1 January 2024, flat at 100, between 99 and 101. */
  lemma TrialBarsAreFlat(k: nat)
    requires k < 20
    ensures |SyntheticBars()| == 20
    ensures var bar := SyntheticBars()[k];
      && bar.date == 738886 + k && bar.open == bar.close == bar.adjustedClose == 100.0
      && bar.high == 101.0 && bar.low == 99.0 && bar.volume == 1000.0
  {
  }

  lemma RawUpto(bars: seq<Bar>, i: nat)
    requires i < |bars|
    ensures Upto(bars, i) == bars[..i + 1] && |Upto(bars, i)| == i + 1
    ensures RawCloses(Upto(bars, i)) == RawCloses(bars)[..i + 1]
    ensures Highs(Upto(bars, i)) == Highs(bars)[..i + 1] && Lows(Upto(bars, i)) == Lows(bars)[..i + 1]
  {
  }

  /** Capital letters do not matter in a name. */
  lemma NamesIgnoreCase(s: string, k: nat)
    requires k < |s|
    ensures |Lower(s)| == |s|
    ensures 'A' <= s[k] <= 'Z' ==> Lower(s)[k] as int == s[k] as int + 32
    ensures !('A' <= s[k] <= 'Z') && s[k] != '\U{212A}' ==> Lower(s)[k] == s[k]
  {
  }

  /** The indicator names, in any case, and the series each stands for. */
  lemma NamedAverages(raw: string, period: int, bars: seq<Bar>, i: nat)
    requires i < |bars| && 0 < period
    ensures var closes, value := RawCloses(bars), EvalOperand(Indicator(raw, period), bars, i);
      && (Lower(raw) == "rsi" ==> value == Success(RsiSeries(closes, period)[i]))
      && (Lower(raw) == "sma" ==> value == Success(SmaSeries(closes, period)[i]))
      && (Lower(raw) == "ema" ==> value == Success(EmaSeries(closes, period)[i]))
  {
    RawUpto(bars, i);
    RsiIsStable(RawCloses(bars), period, i);
    SmaIsStable(RawCloses(bars), period, i);
    EmaIsStable(RawCloses(bars), period, i);
  }

  lemma NamedRanges(raw: string, period: int, bars: seq<Bar>, i: nat)
    requires i < |bars| && 0 < period
    ensures var highs, lows, closes := Highs(bars), Lows(bars), RawCloses(bars);
      var value, k := EvalOperand(Indicator(raw, period), bars, i), StochasticSpec(highs, lows, closes, period, 3).k;
      && |k| == |bars|
      && (Lower(raw) == "stochastic_k" ==> value == Success(k[i]))
      && (Lower(raw) == "atr" ==> value == Success(AtrSeries(highs, lows, closes, period)[i]))
  {
    RawUpto(bars, i);
    StochasticIsStable(Highs(bars), Lows(bars), RawCloses(bars), period, 3, i);
    AtrIsStable(Highs(bars), Lows(bars), RawCloses(bars), period, i);
  }

  lemma NamedWithoutPeriod(raw: string, period: int, bars: seq<Bar>, i: nat)
    requires i < |bars|
    ensures var value, histogram := EvalOperand(Indicator(raw, period), bars, i),
                                    MacdSpec(RawCloses(bars), 12, 26, 9).histogram;
      && |histogram| == |bars|
      && (Lower(raw) == "macd_histogram" ==> value == Success(histogram[i]))
      && (Lower(raw) == "volume" ==> value == Success(Some(bars[i].volume)))
  {
    RawUpto(bars, i);
    MacdIsStable(RawCloses(bars), 12, 26, 9, i);
  }

  /** The five operators; with a value missing on either side each comparison is false. */
  lemma OperatorsCompare(left: Operand, right: Operand, bars: seq<Bar>, i: nat)
    requires EvalOperand(left, bars, i).Success? && EvalOperand(right, bars, i).Success?
    ensures var a, b := EvalOperand(left, bars, i).value, EvalOperand(right, bars, i).value;
      var known := a.Some? && b.Some?;
      && EvalCondition(Compare(left, "<", right), bars, i) == Success(known && a.value < b.value)
      && EvalCondition(Compare(left, "<=", right), bars, i) == Success(known && a.value <= b.value)
      && EvalCondition(Compare(left, ">", right), bars, i) == Success(known && a.value > b.value)
      && EvalCondition(Compare(left, ">=", right), bars, i) == Success(known && a.value >= b.value)
      && EvalCondition(Compare(left, "==", right), bars, i) == Success(known && a.value == b.value)
  {
  }

  // ---- Groups and the closure --------------------------------------------------------------------

  /** An all_of holds exactly when all its clauses do, an any_of fails to exactly when all its clauses do. */
  lemma {:induction false} GroupsQuantify(cs: seq<Condition>, bars: seq<Bar>, i: nat)
    ensures EvalGroup(AllOf(cs), bars, i) == Success(true) <==> AllAre(cs, bars, i, true)
    ensures EvalGroup(AnyOf(cs), bars, i) == Success(false) <==> AllAre(cs, bars, i, false)
  {
    if cs != [] {
      GroupsQuantify(cs[1..], bars, i);
      assert cs == [cs[0]] + cs[1..];
      AllAreCons(cs[0], cs[1..], bars, i, true);
      AllAreCons(cs[0], cs[1..], bars, i, false);
    }
  }

  /** Out of the market the closure goes in exactly when the entry group holds, to be filled at the next bar. */
  lemma EntryExactly(rules: Rules, m: Memory, bars: seq<Bar>, i: nat)
    requires !m.long && RulesStep(rules, m, bars, i).Success?
    ensures var (after, d) := RulesStep(rules, m, bars, i).value;
      && (d.target == 1 <==> EvalGroup(rules.entry, bars, i) == Success(true))
      && (d.target == 0 || d.target == 1) && (after.long <==> d.target == 1)
      && (after.long ==> after.entryIndex == i + 1)
  {
    var enter := EvalGroup(rules.entry, bars, i);
    assert enter == Success(enter.value);
  }

  predicate HeldLongEnough(rules: Rules, m: Memory, i: nat) {
    && HoldingDaysMax(rules.exit).Some? && m.entryIndex >= 0
    && i - m.entryIndex >= HoldingDaysMax(rules.exit).value
  }

  /** In the market it goes out exactly when the exit group without time stops holds, or the holding is over. */
  lemma ExitExactly(rules: Rules, m: Memory, bars: seq<Bar>, i: nat)
    requires m.long && RulesStep(rules, m, bars, i).Success?
    ensures var (after, d) := RulesStep(rules, m, bars, i).value;
      && (d.target == 0 <==>
            || (rules.exit.Some? && EvalStripped(rules.exit.value, bars, i) == Success(true))
            || HeldLongEnough(rules, m, i))
      && (d.target == 0 || d.target == 1) && (after.long <==> d.target == 1)
      && after.entryIndex == m.entryIndex
  {
    var leave := ExitSignal(rules.exit, bars, i);
    assert leave == Success(leave.value);
  }
}
