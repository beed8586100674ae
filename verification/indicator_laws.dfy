/**
  What the indicators guarantee: entry k depends on inputs 0..k only, the oscillators stay in their
  ranges, and rescaling all prices leaves them alone.
*/
module IndicatorLaws {
  import opened Rounding
  import opened Indicators

  // ---- Prefix stability of the values ------------------------------------------------------------

  lemma {:induction false} SumOnPrefix(xs: seq<real>, n: nat, lo: nat, hi: nat)
    requires lo <= hi <= n <= |xs|
    ensures WindowSum(xs[..n], lo, hi) == WindowSum(xs, lo, hi)
  {
    if lo < hi {
      SumOnPrefix(xs, n, lo, hi - 1);
    }
  }

  lemma {:induction false} MaxOnPrefix(xs: seq<real>, n: nat, lo: nat, hi: nat)
    requires lo < hi <= n <= |xs|
    ensures WindowMax(xs[..n], lo, hi) == WindowMax(xs, lo, hi)
    ensures WindowMin(xs[..n], lo, hi) == WindowMin(xs, lo, hi)
  {
    if lo + 1 < hi {
      MaxOnPrefix(xs, n, lo, hi - 1);
    }
  }

  lemma SmaOnPrefix(xs: seq<real>, n: nat, period: int, i: nat)
    requires 0 < period && i < n <= |xs|
    ensures SmaAt(xs[..n], period, i) == SmaAt(xs, period, i)
  {
    if period <= i + 1 {
      SumOnPrefix(xs, n, i + 1 - period, i + 1);
    }
  }

  lemma {:induction false} EmaValueOnPrefix(xs: seq<real>, n: nat, period: int, i: nat)
    requires 0 < period <= i + 1 <= n <= |xs|
    ensures EmaValue(xs[..n], period, i) == EmaValue(xs, period, i)
  {
    if i + 1 == period {
      SumOnPrefix(xs, n, 0, period);
    } else {
      EmaValueOnPrefix(xs, n, period, i - 1);
    }
  }

  lemma {:induction false} MovesOnPrefix(xs: seq<real>, n: nat, i: nat)
    requires i < n <= |xs|
    ensures GainSum(xs[..n], i) == GainSum(xs, i)
    ensures LossSum(xs[..n], i) == LossSum(xs, i)
  {
    if i > 0 {
      MovesOnPrefix(xs, n, i - 1);
    }
  }

  lemma {:induction false} AveragesOnPrefix(xs: seq<real>, n: nat, period: int, i: nat)
    requires 0 < period <= i < n <= |xs|
    ensures AvgGain(xs[..n], period, i) == AvgGain(xs, period, i)
    ensures AvgLoss(xs[..n], period, i) == AvgLoss(xs, period, i)
  {
    if i == period {
      MovesOnPrefix(xs, n, period);
    } else {
      AveragesOnPrefix(xs, n, period, i - 1);
    }
  }

  lemma KValueOnPrefix(highs: seq<real>, lows: seq<real>, closes: seq<real>, n: nat, period: int, i: nat)
    requires |highs| == |lows| == |closes| && 0 < period <= i + 1 <= n <= |closes|
    ensures KValue(highs[..n], lows[..n], closes[..n], period, i) == KValue(highs, lows, closes, period, i)
  {
    MaxOnPrefix(highs, n, i - period + 1, i + 1);
    MaxOnPrefix(lows, n, i - period + 1, i + 1);
  }

  lemma {:induction false} RangesOnPrefix(highs: seq<real>, lows: seq<real>, closes: seq<real>, n: nat, i: nat)
    requires |highs| == |lows| == |closes| && i < n <= |closes|
    ensures RangeSum(highs[..n], lows[..n], closes[..n], i) == RangeSum(highs, lows, closes, i)
  {
    if i > 0 {
      RangesOnPrefix(highs, lows, closes, n, i - 1);
    }
  }

  lemma {:induction false} AtrOnPrefix(
    highs: seq<real>, lows: seq<real>, closes: seq<real>, n: nat, period: int, i: nat)
    requires |highs| == |lows| == |closes| && 0 < period <= i < n <= |closes|
    ensures AtrValue(highs[..n], lows[..n], closes[..n], period, i) == AtrValue(highs, lows, closes, period, i)
  {
    if i == period {
      RangesOnPrefix(highs, lows, closes, n, period);
    } else {
      AtrOnPrefix(highs, lows, closes, n, period, i - 1);
    }
  }

  lemma {:induction false} ObvOnPrefix(closes: seq<real>, volumes: seq<real>, n: nat, i: nat)
    requires |closes| == |volumes| && i < n <= |closes|
    ensures ObvValue(closes[..n], volumes[..n], i) == ObvValue(closes, volumes, i)
  {
    if i > 0 {
      ObvOnPrefix(closes, volumes, n, i - 1);
    }
  }

  lemma {:induction false} SquaresOnPrefix(xs: seq<real>, n: nat, lo: nat, hi: nat, mean: real)
    requires lo <= hi <= n <= |xs|
    ensures SquaresFrom(xs[..n], lo, hi, mean) == SquaresFrom(xs, lo, hi, mean)
  {
    if lo < hi {
      SquaresOnPrefix(xs, n, lo, hi - 1, mean);
    }
  }

  // ---- Recomputing at a bar is reading the precomputed series -----------------------------------

  lemma SmaIsStable(xs: seq<real>, period: int, k: nat)
    requires 0 < period && k < |xs|
    ensures SmaSeries(xs[..k + 1], period)[k] == SmaSeries(xs, period)[k]
  {
    SmaOnPrefix(xs, k + 1, period, k);
  }

  lemma EmaIsStable(xs: seq<real>, period: int, k: nat)
    requires 0 < period && k < |xs|
    ensures EmaSeries(xs[..k + 1], period)[k] == EmaSeries(xs, period)[k]
  {
    if period <= k + 1 {
      EmaValueOnPrefix(xs, k + 1, period, k);
    }
  }

  lemma RsiIsStable(xs: seq<real>, period: int, k: nat)
    requires 0 < period && k < |xs|
    ensures RsiSeries(xs[..k + 1], period)[k] == RsiSeries(xs, period)[k]
  {
    if period <= k {
      AveragesOnPrefix(xs, k + 1, period, k);
    }
  }

  /** The populated tail of a prefix is a prefix of the populated tail: the re-alignment is stable. */
  lemma MacdTailOnPrefix(xs: seq<real>, n: nat, fast: int, slow: int)
    requires 0 < fast && 0 < slow && MacdStart(fast, slow) <= n <= |xs|
    ensures MacdTail(xs[..n], fast, slow) == MacdTail(xs, fast, slow)[..n - MacdStart(fast, slow)]
  {
    var start := MacdStart(fast, slow);
    forall j | 0 <= j < n - start
      ensures MacdTail(xs[..n], fast, slow)[j] == MacdTail(xs, fast, slow)[j]
    {
      EmaValueOnPrefix(xs, n, fast, start + j);
      EmaValueOnPrefix(xs, n, slow, start + j);
      assert MacdTail(xs[..n], fast, slow)[j] == MacdValue(xs[..n], fast, slow, start + j);
      assert MacdTail(xs, fast, slow)[j] == MacdValue(xs, fast, slow, start + j);
    }
  }

  lemma SignalOnPrefix(xs: seq<real>, n: nat, fast: int, slow: int, signal: int, i: nat)
    requires 0 < fast && 0 < slow && i < n <= |xs|
    requires 0 < signal || i < MacdStart(fast, slow)
    ensures SignalAt(xs[..n], fast, slow, signal, i) == SignalAt(xs, fast, slow, signal, i)
  {
    var start := MacdStart(fast, slow);
    if start <= i {
      MacdTailOnPrefix(xs, n, fast, slow);
      if signal <= i - start + 1 {
        EmaValueOnPrefix(MacdTail(xs, fast, slow), n - start, signal, i - start);
      }
    }
  }

  lemma MacdIsStable(xs: seq<real>, fast: int, slow: int, signal: int, k: nat)
    requires k < |xs| && MacdDefined(|xs|, fast, slow, signal)
    ensures var upto, full := MacdSpec(xs[..k + 1], fast, slow, signal), MacdSpec(xs, fast, slow, signal);
      && |upto.macd| == |upto.signal| == |upto.histogram| == k + 1
      && |full.macd| == |full.signal| == |full.histogram| == |xs|
      && upto.macd[k] == full.macd[k] && upto.signal[k] == full.signal[k]
      && upto.histogram[k] == full.histogram[k]
  {
    SignalOnPrefix(xs, k + 1, fast, slow, signal, k);
    if MacdStart(fast, slow) <= k {
      EmaValueOnPrefix(xs, k + 1, fast, k);
      EmaValueOnPrefix(xs, k + 1, slow, k);
    }
  }

  lemma KTailOnPrefix(highs: seq<real>, lows: seq<real>, closes: seq<real>, n: nat, period: int)
    requires |highs| == |lows| == |closes| && 0 < period <= n + 1 && n <= |closes|
    ensures KTail(highs[..n], lows[..n], closes[..n], period)
         == KTail(highs, lows, closes, period)[..n - (period - 1)]
  {
    forall j | 0 <= j < n - (period - 1)
      ensures KTail(highs[..n], lows[..n], closes[..n], period)[j] == KTail(highs, lows, closes, period)[j]
    {
      KValueOnPrefix(highs, lows, closes, n, period, period - 1 + j);
    }
  }

  lemma StochasticIsStable(highs: seq<real>, lows: seq<real>, closes: seq<real>, period: int, dPeriod: int, k: nat)
    requires |highs| == |lows| == |closes| && k < |closes| && StochasticDefined(|closes|, period, dPeriod)
    ensures var n := k + 1;
      var upto := StochasticSpec(highs[..n], lows[..n], closes[..n], period, dPeriod);
      var full := StochasticSpec(highs, lows, closes, period, dPeriod);
      && |upto.k| == |upto.d| == n && |full.k| == |full.d| == |closes|
      && upto.k[k] == full.k[k] && upto.d[k] == full.d[k]
  {
    if period <= k + 1 {
      KValueOnPrefix(highs, lows, closes, k + 1, period, k);
      KTailOnPrefix(highs, lows, closes, k + 1, period);
      SmaOnPrefix(KTail(highs, lows, closes, period), k + 1 - (period - 1), dPeriod, k - (period - 1));
    }
  }

  lemma BandsAreStable(xs: seq<real>, period: int, numStd: real, sqrt: real -> real, k: nat)
    requires 0 < period && k < |xs|
    ensures var upto, full := BandsSpec(xs[..k + 1], period, numStd, sqrt), BandsSpec(xs, period, numStd, sqrt);
      && |upto.upper| == |upto.middle| == |upto.lower| == k + 1
      && |full.upper| == |full.middle| == |full.lower| == |xs|
      && upto.upper[k] == full.upper[k] && upto.middle[k] == full.middle[k] && upto.lower[k] == full.lower[k]
  {
    SmaOnPrefix(xs, k + 1, period, k);
    if period <= k + 1 {
      SquaresOnPrefix(xs, k + 1, k + 1 - period, k + 1, SmaAt(xs, period, k).value);
      assert BandWidth(xs[..k + 1], period, numStd, sqrt, k) == BandWidth(xs, period, numStd, sqrt, k);
    }
  }

  lemma AtrIsStable(highs: seq<real>, lows: seq<real>, closes: seq<real>, period: int, k: nat)
    requires |highs| == |lows| == |closes| && 0 < period && k < |closes|
    ensures AtrSeries(highs[..k + 1], lows[..k + 1], closes[..k + 1], period)[k]
         == AtrSeries(highs, lows, closes, period)[k]
  {
    if period <= k {
      AtrOnPrefix(highs, lows, closes, k + 1, period, k);
    }
  }

  lemma ObvIsStable(closes: seq<real>, volumes: seq<real>, k: nat)
    requires |closes| == |volumes| && k < |closes|
    ensures ObvSeries(closes[..k + 1], volumes[..k + 1])[k] == ObvSeries(closes, volumes)[k]
  {
    ObvOnPrefix(closes, volumes, k + 1, k);
  }

  // ---- The negative periods of the average true range --------------------------------------------

  /** Bars that reach from 0 to 1 and close at 0: every true range is 1. */
  function Constantly(x: real, n: nat): (r: seq<real>)
    ensures |r| == n
  {
    seq(n, _ => x)
  }

  lemma {:induction false} UnitRanges(n: nat, count: nat)
    requires count < n
    ensures RangeSum(Constantly(1.0, n), Constantly(0.0, n), Constantly(0.0, n), count) == count as real
  {
    if count > 0 {
      UnitRanges(n, count - 1);
    }
  }

  function UnitWrapped(n: nat, m: int, k: nat): real
    requires 0 < m < n && k < m + n
  {
    WrappedValue(Constantly(1.0, n), Constantly(0.0, n), Constantly(0.0, n), m, k)
  }

  lemma NegativeDivision(a: real, b: real, m: int)
    requires m > 0 && a < b
    ensures b / (-m) as real < a / (-m) as real
  {
    var d := m as real;
    var x, y := a / (-m) as real, b / (-m) as real;
    assert x * d == -a && y * d == -b;
    CancelFactor(y, x, d);
  }

  lemma WilderStepIsStrict(low: real, high: real, range: real, m: int)
    requires m > 0 && low < high
    ensures WilderStep(low, range, -m) < WilderStep(high, range, -m)
  {
    var d := (-m - 1) as real;
    assert low * d > high * d by {
      assert (high - low) * d < 0.0;
    }
    NegativeDivision(high * d + range, low * d + range, m);
  }

  /** A longer history starts the wrapped smoothing lower, and no step makes up for it. */
  lemma {:induction false} LongerIsLower(n: nat, longer: nat, m: int, k: nat)
    requires 0 < m < n < longer && k < m + n
    ensures UnitWrapped(longer, m, k) < UnitWrapped(n, m, k)
  {
    if k == 0 {
      UnitRanges(n, n - 1 - m);
      UnitRanges(longer, longer - 1 - m);
      NegativeDivision((n - 1 - m) as real, (longer - 1 - m) as real, m);
    } else {
      LongerIsLower(n, longer, m, k - 1);
      WilderStepIsStrict(UnitWrapped(longer, m, k - 1), UnitWrapped(n, m, k - 1), 1.0, m);
    }
  }

  function UnitAtr(n: nat, m: int): (r: Series)
    requires 0 < m < n
    ensures |r| == n
  {
    AtrSpec(Constantly(1.0, n), Constantly(0.0, n), Constantly(0.0, n), -m)
  }

  lemma UnitAtrAt(n: nat, m: int, k: nat)
    requires 0 < m < n && k < n
    ensures UnitAtr(n, m)[k].Some? && UnitAtr(n, m)[k].value == UnitWrapped(n, m, m + k)
  {
  }

  lemma ConstantPrefix(x: real, n: nat, k: nat)
    requires k <= n
    ensures Constantly(x, n)[..k] == Constantly(x, k)
  {
  }

  /** For every negative period, and every two lengths on which it is computed, later bars change entry k. */
  lemma WrappedAtrLooksAhead(n: nat, m: int, k: nat)
    requires 0 < m < k + 1 < n
    ensures var highs, lows, closes := Constantly(1.0, n), Constantly(0.0, n), Constantly(0.0, n);
      AtrSpec(highs[..k + 1], lows[..k + 1], closes[..k + 1], -m)[k] != AtrSpec(highs, lows, closes, -m)[k]
  {
    assert UnitAtr(k + 1, m)[k] != UnitAtr(n, m)[k] by {
      LongerIsLower(k + 1, n, m, m + k);
      UnitAtrAt(k + 1, m, k);
      UnitAtrAt(n, m, k);
    }
    ConstantPrefix(1.0, n, k + 1);
    ConstantPrefix(0.0, n, k + 1);
  }

  ghost predicate AtrEntryIsStable(highs: seq<real>, lows: seq<real>, closes: seq<real>, period: int, k: nat)
    requires |highs| == |lows| == |closes| && k < |closes|
  {
    var n := k + 1;
    AtrDefined(n, period) && AtrDefined(|closes|, period) ==>
      AtrSpec(highs[..n], lows[..n], closes[..n], period)[k] == AtrSpec(highs, lows, closes, period)[k]
  }

  /** Wherever both are computed, entry k on the first k + 1 bars is entry k on all of them. */
  ghost predicate AtrStable(period: int) {
    forall highs, lows, closes, k: nat | |highs| == |lows| == |closes| && k < |closes| ::
      AtrEntryIsStable(highs, lows, closes, period, k)
  }

  /** The exact periods: all but the negative ones.  Zero always raises, except on empty input. */
  lemma AtrStableExactly(period: int)
    ensures AtrStable(period) <==> period >= 0
  {
    if period >= 0 {
      forall highs: seq<real>, lows: seq<real>, closes: seq<real>, k: nat
        | |highs| == |lows| == |closes| && k < |closes|
        ensures AtrEntryIsStable(highs, lows, closes, period, k)
      {
        if period > 0 {
          AtrIsStable(highs, lows, closes, period, k);
        }
      }
    } else {
      var m, n := -period, -period + 2;
      WrappedAtrLooksAhead(n, m, m);
      assert !AtrEntryIsStable(Constantly(1.0, n), Constantly(0.0, n), Constantly(0.0, n), period, m);
    }
  }

  // ---- Ranges ------------------------------------------------------------------------------------

  ghost predicate Between(xs: seq<real>, lo: nat, hi: nat, low: real, high: real) {
    hi <= |xs| && forall j :: lo <= j < hi ==> low <= xs[j] <= high
  }

  lemma {:induction false} WindowBounds(xs: seq<real>, lo: nat, hi: nat)
    requires lo < hi <= |xs|
    ensures Between(xs, lo, hi, WindowMin(xs, lo, hi), WindowMax(xs, lo, hi))
  {
    if lo + 1 < hi {
      WindowBounds(xs, lo, hi - 1);
    }
  }

  lemma {:induction false} SumBetween(xs: seq<real>, lo: nat, hi: nat, low: real, high: real)
    requires lo <= hi && Between(xs, lo, hi, low, high)
    ensures low * (hi - lo) as real <= WindowSum(xs, lo, hi) <= high * (hi - lo) as real
  {
    if lo < hi {
      SumBetween(xs, lo, hi - 1, low, high);
      OneMoreTime(low, hi - 1 - lo);
      OneMoreTime(high, hi - 1 - lo);
    } else {
      assert (hi - lo) as real == 0.0;
    }
  }

  lemma OneMoreTime(x: real, n: int)
    ensures x * (n + 1) as real == x * n as real + x
  {
  }

  lemma QuotientBetween(num: real, d: real, low: real, high: real)
    requires d > 0.0 && low * d <= num <= high * d
    ensures low <= num / d <= high
  {
    var q := num / d;
    assert q * d == num;
    CancelFactor(low, q, d);
    CancelFactor(q, high, d);
  }

  lemma MeanBetween(sum: real, n: int, low: real, high: real)
    requires n > 0 && low * n as real <= sum <= high * n as real
    ensures low <= Mean(sum, n) <= high
  {
    QuotientBetween(sum, n as real, low, high);
  }

  lemma CancelFactor(a: real, b: real, c: real)
    requires c > 0.0
    ensures a * c <= b * c ==> a <= b
    ensures a * c < b * c ==> a < b
    ensures a * c == b * c ==> a == b
  {
  }

  lemma EmaStepBetween(x: real, prev: real, period: int, low: real, high: real)
    requires period > 0 && low <= x <= high && low <= prev <= high
    ensures low <= EmaStep(x, prev, period) <= high
  {
    var p := (period + 1) as real;
    var k := 2.0 / p;
    assert k * p == 2.0;
    CancelFactor(0.0, k, p);
    CancelFactor(k, 1.0, p);
    assert 0.0 <= k <= 1.0;
    MixBetween(x, prev, k, low, high);
  }

  lemma MixBetween(x: real, y: real, k: real, low: real, high: real)
    requires 0.0 <= k <= 1.0 && low <= x <= high && low <= y <= high
    ensures low <= Weighted(x, k) + Weighted(y, 1.0 - k) <= high
  {
    var m := 1.0 - k;
    WeightedMonotone(low, x, k);
    WeightedMonotone(x, high, k);
    WeightedMonotone(low, y, m);
    WeightedMonotone(y, high, m);
    WeightsAddUp(low, k, m);
    WeightsAddUp(high, k, m);
  }

  lemma WeightedMonotone(a: real, b: real, weight: real)
    requires weight >= 0.0 && a <= b
    ensures Weighted(a, weight) <= Weighted(b, weight)
  {
  }

  lemma WeightsAddUp(x: real, k: real, m: real)
    requires k + m == 1.0
    ensures Weighted(x, k) + Weighted(x, m) == x
  {
    assert x * k + x * m == x * (k + m);
  }

  lemma {:induction false} EmaBetween(xs: seq<real>, period: int, i: nat, low: real, high: real)
    requires 0 < period <= i + 1 <= |xs| && Between(xs, 0, i + 1, low, high)
    ensures low <= EmaValue(xs, period, i) <= high
  {
    if i + 1 == period {
      SumBetween(xs, 0, period, low, high);
      MeanBetween(WindowSum(xs, 0, period), period, low, high);
    } else {
      EmaBetween(xs, period, i - 1, low, high);
      EmaStepBetween(xs[i], EmaValue(xs, period, i - 1), period, low, high);
    }
  }

  /** The exponential average never leaves the range of the inputs it has seen. */
  lemma EmaStaysInRange(xs: seq<real>, period: int, i: nat)
    requires 0 < period <= i + 1 <= |xs|
    ensures WindowMin(xs, 0, i + 1) <= EmaValue(xs, period, i) <= WindowMax(xs, 0, i + 1)
  {
    WindowBounds(xs, 0, i + 1);
    EmaBetween(xs, period, i, WindowMin(xs, 0, i + 1), WindowMax(xs, 0, i + 1));
  }

  lemma RsiOfInRange(avgGain: real, avgLoss: real)
    requires avgGain >= 0.0 && avgLoss >= 0.0
    ensures 0.0 <= RsiOf(avgGain, avgLoss) <= 100.0
  {
    if avgLoss > 0.0 {
      var s := avgGain / avgLoss;
      assert s * avgLoss == avgGain;
      CancelFactor(0.0, s, avgLoss);
      var t := 100.0 / (1.0 + s);
      assert t * (1.0 + s) == 100.0;
      CancelFactor(0.0, t, 1.0 + s);
      CancelFactor(t, 100.0, 1.0 + s);
    }
  }

  lemma RsiStaysInRange(xs: seq<real>, period: int, i: nat)
    requires 0 < period <= i < |xs|
    ensures RsiAt(xs, period, i).Some? && 0.0 <= RsiAt(xs, period, i).value <= 100.0
  {
    RsiOfInRange(AvgGain(xs, period, i), AvgLoss(xs, period, i));
  }

  ghost predicate ClosesInside(highs: seq<real>, lows: seq<real>, closes: seq<real>) {
    && |highs| == |lows| == |closes|
    && forall j :: 0 <= j < |closes| ==> lows[j] <= closes[j] <= highs[j]
  }

  lemma KStaysInRange(highs: seq<real>, lows: seq<real>, closes: seq<real>, period: int, i: nat)
    requires ClosesInside(highs, lows, closes) && 0 < period <= i + 1 <= |closes|
    ensures 0.0 <= KValue(highs, lows, closes, period, i) <= 100.0
  {
    var high := WindowMax(highs, i - period + 1, i + 1);
    var low := WindowMin(lows, i - period + 1, i + 1);
    WindowBounds(highs, i - period + 1, i + 1);
    WindowBounds(lows, i - period + 1, i + 1);
    assert lows[i] <= closes[i] <= highs[i];
    PercentKInRange(closes[i], high, low);
  }

  lemma PercentKInRange(close: real, high: real, low: real)
    requires low <= close <= high
    ensures 0.0 <= PercentK(close, high, low) <= 100.0
  {
    var d, num := high - low, 100.0 * (close - low);
    if d != 0.0 {
      QuotientBetween(num, d, 0.0, 100.0);
      assert PercentK(close, high, low) == num / d;
    }
  }

  // ---- Rescaling ---------------------------------------------------------------------------------

  lemma TimesAdds(c: real, x: real, y: real)
    ensures Times(c, x + y) == Times(c, x) + Times(c, y)
    ensures Times(c, x - y) == Times(c, x) - Times(c, y)
  {
  }

  lemma TimesKeepsOrder(c: real, x: real, y: real)
    requires c > 0.0
    ensures Times(c, x) < Times(c, y) <==> x < y
    ensures Times(c, 0.0) == 0.0
  {
  }

  function Scale(xs: seq<real>, c: real): (r: seq<real>)
    ensures |r| == |xs|
  {
    seq(|xs|, i requires 0 <= i < |xs| => Times(c, xs[i]))
  }

  lemma MoveScales(xs: seq<real>, c: real, i: nat)
    requires c > 0.0 && 0 < i < |xs|
    ensures GainAt(Scale(xs, c), i) == Times(c, GainAt(xs, i))
    ensures LossAt(Scale(xs, c), i) == Times(c, LossAt(xs, i))
  {
    var d := xs[i] - xs[i - 1];
    TimesAdds(c, xs[i], xs[i - 1]);
    TimesAdds(c, 0.0, d);
    TimesKeepsOrder(c, 0.0, d);
    TimesKeepsOrder(c, d, 0.0);
  }

  lemma {:induction false} MoveSumsScale(xs: seq<real>, c: real, n: nat)
    requires c > 0.0 && n < |xs|
    ensures GainSum(Scale(xs, c), n) == Times(c, GainSum(xs, n))
    ensures LossSum(Scale(xs, c), n) == Times(c, LossSum(xs, n))
  {
    if n == 0 {
      TimesKeepsOrder(c, 0.0, 0.0);
    } else {
      MoveSumsScale(xs, c, n - 1);
      MoveScales(xs, c, n);
      TimesAdds(c, GainSum(xs, n - 1), GainAt(xs, n));
      TimesAdds(c, LossSum(xs, n - 1), LossAt(xs, n));
    }
  }

  lemma MeanScales(sum: real, n: int, c: real)
    requires n > 0
    ensures Mean(Times(c, sum), n) == Times(c, Mean(sum, n))
  {
    var m := sum / n as real;
    assert m * n as real == sum;
    assert (c * m) * n as real == c * sum;
    CancelFactor(c * sum / n as real, c * m, n as real);
  }

  lemma WilderScales(prev: real, x: real, period: int, c: real)
    requires period > 0
    ensures WilderStep(Times(c, prev), Times(c, x), period) == Times(c, WilderStep(prev, x, period))
  {
    var p := (period - 1) as real;
    assert c * prev * p + c * x == c * (prev * p + x);
    MeanScales(prev * p + x, period, c);
  }

  lemma {:induction false} AveragesScale(xs: seq<real>, c: real, period: int, i: nat)
    requires c > 0.0 && 0 < period <= i < |xs|
    ensures AvgGain(Scale(xs, c), period, i) == Times(c, AvgGain(xs, period, i))
    ensures AvgLoss(Scale(xs, c), period, i) == Times(c, AvgLoss(xs, period, i))
  {
    if i == period {
      MoveSumsScale(xs, c, period);
      MeanScales(GainSum(xs, period), period, c);
      MeanScales(LossSum(xs, period), period, c);
    } else {
      AveragesScale(xs, c, period, i - 1);
      MoveScales(xs, c, i);
      WilderScales(AvgGain(xs, period, i - 1), GainAt(xs, i), period, c);
      WilderScales(AvgLoss(xs, period, i - 1), LossAt(xs, i), period, c);
    }
  }

  lemma RatioScales(a: real, b: real, c: real)
    requires c > 0.0 && b != 0.0
    ensures Times(c, b) != 0.0 && Times(c, a) / Times(c, b) == a / b
  {
    var q := a / b;
    assert q * b == a;
    assert c * a == q * (c * b);
  }

  lemma RsiOfScales(gain: real, loss: real, c: real)
    requires c > 0.0 && gain >= 0.0 && loss >= 0.0
    ensures Times(c, gain) >= 0.0 && Times(c, loss) >= 0.0
    ensures RsiOf(Times(c, gain), Times(c, loss)) == RsiOf(gain, loss)
  {
    if loss != 0.0 {
      RatioScales(gain, loss, c);
    }
  }

  /** Changing the unit of price does not change RSI. */
  lemma RsiIgnoresScale(xs: seq<real>, c: real, period: int, i: nat)
    requires c > 0.0 && 0 < period && i < |xs|
    ensures RsiAt(Scale(xs, c), period, i) == RsiAt(xs, period, i)
  {
    if period <= i {
      AveragesScale(xs, c, period, i);
      RsiOfScales(AvgGain(xs, period, i), AvgLoss(xs, period, i), c);
    }
  }

  lemma {:induction false} WindowScales(xs: seq<real>, c: real, lo: nat, hi: nat)
    requires c > 0.0 && lo < hi <= |xs|
    ensures WindowMax(Scale(xs, c), lo, hi) == Times(c, WindowMax(xs, lo, hi))
    ensures WindowMin(Scale(xs, c), lo, hi) == Times(c, WindowMin(xs, lo, hi))
  {
    if lo + 1 < hi {
      WindowScales(xs, c, lo, hi - 1);
      TimesKeepsOrder(c, WindowMax(xs, lo, hi - 1), xs[hi - 1]);
      TimesKeepsOrder(c, xs[hi - 1], WindowMin(xs, lo, hi - 1));
    }
  }

  lemma PercentKScales(close: real, high: real, low: real, c: real)
    requires c > 0.0
    ensures PercentK(Times(c, close), Times(c, high), Times(c, low)) == PercentK(close, high, low)
  {
    TimesAdds(c, high, low);
    TimesAdds(c, close, low);
    if high - low != 0.0 {
      RatioScales(100.0 * (close - low), high - low, c);
      assert 100.0 * Times(c, close - low) == Times(c, 100.0 * (close - low));
    } else {
      TimesKeepsOrder(c, 0.0, 0.0);
    }
  }

  /** Nor does it change %K. */
  lemma KIgnoresScale(highs: seq<real>, lows: seq<real>, closes: seq<real>, c: real, period: int, i: nat)
    requires |highs| == |lows| == |closes| && c > 0.0 && 0 < period <= i + 1 <= |closes|
    ensures KValue(Scale(highs, c), Scale(lows, c), Scale(closes, c), period, i)
         == KValue(highs, lows, closes, period, i)
  {
    WindowScales(highs, c, i - period + 1, i + 1);
    WindowScales(lows, c, i - period + 1, i + 1);
    PercentKScales(closes[i], WindowMax(highs, i - period + 1, i + 1), WindowMin(lows, i - period + 1, i + 1), c);
  }
}
