/**
  What the indicators say about their inputs, in plain arithmetic on the values of their series: averages
  times their lengths are sums, each smoothing weighs the new value as documented, the oscillators are
  the shares of the moves they claim to be, and the ends of the RSI scale mean what they should.
*/
module IndicatorMeaning {
  import opened Wrappers
  import opened Rounding
  import opened Sums
  import opened Indicators
  import opened IndicatorLaws

  // ---- Averages ----------------------------------------------------------------------------------

  lemma {:induction false} WindowIsSum(xs: seq<real>, lo: nat, hi: nat)
    requires lo <= hi <= |xs|
    ensures WindowSum(xs, lo, hi) == SumBy(xs[lo..hi], (x: real) => x)
  {
    if lo < hi {
      WindowIsSum(xs, lo, hi - 1);
      SumSnoc(xs[lo..hi - 1], xs[hi - 1], (x: real) => x);
      assert xs[lo..hi] == xs[lo..hi - 1] + [xs[hi - 1]];
    }
  }

  lemma MeanTimes(sum: real, n: int)
    requires n != 0
    ensures Times(Mean(sum, n), n as real) == sum
  {
  }

  /** A moving average times its length is the sum of the last values; before there are enough there is none. */
  lemma SmaIsAverage(xs: seq<real>, period: int, i: nat)
    requires 0 < period && i < |xs|
    ensures SmaSeries(xs, period)[i].Some? <==> period <= i + 1
    ensures period <= i + 1 ==>
      Times(SmaSeries(xs, period)[i].value, period as real) == SumBy(xs[i + 1 - period..i + 1], (x: real) => x)
  {
    if period <= i + 1 {
      WindowIsSum(xs, i + 1 - period, i + 1);
      MeanTimes(WindowSum(xs, i + 1 - period, i + 1), period);
    }
  }

  lemma StepWeighs(x: real, prev: real, period: int)
    requires period > 0
    ensures Times(EmaStep(x, prev, period), (period + 1) as real) == 2.0 * x + Times(prev, (period - 1) as real)
  {
    var n := (period + 1) as real;
    var k := 2.0 / n;
    assert k * n == 2.0;
    assert (1.0 - k) * n == (period - 1) as real;
    assert x * k * n == x * (k * n);
    assert prev * (1.0 - k) * n == prev * ((1.0 - k) * n);
  }

  /** The exponential mean starts at the mean of the first values and then weighs the new one 2 in period + 1. */
  lemma EmaWeighs(xs: seq<real>, period: int, i: nat)
    requires 0 < period && i < |xs|
    ensures var ema := EmaSeries(xs, period);
      && (ema[i].Some? <==> period <= i + 1)
      && (period == i + 1 ==> Times(ema[i].value, period as real) == SumBy(xs[..period], (x: real) => x))
      && (period < i + 1 ==>
            && ema[i - 1].Some?
            && Times(ema[i].value, (period + 1) as real) == 2.0 * xs[i] + Times(ema[i - 1].value, (period - 1) as real))
  {
    if period == i + 1 {
      WindowIsSum(xs, 0, period);
      MeanTimes(WindowSum(xs, 0, period), period);
    } else if period < i + 1 {
      StepWeighs(xs[i], EmaValue(xs, period, i - 1), period);
    }
  }

  /** The MACD line is the fast mean less the slow one, the histogram that line less its signal. */
  lemma MacdIsDifference(xs: seq<real>, fast: int, slow: int, signal: int, i: nat)
    requires i < |xs| && MacdDefined(|xs|, fast, slow, signal)
    ensures var lines := MacdSpec(xs, fast, slow, signal);
      && |lines.macd| == |lines.signal| == |lines.histogram| == |xs|
      && (lines.macd[i].Some? <==> EmaSeries(xs, fast)[i].Some? && EmaSeries(xs, slow)[i].Some?)
      && (lines.macd[i].Some? ==>
            lines.macd[i].value == EmaSeries(xs, fast)[i].value - EmaSeries(xs, slow)[i].value)
      && (lines.histogram[i].Some? <==> lines.macd[i].Some? && lines.signal[i].Some?)
      && (lines.histogram[i].Some? ==> lines.histogram[i].value == lines.macd[i].value - lines.signal[i].value)
  {
  }

  /** The MACD values that exist, as numbers. */
  function Values(line: Series, start: nat): (r: seq<real>)
    requires start <= |line| && forall j :: start <= j < |line| ==> line[j].Some?
    ensures |r| == |line| - start
  {
    seq(|line| - start, j requires 0 <= j < |line| - start => line[start + j].value)
  }

  /** The signal line is the exponential mean of the MACD line from where that begins. */
  lemma SignalIsEmaOfMacd(xs: seq<real>, fast: int, slow: int, signal: int, i: nat)
    requires 0 < fast && 0 < slow && 0 < signal && i < |xs|
    ensures var lines, start := MacdSpec(xs, fast, slow, signal), (if fast > slow then fast else slow) - 1;
      && |lines.macd| == |lines.signal| == |xs|
      && (forall j :: start <= j < |xs| ==> lines.macd[j].Some?)
      && (i < start ==> lines.signal[i].None?)
      && (start <= i ==> lines.signal[i] == EmaSeries(Values(lines.macd, start), signal)[i - start])
  {
    var lines, start := MacdSpec(xs, fast, slow, signal), MacdStart(fast, slow);
    if start <= i {
      assert Values(lines.macd, start) == MacdTail(xs, fast, slow);
    }
  }

  // ---- The relative strength index ---------------------------------------------------------------

  lemma ShareOfRsi(avgGain: real, avgLoss: real)
    requires avgGain >= 0.0 && avgLoss >= 0.0 && avgGain + avgLoss > 0.0
    ensures Times(RsiOf(avgGain, avgLoss), avgGain + avgLoss) == 100.0 * avgGain
  {
    if avgLoss != 0.0 {
      var rs := avgGain / avgLoss;
      var d := 1.0 + rs;
      assert rs * avgLoss == avgGain;
      assert d * avgLoss == avgGain + avgLoss;
      assert rs >= 0.0;
      var q := 100.0 / d;
      assert q * d == 100.0;
      assert q * (avgGain + avgLoss) == q * d * avgLoss == 100.0 * avgLoss;
      assert (100.0 - q) * (avgGain + avgLoss) == 100.0 * (avgGain + avgLoss) - q * (avgGain + avgLoss);
    }
  }

  /** The index is the share of the average rise, in per cent, in the average rise and fall together. */
  lemma RsiIsShare(xs: seq<real>, period: int, i: nat)
    requires 0 < period && i < |xs|
    ensures RsiSeries(xs, period)[i].Some? <==> period <= i
    ensures period <= i ==>
      var up, down, rsi := AvgGain(xs, period, i), AvgLoss(xs, period, i), RsiSeries(xs, period)[i].value;
      if up + down == 0.0 then rsi == 100.0 else Times(rsi, up + down) == 100.0 * up
  {
    if period <= i {
      var up, down := AvgGain(xs, period, i), AvgLoss(xs, period, i);
      if up + down > 0.0 {
        ShareOfRsi(up, down);
      }
    }
  }

  function Rise(xs: seq<real>, i: nat): real
    requires 0 < i < |xs|
  {
    if xs[i] > xs[i - 1] then xs[i] - xs[i - 1] else 0.0
  }

  function Fall(xs: seq<real>, i: nat): real
    requires 0 < i < |xs|
  {
    if xs[i] < xs[i - 1] then xs[i - 1] - xs[i] else 0.0
  }

  function Moves(xs: seq<real>, n: nat, move: (seq<real>, nat) --> real): seq<real>
    requires n < |xs| && forall j :: 0 < j < |xs| ==> move.requires(xs, j)
  {
    seq(n, j requires 0 <= j < n => move(xs, j + 1))
  }

  lemma WilderWeighs(prev: real, x: real, period: int)
    requires period != 0
    ensures Times(WilderStep(prev, x, period), period as real) == Times(prev, (period - 1) as real) + x
  {
  }

  lemma {:induction false} SumOfMoves(xs: seq<real>, n: nat)
    requires n < |xs|
    ensures GainSum(xs, n) == SumBy(Moves(xs, n, Rise), (x: real) => x)
    ensures LossSum(xs, n) == SumBy(Moves(xs, n, Fall), (x: real) => x)
  {
    if n > 0 {
      SumOfMoves(xs, n - 1);
      SumSnoc(Moves(xs, n - 1, Rise), Rise(xs, n), (x: real) => x);
      SumSnoc(Moves(xs, n - 1, Fall), Fall(xs, n), (x: real) => x);
      assert Moves(xs, n, Rise) == Moves(xs, n - 1, Rise) + [Rise(xs, n)];
      assert Moves(xs, n, Fall) == Moves(xs, n - 1, Fall) + [Fall(xs, n)];
    }
  }

  /** The two averages start as means of the first rises and falls, and then weigh the new move 1 in period. */
  lemma AveragesOfMoves(xs: seq<real>, period: int, i: nat)
    requires 0 < period <= i < |xs|
    ensures i == period ==>
      && Times(AvgGain(xs, period, i), period as real) == SumBy(Moves(xs, period, Rise), (x: real) => x)
      && Times(AvgLoss(xs, period, i), period as real) == SumBy(Moves(xs, period, Fall), (x: real) => x)
    ensures i > period ==>
      && Times(AvgGain(xs, period, i), period as real)
         == Times(AvgGain(xs, period, i - 1), (period - 1) as real) + Rise(xs, i)
      && Times(AvgLoss(xs, period, i), period as real)
         == Times(AvgLoss(xs, period, i - 1), (period - 1) as real) + Fall(xs, i)
  {
    if i == period {
      SumOfMoves(xs, period);
      MeanTimes(GainSum(xs, period), period);
      MeanTimes(LossSum(xs, period), period);
    } else {
      WilderWeighs(AvgGain(xs, period, i - 1), GainAt(xs, i), period);
      WilderWeighs(AvgLoss(xs, period, i - 1), LossAt(xs, i), period);
    }
  }

  // ---- The ends of the scale ---------------------------------------------------------------------

  /** Some close among the last ones up to i lies above (below) the one before it. */
  predicate SomeRise(xs: seq<real>, from: nat, i: nat)
    requires i < |xs|
  {
    exists j :: from <= j <= i && 0 < j && xs[j] > xs[j - 1]
  }

  predicate SomeFall(xs: seq<real>, from: nat, i: nat)
    requires i < |xs|
  {
    exists j :: from <= j <= i && 0 < j && xs[j] < xs[j - 1]
  }

  lemma {:induction false} SumsOfMovesVanish(xs: seq<real>, n: nat)
    requires n < |xs|
    ensures GainSum(xs, n) > 0.0 <==> SomeRise(xs, 1, n)
    ensures LossSum(xs, n) > 0.0 <==> SomeFall(xs, 1, n)
  {
    if n > 0 {
      SumsOfMovesVanish(xs, n - 1);
      SomeMoveExtends(xs, n);
    }
  }

  lemma SomeMoveExtends(xs: seq<real>, i: nat)
    requires 0 < i < |xs|
    ensures SomeRise(xs, 1, i) <==> SomeRise(xs, 1, i - 1) || xs[i] > xs[i - 1]
    ensures SomeFall(xs, 1, i) <==> SomeFall(xs, 1, i - 1) || xs[i] < xs[i - 1]
  {
    if xs[i] > xs[i - 1] {
      assert SomeRise(xs, 1, i);
    }
    if xs[i] < xs[i - 1] {
      assert SomeFall(xs, 1, i);
    }
  }

  lemma PositiveQuotient(x: real, n: int)
    requires n > 0
    ensures Mean(x, n) > 0.0 <==> x > 0.0
  {
    var q := x / n as real;
    assert q * n as real == x;
  }

  lemma PositiveStep(prev: real, x: real, period: int)
    requires period > 0 && prev >= 0.0 && x >= 0.0
    ensures WilderStep(prev, x, period) > 0.0 <==> x > 0.0 || (period > 1 && prev > 0.0)
  {
    var sum := prev * (period - 1) as real + x;
    if period > 1 {
      assert prev > 0.0 <==> prev * (period - 1) as real > 0.0;
    }
    PositiveQuotient(sum, period);
  }

  /** From where the averages remember: a period of one forgets everything but the last move. */
  function Remembered(period: int, i: nat): nat { if period == 1 then i else 1 }

  lemma LastMove(xs: seq<real>, i: nat)
    requires 0 < i < |xs|
    ensures SomeRise(xs, i, i) <==> xs[i] > xs[i - 1]
    ensures SomeFall(xs, i, i) <==> xs[i] < xs[i - 1]
  {
  }

  lemma {:induction false} AveragesVanish(xs: seq<real>, period: int, i: nat)
    requires 0 < period <= i < |xs|
    ensures AvgGain(xs, period, i) > 0.0 <==> SomeRise(xs, Remembered(period, i), i)
    ensures AvgLoss(xs, period, i) > 0.0 <==> SomeFall(xs, Remembered(period, i), i)
  {
    LastMove(xs, i);
    if i == period {
      SumsOfMovesVanish(xs, period);
      PositiveQuotient(GainSum(xs, period), period);
      PositiveQuotient(LossSum(xs, period), period);
    } else {
      AveragesVanish(xs, period, i - 1);
      SomeMoveExtends(xs, i);
      PositiveStep(AvgGain(xs, period, i - 1), GainAt(xs, i), period);
      PositiveStep(AvgLoss(xs, period, i - 1), LossAt(xs, i), period);
    }
  }

  /**
    On the closes alone: the index is 100 exactly when none of the remembered moves is a fall, and 0 exactly
    when one is and none is a rise.
  */
  lemma RsiEndsExactly(xs: seq<real>, period: int, i: nat)
    requires 0 < period <= i < |xs|
    ensures RsiSeries(xs, period)[i] == Some(100.0) <==> !SomeFall(xs, Remembered(period, i), i)
    ensures RsiSeries(xs, period)[i] == Some(0.0)
       <==> SomeFall(xs, Remembered(period, i), i) && !SomeRise(xs, Remembered(period, i), i)
  {
    var up, down := AvgGain(xs, period, i), AvgLoss(xs, period, i);
    AveragesVanish(xs, period, i);
    RsiIsShare(xs, period, i);
    EndsOfShare(RsiSeries(xs, period)[i].value, up, down);
  }

  lemma EndsOfShare(rsi: real, up: real, down: real)
    requires up >= 0.0 && down >= 0.0
    requires if up + down == 0.0 then rsi == 100.0 else Times(rsi, up + down) == 100.0 * up
    ensures rsi == 100.0 <==> down == 0.0
    ensures rsi == 0.0 <==> down > 0.0 && up == 0.0
  {
    if up + down > 0.0 {
      assert (100.0 - rsi) * (up + down) == 100.0 * down;
      CancelFactor(100.0 - rsi, 0.0, up + down);
      CancelFactor(rsi, 0.0, up + down);
    }
  }

  // ---- Ranges, bands and volume ------------------------------------------------------------------

  ghost predicate GreatestOf(x: real, xs: seq<real>) { x in xs && forall y :: y in xs ==> y <= x }
  ghost predicate LeastOf(x: real, xs: seq<real>) { x in xs && forall y :: y in xs ==> x <= y }

  lemma {:induction false} WindowEnds(xs: seq<real>, lo: nat, hi: nat)
    requires lo < hi <= |xs|
    ensures GreatestOf(WindowMax(xs, lo, hi), xs[lo..hi]) && LeastOf(WindowMin(xs, lo, hi), xs[lo..hi])
  {
    if lo + 1 == hi {
      assert xs[lo..hi] == [xs[lo]];
    } else {
      WindowEnds(xs, lo, hi - 1);
      assert xs[lo..hi] == xs[lo..hi - 1] + [xs[hi - 1]];
    }
  }

  lemma ShareOfRange(close: real, high: real, low: real)
    requires high != low
    ensures Times(PercentK(close, high, low), high - low) == 100.0 * (close - low)
  {
  }

  /** %K is where the close stands between the least low and the greatest high of the window, in per cent. */
  lemma KIsPlaceInRange(highs: seq<real>, lows: seq<real>, closes: seq<real>, period: int, dPeriod: int, i: nat,
                        high: real, low: real)
    requires |highs| == |lows| == |closes| && i < |closes| && StochasticDefined(|closes|, period, dPeriod)
    requires period <= i + 1 ==> GreatestOf(high, highs[i + 1 - period..i + 1])
                                 && LeastOf(low, lows[i + 1 - period..i + 1])
    ensures var k := StochasticSpec(highs, lows, closes, period, dPeriod).k;
      && |k| == |closes| && (k[i].Some? <==> period <= i + 1)
      && (period <= i + 1 ==>
            if high == low then k[i].value == 50.0 else Times(k[i].value, high - low) == 100.0 * (closes[i] - low))
  {
    if period <= i + 1 {
      WindowEnds(highs, i + 1 - period, i + 1);
      WindowEnds(lows, i + 1 - period, i + 1);
      if high != low {
        ShareOfRange(closes[i], high, low);
      }
    }
  }

  /** %D is the moving average of the %K values from where they begin. */
  lemma DIsAverageOfK(highs: seq<real>, lows: seq<real>, closes: seq<real>, period: int, dPeriod: int, i: nat)
    requires |highs| == |lows| == |closes| && i < |closes| && 0 < period && 0 < dPeriod
    ensures var lines, start := StochasticSpec(highs, lows, closes, period, dPeriod), period - 1;
      && |lines.k| == |lines.d| == |closes|
      && (forall j :: start <= j < |closes| ==> lines.k[j].Some?)
      && (i < start ==> lines.d[i].None?)
      && (start <= i ==> lines.d[i] == SmaSeries(Values(lines.k, start), dPeriod)[i - start])
  {
    var lines := StochasticSpec(highs, lows, closes, period, dPeriod);
    if period - 1 <= i {
      assert Values(lines.k, period - 1) == KTail(highs, lows, closes, period);
    }
  }

  function SquaredDistance(mean: real): real -> real { x => Times(x - mean, x - mean) }

  lemma {:induction false} SquaresAreSum(xs: seq<real>, lo: nat, hi: nat, mean: real)
    requires lo <= hi <= |xs|
    ensures SquaresFrom(xs, lo, hi, mean) == SumBy(xs[lo..hi], SquaredDistance(mean))
  {
    if lo < hi {
      SquaresAreSum(xs, lo, hi - 1, mean);
      var x := xs[hi - 1];
      SumSnoc(xs[lo..hi - 1], x, SquaredDistance(mean));
      assert SquaredDistance(mean)(x) == Times(x - mean, x - mean) == (x - mean) * (x - mean);
      assert xs[lo..hi] == xs[lo..hi - 1] + [xs[hi - 1]];
    }
  }

  /** The bands lie numStd deviations above and below the moving average; the squared deviations are averaged. */
  lemma BandsAreDeviations(xs: seq<real>, period: int, numStd: real, sqrt: real -> real, i: nat, variance: real)
    requires 0 < period <= i + 1 <= |xs|
    requires var mean := SmaSeries(xs, period)[i];
      && mean.Some?
      && Times(variance, period as real)
         == SumBy(xs[i + 1 - period..i + 1], SquaredDistance(mean.value))
    ensures var bands, mean := BandsSpec(xs, period, numStd, sqrt), SmaSeries(xs, period)[i].value;
      && |bands.upper| == |bands.middle| == |bands.lower| == |xs|
      && bands.middle[i] == Some(mean)
      && bands.upper[i] == Some(mean + Times(numStd, sqrt(variance)))
      && bands.lower[i] == Some(mean - Times(numStd, sqrt(variance)))
  {
    var mean := SmaSeries(xs, period)[i].value;
    SquaresAreSum(xs, i + 1 - period, i + 1, mean);
    var squares := SquaresFrom(xs, i + 1 - period, i + 1, mean);
    MeanTimes(squares, period);
    assert (variance - Mean(squares, period)) * period as real == 0.0;
    assert variance == Mean(squares, period);
    assert BandWidth(xs, period, numStd, sqrt, i) == numStd * sqrt(variance);
  }

  /** The true range is the greatest of the bar's own range and its distances to the close before it. */
  lemma TrueRangeIsGreatest(highs: seq<real>, lows: seq<real>, closes: seq<real>, i: nat)
    requires |highs| == |lows| == |closes| && 0 < i < |closes|
    ensures var before := closes[i - 1];
      GreatestOf(TrueRange(highs, lows, closes, i),
                 [highs[i] - lows[i], highs[i] - before, before - highs[i], lows[i] - before, before - lows[i]])
  {
    var before := closes[i - 1];
    var all := [highs[i] - lows[i], highs[i] - before, before - highs[i], lows[i] - before, before - lows[i]];
    assert TrueRange(highs, lows, closes, i) in all by {
      assert all[0] in all && all[1] in all && all[2] in all && all[3] in all && all[4] in all;
    }
  }

  function TrueRangesOf(highs: seq<real>, lows: seq<real>, closes: seq<real>, n: nat): seq<real>
    requires |highs| == |lows| == |closes| && n < |closes|
  {
    seq(n, j requires 0 <= j < n => TrueRange(highs, lows, closes, j + 1))
  }

  lemma {:induction false} SumOfTrueRanges(highs: seq<real>, lows: seq<real>, closes: seq<real>, n: nat)
    requires |highs| == |lows| == |closes| && n < |closes|
    ensures RangeSum(highs, lows, closes, n) == SumBy(TrueRangesOf(highs, lows, closes, n), (x: real) => x)
  {
    if n > 0 {
      SumOfTrueRanges(highs, lows, closes, n - 1);
      SumSnoc(TrueRangesOf(highs, lows, closes, n - 1), TrueRange(highs, lows, closes, n), (x: real) => x);
      assert TrueRangesOf(highs, lows, closes, n)
          == TrueRangesOf(highs, lows, closes, n - 1) + [TrueRange(highs, lows, closes, n)];
    }
  }

  /** Its average starts as the mean of the first ranges and then weighs the new one 1 in period. */
  lemma AtrWeighs(highs: seq<real>, lows: seq<real>, closes: seq<real>, period: int, i: nat)
    requires |highs| == |lows| == |closes| && 0 < period && i < |closes|
    ensures var atr := AtrSpec(highs, lows, closes, period);
      && |atr| == |closes| && (atr[i].Some? <==> period <= i)
      && (i == period ==> Times(atr[i].value, period as real)
                          == SumBy(TrueRangesOf(highs, lows, closes, period), (x: real) => x))
      && (i > period ==>
            && atr[i - 1].Some?
            && Times(atr[i].value, period as real)
               == Times(atr[i - 1].value, (period - 1) as real) + TrueRange(highs, lows, closes, i))
  {
    if i == period {
      SumOfTrueRanges(highs, lows, closes, period);
      MeanTimes(RangeSum(highs, lows, closes, period), period);
    } else if i > period {
      WilderWeighs(AtrValue(highs, lows, closes, period, i - 1), TrueRange(highs, lows, closes, i), period);
    }
  }

  /**
    The smoothing for a period of -m, from m ranges before the end: it starts at the mean of the ranges before
    those, with -m for their number, and weighs each range, the last m first and then all, 1 in -m.
  */
  ghost predicate SmoothsFromTheEnd(
    lead: seq<real>, highs: seq<real>, lows: seq<real>, closes: seq<real>, m: int)
    requires |highs| == |lows| == |closes| && 0 < m < |closes|
  {
    var n := |closes|;
    && |lead| == m + n
    && Times(lead[0], -m as real) == SumBy(TrueRangesOf(highs, lows, closes, n - 1 - m), (x: real) => x)
    && forall k :: 0 <= k < m + n - 1 ==> Weighs(lead, highs, lows, closes, m, k)
  }

  ghost predicate Weighs(lead: seq<real>, highs: seq<real>, lows: seq<real>, closes: seq<real>, m: int, k: nat)
    requires |highs| == |lows| == |closes| && 0 < m < |closes| && k < m + |closes| - 1 && |lead| == m + |closes|
  {
    var bar := if k < m then |closes| - m + k else k - m + 1;
    Times(lead[k + 1], -m as real) == Times(lead[k], (-m - 1) as real) + TrueRange(highs, lows, closes, bar)
  }

  lemma SameQuotient(a: real, b: real, d: real)
    requires d != 0.0 && Times(a, d) == Times(b, d)
    ensures a == b
  {
    assert (a - b) * d == 0.0;
  }

  lemma {:induction false} LeadIsWrapped(
    lead: seq<real>, highs: seq<real>, lows: seq<real>, closes: seq<real>, m: int, k: nat)
    requires |highs| == |lows| == |closes| && 0 < m < |closes| && k < m + |closes|
    requires SmoothsFromTheEnd(lead, highs, lows, closes, m)
    ensures lead[k] == WrappedValue(highs, lows, closes, m, k)
  {
    var n := |closes|;
    if k == 0 {
      SumOfTrueRanges(highs, lows, closes, n - 1 - m);
      MeanTimes(RangeSum(highs, lows, closes, n - 1 - m), -m);
    } else {
      LeadIsWrapped(lead, highs, lows, closes, m, k - 1);
      assert Weighs(lead, highs, lows, closes, m, k - 1);
      WilderWeighs(lead[k - 1], WrappedRange(highs, lows, closes, m, k - 1), -m);
    }
    SameQuotient(lead[k], WrappedValue(highs, lows, closes, m, k), -m as real);
  }

  lemma NegativeEntry(highs: seq<real>, lows: seq<real>, closes: seq<real>, m: int, i: nat)
    requires |highs| == |lows| == |closes| && 0 < m < |closes| && i < |closes|
    ensures var atr := AtrSpec(highs, lows, closes, -m);
      |atr| == |closes| && atr[i] == Some(WrappedValue(highs, lows, closes, m, m + i))
  {
    assert AtrSpec(highs, lows, closes, -m) == WrappedSeries(highs, lows, closes, m);
    assert WrappedSeries(highs, lows, closes, m)[i] == WrappedAt(highs, lows, closes, m, i);
  }

  ghost predicate NegativeEntryIs(
    highs: seq<real>, lows: seq<real>, closes: seq<real>, m: int, i: nat, value: real)
    requires |highs| == |lows| == |closes| && 0 < m < |closes| && i < |closes|
  {
    var atr := AtrSpec(highs, lows, closes, -m);
    |atr| == |closes| && atr[i] == Some(value)
  }

  lemma EntryIs(highs: seq<real>, lows: seq<real>, closes: seq<real>, m: int, i: nat, value: real)
    requires |highs| == |lows| == |closes| && 0 < m < |closes| && i < |closes|
    requires value == WrappedValue(highs, lows, closes, m, m + i)
    ensures NegativeEntryIs(highs, lows, closes, m, i, value)
  {
    NegativeEntry(highs, lows, closes, m, i);
  }

  /** For a negative period the entries are what that smoothing gives after its first m steps. */
  lemma NegativeAtrWeighs(
    lead: seq<real>, highs: seq<real>, lows: seq<real>, closes: seq<real>, m: int, i: nat)
    requires |highs| == |lows| == |closes| && 0 < m < |closes| && i < |closes|
    requires SmoothsFromTheEnd(lead, highs, lows, closes, m)
    ensures NegativeEntryIs(highs, lows, closes, m, i, lead[m + i])
  {
    LeadIsWrapped(lead, highs, lows, closes, m, m + i);
    EntryIs(highs, lows, closes, m, i, lead[m + i]);
  }

  /** On-balance volume starts at zero, gains the volume of a bar that closes higher, loses that of a lower one. */
  lemma ObvFollowsCloses(closes: seq<real>, volumes: seq<real>, i: nat)
    requires |closes| == |volumes| && i < |closes|
    ensures var obv := ObvSeries(closes, volumes);
      && |obv| == |closes| && obv[i].Some?
      && if i == 0 then obv[i].value == 0.0
         else
           && obv[i - 1].Some?
           && obv[i].value - obv[i - 1].value
              == if closes[i] > closes[i - 1] then volumes[i]
                 else if closes[i] < closes[i - 1] then -volumes[i]
                 else 0.0
  {
  }
}
