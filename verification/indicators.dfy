/**
  The technical indicators of psx_api/indicators/compute.py on exact reals.  For each one there is a
  direct definition of entry i from the inputs up to i, and the one-pass method that fills a
  preallocated list; the methods are proved to return exactly the direct definitions.
*/
module Indicators {
  import opened Wrappers

  type Series = seq<Option<real>>

  datatype IndicatorError = BadPeriod | LengthMismatch

  // ---- Windows -----------------------------------------------------------------------------------

  /** xs[lo] + ... + xs[hi - 1] */
  function WindowSum(xs: seq<real>, lo: nat, hi: nat): real
    requires lo <= hi <= |xs|
  {
    if lo == hi then 0.0 else WindowSum(xs, lo, hi - 1) + xs[hi - 1]
  }

  function WindowMax(xs: seq<real>, lo: nat, hi: nat): real
    requires lo < hi <= |xs|
  {
    if lo + 1 == hi then xs[lo]
    else
      var m := WindowMax(xs, lo, hi - 1);
      if xs[hi - 1] > m then xs[hi - 1] else m
  }

  function WindowMin(xs: seq<real>, lo: nat, hi: nat): real
    requires lo < hi <= |xs|
  {
    if lo + 1 == hi then xs[lo]
    else
      var m := WindowMin(xs, lo, hi - 1);
      if xs[hi - 1] < m then xs[hi - 1] else m
  }

  /** `[None] * n` */
  method Unfilled(n: nat) returns (xs: array<Option<real>>)
    ensures fresh(xs) && xs.Length == n && forall j :: 0 <= j < n ==> xs[j] == None
  {
    xs := new Option<real>[n](_ => None);
  }

  function Mean(sum: real, n: int): real
    requires n != 0
  {
    sum / n as real
  }

  /** Moving a window one step to the right. */
  lemma {:induction false} WindowSlides(xs: seq<real>, lo: nat, hi: nat)
    requires lo < hi <= |xs|
    ensures WindowSum(xs, lo + 1, hi) == WindowSum(xs, lo, hi) - xs[lo]
  {
    if lo + 1 < hi {
      WindowSlides(xs, lo, hi - 1);
    }
  }

  // ---- Moving averages ---------------------------------------------------------------------------

  function SmaAt(xs: seq<real>, period: int, i: nat): Option<real>
    requires period > 0 && i < |xs|
  {
    if i + 1 < period then None else Some(Mean(WindowSum(xs, i + 1 - period, i + 1), period))
  }

  function SmaSeries(xs: seq<real>, period: int): (r: Series)
    requires period > 0
    ensures |r| == |xs|
  {
    seq(|xs|, i requires 0 <= i < |xs| => SmaAt(xs, period, i))
  }

  method Sma(closes: seq<real>, period: int) returns (r: Result<Series, IndicatorError>)
    ensures r == if period <= 0 then Failure(BadPeriod) else Success(SmaSeries(closes, period))
  {
    if period <= 0 {
      return Failure(BadPeriod);
    }
    var out := Unfilled(|closes|);
    if |closes| < period {
      assert out[..] == SmaSeries(closes, period);
      return Success(out[..]);
    }
    var running := SumOfFirst(closes, period);
    out[period - 1] := Some(Mean(running, period));
    for i := period to |closes|
      invariant running == WindowSum(closes, i - period, i)
      invariant forall j :: 0 <= j < i ==> out[j] == SmaAt(closes, period, j)
      invariant forall j :: i <= j < |closes| ==> out[j] == None
    {
      WindowSlides(closes, i - period, i + 1);
      running := running + (closes[i] - closes[i - period]);
      out[i] := Some(Mean(running, period));
    }
    assert out[..] == SmaSeries(closes, period);
    r := Success(out[..]);
  }

  method SumOfFirst(xs: seq<real>, n: nat) returns (sum: real)
    requires n <= |xs|
    ensures sum == WindowSum(xs, 0, n)
  {
    sum := 0.0;
    for i := 0 to n
      invariant sum == WindowSum(xs, 0, i)
    {
      sum := sum + xs[i];
    }
  }

  function Weighted(x: real, weight: real): real { x * weight }

  function EmaStep(x: real, prev: real, period: int): real
    requires period > 0
  {
    var k := 2.0 / (period + 1) as real;
    Weighted(x, k) + Weighted(prev, 1.0 - k)
  }

  function EmaValue(xs: seq<real>, period: int, i: nat): real
    requires 0 < period <= i + 1 <= |xs|
  {
    if i + 1 == period then Mean(WindowSum(xs, 0, period), period)
    else EmaStep(xs[i], EmaValue(xs, period, i - 1), period)
  }

  function EmaAt(xs: seq<real>, period: int, i: nat): Option<real>
    requires period > 0 && i < |xs|
  {
    if i + 1 < period then None else Some(EmaValue(xs, period, i))
  }

  function EmaSeries(xs: seq<real>, period: int): (r: Series)
    requires period > 0
    ensures |r| == |xs|
  {
    seq(|xs|, i requires 0 <= i < |xs| => EmaAt(xs, period, i))
  }

  method Ema(closes: seq<real>, period: int) returns (r: Result<Series, IndicatorError>)
    ensures r == if period <= 0 then Failure(BadPeriod) else Success(EmaSeries(closes, period))
  {
    if period <= 0 {
      return Failure(BadPeriod);
    }
    var out := Unfilled(|closes|);
    if |closes| < period {
      assert out[..] == EmaSeries(closes, period);
      return Success(out[..]);
    }
    var sum := SumOfFirst(closes, period);
    var prev := Mean(sum, period);
    out[period - 1] := Some(prev);
    for i := period to |closes|
      invariant prev == EmaValue(closes, period, i - 1)
      invariant forall j :: 0 <= j < i ==> out[j] == EmaAt(closes, period, j)
      invariant forall j :: i <= j < |closes| ==> out[j] == None
    {
      prev := EmaStep(closes[i], prev, period);
      out[i] := Some(prev);
    }
    assert out[..] == EmaSeries(closes, period);
    r := Success(out[..]);
  }

  // ---- RSI ---------------------------------------------------------------------------------------

  function GainAt(xs: seq<real>, i: nat): real
    requires 0 < i < |xs|
  {
    if xs[i] - xs[i - 1] > 0.0 then xs[i] - xs[i - 1] else 0.0
  }

  function LossAt(xs: seq<real>, i: nat): real
    requires 0 < i < |xs|
  {
    if xs[i] - xs[i - 1] < 0.0 then -(xs[i] - xs[i - 1]) else 0.0
  }

  /** Gains (or losses) of the first n moves. */
  function GainSum(xs: seq<real>, n: nat): (r: real)
    requires n < |xs|
    ensures r >= 0.0
  {
    if n == 0 then 0.0 else GainSum(xs, n - 1) + GainAt(xs, n)
  }

  function LossSum(xs: seq<real>, n: nat): (r: real)
    requires n < |xs|
    ensures r >= 0.0
  {
    if n == 0 then 0.0 else LossSum(xs, n - 1) + LossAt(xs, n)
  }

  /** Wilder's smoothing. */
  function WilderStep(prev: real, x: real, period: int): (r: real)
    requires period != 0
    ensures period > 0 && prev >= 0.0 && x >= 0.0 ==> r >= 0.0
  {
    (prev * (period - 1) as real + x) / period as real
  }

  function AvgGain(xs: seq<real>, period: int, i: nat): (r: real)
    requires 0 < period <= i < |xs|
    ensures r >= 0.0
  {
    if i == period then Mean(GainSum(xs, period), period)
    else WilderStep(AvgGain(xs, period, i - 1), GainAt(xs, i), period)
  }

  function AvgLoss(xs: seq<real>, period: int, i: nat): (r: real)
    requires 0 < period <= i < |xs|
    ensures r >= 0.0
  {
    if i == period then Mean(LossSum(xs, period), period)
    else WilderStep(AvgLoss(xs, period, i - 1), LossAt(xs, i), period)
  }

  function RsiOf(avgGain: real, avgLoss: real): real
    requires avgGain >= 0.0 && avgLoss >= 0.0
  {
    if avgLoss == 0.0 then 100.0
    else
      assert avgGain / avgLoss >= 0.0;
      100.0 - 100.0 / (1.0 + avgGain / avgLoss)
  }

  function RsiAt(xs: seq<real>, period: int, i: nat): Option<real>
    requires period > 0 && i < |xs|
  {
    if i < period then None else Some(RsiOf(AvgGain(xs, period, i), AvgLoss(xs, period, i)))
  }

  function RsiSeries(xs: seq<real>, period: int): (r: Series)
    requires period > 0
    ensures |r| == |xs|
  {
    seq(|xs|, i requires 0 <= i < |xs| => RsiAt(xs, period, i))
  }

  method Rsi(closes: seq<real>, period: int) returns (r: Result<Series, IndicatorError>)
    ensures r == if period <= 0 then Failure(BadPeriod) else Success(RsiSeries(closes, period))
  {
    if period <= 0 {
      return Failure(BadPeriod);
    }
    var out := Unfilled(|closes|);
    if |closes| <= period {
      assert out[..] == RsiSeries(closes, period);
      return Success(out[..]);
    }
    var gains, losses := 0.0, 0.0;
    for i := 1 to period + 1
      invariant gains == GainSum(closes, i - 1) && losses == LossSum(closes, i - 1)
    {
      var delta := closes[i] - closes[i - 1];
      if delta >= 0.0 {
        gains := gains + delta;
      } else {
        losses := losses - delta;
      }
    }
    var avgGain, avgLoss := Mean(gains, period), Mean(losses, period);
    assert avgGain == AvgGain(closes, period, period) && avgLoss == AvgLoss(closes, period, period);
    out[period] := Some(RsiOf(avgGain, avgLoss));
    for i := period + 1 to |closes|
      invariant avgGain == AvgGain(closes, period, i - 1) && avgLoss == AvgLoss(closes, period, i - 1)
      invariant forall j :: 0 <= j < i ==> out[j] == RsiAt(closes, period, j)
      invariant forall j :: i <= j < |closes| ==> out[j] == None
    {
      var delta := closes[i] - closes[i - 1];
      var gain := if delta > 0.0 then delta else 0.0;
      var loss := if -delta > 0.0 then -delta else 0.0;
      avgGain := WilderStep(avgGain, gain, period);
      avgLoss := WilderStep(avgLoss, loss, period);
      out[i] := Some(RsiOf(avgGain, avgLoss));
    }
    assert out[..] == RsiSeries(closes, period);
    r := Success(out[..]);
  }

  // ---- MACD --------------------------------------------------------------------------------------

  datatype MacdLines = MacdLines(macd: Series, signal: Series, histogram: Series)

  function MinusOpt(a: Option<real>, b: Option<real>): Option<real> {
    if a.Some? && b.Some? then Some(a.value - b.value) else None
  }

  function MinusSeries(a: Series, b: Series): (r: Series)
    requires |a| == |b|
    ensures |r| == |a|
  {
    seq(|a|, i requires 0 <= i < |a| => MinusOpt(a[i], b[i]))
  }

  /** First index at which both averages exist. */
  function MacdStart(fast: int, slow: int): int { (if fast > slow then fast else slow) - 1 }

  function MacdValue(xs: seq<real>, fast: int, slow: int, i: nat): real
    requires 0 < fast && 0 < slow && MacdStart(fast, slow) <= i < |xs|
  {
    EmaValue(xs, fast, i) - EmaValue(xs, slow, i)
  }

  function MacdAt(xs: seq<real>, fast: int, slow: int, i: nat): Option<real>
    requires 0 < fast && 0 < slow && i < |xs|
  {
    if i < MacdStart(fast, slow) then None else Some(MacdValue(xs, fast, slow, i))
  }

  /** The MACD values that exist: the tail the signal line is computed on. */
  function MacdTail(xs: seq<real>, fast: int, slow: int): (r: seq<real>)
    requires 0 < fast && 0 < slow && MacdStart(fast, slow) <= |xs|
    ensures |r| == |xs| - MacdStart(fast, slow)
  {
    var start := MacdStart(fast, slow);
    seq(|xs| - start, j requires 0 <= j < |xs| - start => MacdValue(xs, fast, slow, start + j))
  }

  function SignalAt(xs: seq<real>, fast: int, slow: int, signal: int, i: nat): Option<real>
    requires 0 < fast && 0 < slow && i < |xs|
    requires 0 < signal || i < MacdStart(fast, slow)
  {
    var start := MacdStart(fast, slow);
    if i < start then None else EmaAt(MacdTail(xs, fast, slow), signal, i - start)
  }

  /** The source checks the signal period only when there is a tail to average. */
  predicate MacdDefined(n: nat, fast: int, slow: int, signal: int) {
    0 < fast && 0 < slow && (0 < signal || n <= MacdStart(fast, slow))
  }

  function MacdSpec(xs: seq<real>, fast: int, slow: int, signal: int): MacdLines
    requires MacdDefined(|xs|, fast, slow, signal)
  {
    var macd := seq(|xs|, i requires 0 <= i < |xs| => MacdAt(xs, fast, slow, i));
    var signalLine := seq(|xs|, i requires 0 <= i < |xs| => SignalAt(xs, fast, slow, signal, i));
    MacdLines(macd, signalLine, MinusSeries(macd, signalLine))
  }

  /**
    Two averages, their difference, and the average of that difference computed on the populated tail
    and put back at its place.
  */
  method Macd(closes: seq<real>, fast: int, slow: int, signal: int) returns (r: Result<MacdLines, IndicatorError>)
    ensures r == if MacdDefined(|closes|, fast, slow, signal) then Success(MacdSpec(closes, fast, slow, signal))
                 else Failure(BadPeriod)
  {
    var fastLine := Ema(closes, fast);
    if fastLine.Failure? {
      return Failure(fastLine.error);
    }
    var slowLine := Ema(closes, slow);
    if slowLine.Failure? {
      return Failure(slowLine.error);
    }
    var macdLine := MinusSeries(fastLine.value, slowLine.value);
    MacdLineIsDefined(closes, fast, slow);
    var idx, populated := PopulatedTail(macdLine, MacdStart(fast, slow));
    var signalLine: Series := seq(|closes|, _ => None);
    if populated != [] {
      var tail := Ema(populated, signal);
      if tail.Failure? {
        return Failure(tail.error);
      }
      signalLine := signalLine[..idx] + tail.value;
      assert signalLine == seq(idx, _ => None) + EmaSeries(populated, signal);
      SignalLineIsSpec(closes, fast, slow, signal, idx, populated, signalLine);
    }
    MacdLineIsSpec(closes, fast, slow, signal);
    assert signalLine == MacdSpec(closes, fast, slow, signal).signal;
    r := Success(MacdLines(macdLine, signalLine, MinusSeries(macdLine, signalLine)));
  }

  lemma MacdLineIsDefined(xs: seq<real>, fast: int, slow: int)
    requires 0 < fast && 0 < slow
    ensures var line := MinusSeries(EmaSeries(xs, fast), EmaSeries(xs, slow));
      && |line| == |xs|
      && forall i :: 0 <= i < |line| ==> line[i] == MacdAt(xs, fast, slow, i)
  {
  }

  lemma MacdLineIsSpec(xs: seq<real>, fast: int, slow: int, signal: int)
    requires MacdDefined(|xs|, fast, slow, signal)
    ensures MinusSeries(EmaSeries(xs, fast), EmaSeries(xs, slow)) == MacdSpec(xs, fast, slow, signal).macd
  {
    MacdLineIsDefined(xs, fast, slow);
  }

  /** The average of the populated tail, put back at its place, is the signal line. */
  lemma SignalLineIsSpec(
    xs: seq<real>, fast: int, slow: int, signal: int, idx: nat, populated: seq<real>, line: Series)
    requires 0 < fast && 0 < slow && 0 < signal
    requires idx == (if MacdStart(fast, slow) < |xs| then MacdStart(fast, slow) else |xs|)
    requires |populated| == |xs| - idx
    requires forall j :: 0 <= j < |populated| ==>
      MacdAt(xs, fast, slow, idx + j) == Some(populated[j])
    requires line == seq(idx, _ => None) + EmaSeries(populated, signal)
    ensures line == MacdSpec(xs, fast, slow, signal).signal
  {
    if MacdStart(fast, slow) <= |xs| {
      assert populated == MacdTail(xs, fast, slow);
    }
  }

  /** First populated index (the length if none) and the values from there on. */
  method PopulatedTail(line: Series, ghost start: nat) returns (idx: nat, populated: seq<real>)
    requires forall i :: 0 <= i < |line| ==> (line[i].Some? <==> start <= i)
    ensures idx == if start < |line| then start else |line|
    ensures |populated| == |line| - idx
    ensures forall j :: 0 <= j < |populated| ==> line[idx + j] == Some(populated[j])
  {
    idx := 0;
    while idx < |line| && line[idx].None?
      invariant idx <= |line| && idx <= start
    {
      idx := idx + 1;
    }
    populated := [];
    for i := idx to |line|
      invariant |populated| == i - idx
      invariant forall j :: 0 <= j < |populated| ==> line[idx + j] == Some(populated[j])
    {
      populated := populated + [line[i].value];
    }
  }

  // ---- Stochastic --------------------------------------------------------------------------------

  datatype StochasticLines = StochasticLines(k: Series, d: Series)

  function PercentK(close: real, high: real, low: real): real {
    if high - low != 0.0 then 100.0 * (close - low) / (high - low) else 50.0
  }

  function KValue(highs: seq<real>, lows: seq<real>, closes: seq<real>, period: int, i: nat): real
    requires |highs| == |lows| == |closes| && 0 < period <= i + 1 <= |closes|
  {
    PercentK(closes[i], WindowMax(highs, i - period + 1, i + 1), WindowMin(lows, i - period + 1, i + 1))
  }

  function KAt(highs: seq<real>, lows: seq<real>, closes: seq<real>, period: int, i: nat): Option<real>
    requires |highs| == |lows| == |closes| && 0 < period && i < |closes|
  {
    if i + 1 < period then None else Some(KValue(highs, lows, closes, period, i))
  }

  function KTail(highs: seq<real>, lows: seq<real>, closes: seq<real>, period: int): (r: seq<real>)
    requires |highs| == |lows| == |closes| && 0 < period <= |closes| + 1
    ensures |r| == |closes| - (period - 1)
  {
    seq(|closes| - (period - 1), j requires 0 <= j < |closes| - (period - 1) =>
      KValue(highs, lows, closes, period, period - 1 + j))
  }

  function DAt(highs: seq<real>, lows: seq<real>, closes: seq<real>, period: int, dPeriod: int, i: nat): Option<real>
    requires |highs| == |lows| == |closes| && 0 < period && i < |closes|
    requires 0 < dPeriod || i < period - 1
  {
    if i < period - 1 then None else SmaAt(KTail(highs, lows, closes, period), dPeriod, i - (period - 1))
  }

  /** With a %K period below one the source always raises, on the empty window at index -1. */
  predicate StochasticDefined(n: nat, period: int, dPeriod: int) {
    0 < period && (0 < dPeriod || n < period)
  }

  function StochasticSpec(highs: seq<real>, lows: seq<real>, closes: seq<real>, period: int, dPeriod: int)
    : StochasticLines
    requires |highs| == |lows| == |closes| && StochasticDefined(|closes|, period, dPeriod)
  {
    StochasticLines(
      seq(|closes|, i requires 0 <= i < |closes| => KAt(highs, lows, closes, period, i)),
      seq(|closes|, i requires 0 <= i < |closes| => DAt(highs, lows, closes, period, dPeriod, i)))
  }

  method Stochastic(highs: seq<real>, lows: seq<real>, closes: seq<real>, period: int, dPeriod: int)
    returns (r: Result<StochasticLines, IndicatorError>)
    ensures r == if !(|highs| == |lows| == |closes|) then Failure(LengthMismatch)
                 else if !StochasticDefined(|closes|, period, dPeriod) then Failure(BadPeriod)
                 else Success(StochasticSpec(highs, lows, closes, period, dPeriod))
  {
    if !(|highs| == |lows| == |closes|) {
      return Failure(LengthMismatch);
    }
    if period <= 0 {
      return Failure(BadPeriod);
    }
    var n := |closes|;
    var kLine := Unfilled(n);
    if period - 1 < n {
      for i := period - 1 to n
        invariant forall j :: 0 <= j < i ==> kLine[j] == KAt(highs, lows, closes, period, j)
        invariant forall j :: i <= j < n ==> kLine[j] == None
      {
        kLine[i] := Some(KValue(highs, lows, closes, period, i));
      }
    }
    var idx, populated := PopulatedTail(kLine[..], period - 1);
    assert period - 1 <= n ==> populated == KTail(highs, lows, closes, period);
    var dLine: Series := seq(n, _ => None);
    if populated != [] {
      var tail := Sma(populated, dPeriod);
      if tail.Failure? {
        return Failure(tail.error);
      }
      dLine := dLine[..idx] + tail.value;
    }
    ghost var spec := StochasticSpec(highs, lows, closes, period, dPeriod);
    assert kLine[..] == spec.k;
    assert dLine == spec.d;
    r := Success(StochasticLines(kLine[..], dLine));
  }

  // ---- Bollinger bands ---------------------------------------------------------------------------

  datatype Bands = Bands(upper: Series, middle: Series, lower: Series)

  function SquaresFrom(xs: seq<real>, lo: nat, hi: nat, mean: real): real
    requires lo <= hi <= |xs|
  {
    if lo == hi then 0.0 else SquaresFrom(xs, lo, hi - 1, mean) + (xs[hi - 1] - mean) * (xs[hi - 1] - mean)
  }

  /** Half the width of the band at i; the square root is a parameter. */
  function BandWidth(xs: seq<real>, period: int, numStd: real, sqrt: real -> real, i: nat): real
    requires 0 < period <= i + 1 <= |xs|
  {
    var mean := SmaAt(xs, period, i).value;
    numStd * sqrt(Mean(SquaresFrom(xs, i + 1 - period, i + 1, mean), period))
  }

  /** The upper or the lower band at i. */
  function BandAt(xs: seq<real>, period: int, numStd: real, sqrt: real -> real, upper: bool, i: nat): Option<real>
    requires 0 < period && i < |xs|
  {
    if i + 1 < period then None
    else
      var mean, width := SmaAt(xs, period, i).value, BandWidth(xs, period, numStd, sqrt, i);
      Some(if upper then mean + width else mean - width)
  }

  function BandsSpec(xs: seq<real>, period: int, numStd: real, sqrt: real -> real): Bands
    requires 0 < period
  {
    Bands(
      seq(|xs|, i requires 0 <= i < |xs| => BandAt(xs, period, numStd, sqrt, true, i)),
      SmaSeries(xs, period),
      seq(|xs|, i requires 0 <= i < |xs| => BandAt(xs, period, numStd, sqrt, false, i)))
  }

  /** Both edges of the bands at i, given the middle line. */
  ghost predicate EdgesAt(
    closes: seq<real>, period: int, numStd: real, sqrt: real -> real, middle: Series, bands: Bands, i: nat)
    requires 0 < period && i < |closes| == |middle| == |bands.upper| == |bands.lower|
  {
    if i < period - 1 then bands.upper[i] == None && bands.lower[i] == None
    else
      var width := BandWidth(closes, period, numStd, sqrt, i);
      && middle[i].Some?
      && bands.upper[i] == Some(middle[i].value + width) && bands.lower[i] == Some(middle[i].value - width)
  }

  lemma BandEdgesAt(closes: seq<real>, period: int, numStd: real, sqrt: real -> real, i: nat)
    requires 0 < period && i < |closes|
    ensures var b := BandsSpec(closes, period, numStd, sqrt);
      EdgesAt(closes, period, numStd, sqrt, b.middle, b, i)
  {
  }

  /** The loop over the windows. */
  method BandEdges(
    closes: seq<real>, period: int, numStd: real, sqrt: real -> real, middle: Series, ghost bands: Bands)
    returns (upper: array<Option<real>>, lower: array<Option<real>>)
    requires 0 < period && |closes| == |middle| == |bands.upper| == |bands.lower|
    requires forall i :: 0 <= i < |closes| ==> EdgesAt(closes, period, numStd, sqrt, middle, bands, i)
    ensures upper[..] == bands.upper && lower[..] == bands.lower
  {
    var n := |closes|;
    upper := Unfilled(n);
    lower := Unfilled(n);
    forall j | 0 <= j < n && j < period - 1
      ensures bands.upper[j] == None && bands.lower[j] == None
    {
      assert EdgesAt(closes, period, numStd, sqrt, middle, bands, j);
    }
    if period - 1 < n {
      for i := period - 1 to n
        invariant forall j :: 0 <= j < i ==> upper[j] == bands.upper[j]
        invariant forall j :: 0 <= j < i ==> lower[j] == bands.lower[j]
      {
        assert EdgesAt(closes, period, numStd, sqrt, middle, bands, i);
        var mean := middle[i].value;
        var width := BandWidth(closes, period, numStd, sqrt, i);
        upper[i] := Some(mean + width);
        lower[i] := Some(mean - width);
      }
    }
  }

  method BollingerBands(closes: seq<real>, period: int, numStd: real, sqrt: real -> real)
    returns (r: Result<Bands, IndicatorError>)
    ensures r == if period <= 0 then Failure(BadPeriod) else Success(BandsSpec(closes, period, numStd, sqrt))
  {
    var middle := Sma(closes, period);
    if middle.Failure? {
      return Failure(middle.error);
    }
    ghost var bands := BandsSpec(closes, period, numStd, sqrt);
    forall i | 0 <= i < |closes|
      ensures EdgesAt(closes, period, numStd, sqrt, middle.value, bands, i)
    {
      BandEdgesAt(closes, period, numStd, sqrt, i);
    }
    var upper, lower := BandEdges(closes, period, numStd, sqrt, middle.value, bands);
    r := Success(Bands(upper[..], middle.value, lower[..]));
  }

  // ---- ATR and OBV -------------------------------------------------------------------------------

  function Max3(a: real, b: real, c: real): real {
    if a >= b && a >= c then a else if b >= c then b else c
  }

  function AbsDiff(a: real, b: real): real { if a >= b then a - b else b - a }

  /** True range of bar i against the close before it. */
  function TrueRange(highs: seq<real>, lows: seq<real>, closes: seq<real>, i: nat): real
    requires |highs| == |lows| == |closes| && 0 < i < |closes|
  {
    Max3(highs[i] - lows[i], AbsDiff(highs[i], closes[i - 1]), AbsDiff(lows[i], closes[i - 1]))
  }

  function RangeSum(highs: seq<real>, lows: seq<real>, closes: seq<real>, n: nat): real
    requires |highs| == |lows| == |closes| && n < |closes|
  {
    if n == 0 then 0.0 else RangeSum(highs, lows, closes, n - 1) + TrueRange(highs, lows, closes, n)
  }

  function AtrValue(highs: seq<real>, lows: seq<real>, closes: seq<real>, period: int, i: nat): real
    requires |highs| == |lows| == |closes| && 0 < period <= i < |closes|
  {
    if i == period then Mean(RangeSum(highs, lows, closes, period), period)
    else WilderStep(AtrValue(highs, lows, closes, period, i - 1), TrueRange(highs, lows, closes, i), period)
  }

  function AtrAt(highs: seq<real>, lows: seq<real>, closes: seq<real>, period: int, i: nat): Option<real>
    requires |highs| == |lows| == |closes| && 0 < period && i < |closes|
  {
    if i < period then None else Some(AtrValue(highs, lows, closes, period, i))
  }

  function AtrSeries(highs: seq<real>, lows: seq<real>, closes: seq<real>, period: int): (r: Series)
    requires |highs| == |lows| == |closes| && 0 < period
    ensures |r| == |closes|
  {
    seq(|closes|, i requires 0 <= i < |closes| => AtrAt(highs, lows, closes, period, i))
  }

  /** The true range that step k uses for a period of -m: Python's negative indices start m before the end. */
  function WrappedRange(highs: seq<real>, lows: seq<real>, closes: seq<real>, m: int, k: nat): real
    requires |highs| == |lows| == |closes| && 0 < m < |closes| && k < m + |closes| - 1
  {
    TrueRange(highs, lows, closes, if k < m then |closes| - m + k else k - m + 1)
  }

  /** The smoothed range after k steps for a period of -m. */
  function WrappedValue(highs: seq<real>, lows: seq<real>, closes: seq<real>, m: int, k: nat): real
    requires |highs| == |lows| == |closes| && 0 < m < |closes| && k < m + |closes|
  {
    if k == 0 then Mean(RangeSum(highs, lows, closes, |closes| - 1 - m), -m)
    else WilderStep(WrappedValue(highs, lows, closes, m, k - 1), WrappedRange(highs, lows, closes, m, k - 1), -m)
  }

  function WrappedAt(highs: seq<real>, lows: seq<real>, closes: seq<real>, m: int, i: nat): Option<real>
    requires |highs| == |lows| == |closes| && 0 < m < |closes| && i < |closes|
  {
    Some(WrappedValue(highs, lows, closes, m, m + i))
  }

  /** A period of -m counts from the end of the lists, and overwrites every entry on its way. */
  function WrappedSeries(highs: seq<real>, lows: seq<real>, closes: seq<real>, m: int): (r: Series)
    requires |highs| == |lows| == |closes| && 0 < m < |closes|
    ensures |r| == |closes|
  {
    seq(|closes|, i requires 0 <= i < |closes| => WrappedAt(highs, lows, closes, m, i))
  }

  /** Zero divides by zero, and a negative period as long as the input indexes outside it. */
  predicate AtrDefined(n: nat, period: int) { period > 0 || n < period + 1 || (period < 0 && -period < n) }

  function AtrSpec(highs: seq<real>, lows: seq<real>, closes: seq<real>, period: int): (r: Series)
    requires |highs| == |lows| == |closes| && AtrDefined(|closes|, period)
    ensures |r| == |closes|
  {
    if period > 0 then AtrSeries(highs, lows, closes, period)
    else if period == 0 then []
    else WrappedSeries(highs, lows, closes, -period)
  }

  method TrueRanges(highs: seq<real>, lows: seq<real>, closes: seq<real>) returns (trs: seq<real>)
    requires |highs| == |lows| == |closes| > 0
    ensures |trs| == |closes| - 1
    ensures forall j :: 0 <= j < |trs| ==> trs[j] == TrueRange(highs, lows, closes, j + 1)
  {
    trs := [];
    for i := 1 to |closes|
      invariant |trs| == i - 1
      invariant forall j :: 0 <= j < |trs| ==> trs[j] == TrueRange(highs, lows, closes, j + 1)
    {
      trs := trs + [TrueRange(highs, lows, closes, i)];
    }
  }

  method SumOfRanges(highs: seq<real>, lows: seq<real>, closes: seq<real>, trs: seq<real>, count: nat)
    returns (sum: real)
    requires |highs| == |lows| == |closes| && count <= |trs| == |closes| - 1
    requires forall j :: 0 <= j < |trs| ==> trs[j] == TrueRange(highs, lows, closes, j + 1)
    ensures sum == RangeSum(highs, lows, closes, count)
  {
    sum := 0.0;
    for i := 0 to count
      invariant sum == RangeSum(highs, lows, closes, i)
    {
      sum := sum + trs[i];
    }
  }

  method Atr(highs: seq<real>, lows: seq<real>, closes: seq<real>, period: int)
    returns (r: Result<Series, IndicatorError>)
    ensures r == if !(|highs| == |lows| == |closes|) then Failure(LengthMismatch)
                 else if AtrDefined(|closes|, period) then Success(AtrSpec(highs, lows, closes, period))
                 else Failure(BadPeriod)
  {
    if !(|highs| == |lows| == |closes|) {
      return Failure(LengthMismatch);
    }
    var n := |closes|;
    if n < period + 1 {
      assert seq(n, _ => None) == AtrSpec(highs, lows, closes, period);
      return Success(seq(n, _ => None));
    }
    if period == 0 || n <= -period {
      return Failure(BadPeriod);
    }
    var trs := TrueRanges(highs, lows, closes);
    if period > 0 {
      var out := AtrForward(highs, lows, closes, trs, period);
      r := Success(out);
    } else {
      var out := AtrWrapped(highs, lows, closes, trs, period);
      r := Success(out);
    }
  }

  /** The smoothing loop for a positive period. */
  method AtrForward(highs: seq<real>, lows: seq<real>, closes: seq<real>, trs: seq<real>, period: int)
    returns (r: Series)
    requires |highs| == |lows| == |closes| && 0 < period <= |trs| == |closes| - 1
    requires forall j :: 0 <= j < |trs| ==> trs[j] == TrueRange(highs, lows, closes, j + 1)
    ensures r == AtrSeries(highs, lows, closes, period)
  {
    var n := |closes|;
    var out := Unfilled(n);
    var sum := SumOfRanges(highs, lows, closes, trs, period);
    var prev := Mean(sum, period);
    out[period] := Some(prev);
    for i := period + 1 to n
      invariant prev == AtrValue(highs, lows, closes, period, i - 1)
      invariant forall j :: 0 <= j < i ==> out[j] == AtrAt(highs, lows, closes, period, j)
      invariant forall j :: i <= j < n ==> out[j] == None
    {
      prev := WilderStep(prev, trs[i - 1], period);
      out[i] := Some(prev);
    }
    r := out[..];
  }

  /** Python's `xs[i]` on a list of n entries, for i from -n on. */
  function Wrap(i: int, n: nat): nat
    requires 0 <= i + n && i < n
  {
    if i < 0 then n + i else i
  }

  /** Python's negative index into the list of ranges is the wrapped range. */
  lemma WrappedIndex(
    highs: seq<real>, lows: seq<real>, closes: seq<real>, trs: seq<real>, m: int, i: int)
    requires |highs| == |lows| == |closes| && 0 < m <= |trs| == |closes| - 1 && -m < i < |closes|
    requires forall j :: 0 <= j < |trs| ==> trs[j] == TrueRange(highs, lows, closes, j + 1)
    ensures trs[Wrap(i - 1, |trs|)] == WrappedRange(highs, lows, closes, m, i + m - 1)
  {
  }

  /** `values` are the smoothed ranges of a period of -m, step by step from the first one. */
  ghost predicate Smooths(values: seq<real>, trs: seq<real>, m: int, i: int)
    requires 0 < m <= |trs| && |values| == m + |trs| + 1 && -m < i <= |trs|
  {
    values[m + i] == WilderStep(values[m + i - 1], trs[Wrap(i - 1, |trs|)], -m)
  }

  function WrappedValues(highs: seq<real>, lows: seq<real>, closes: seq<real>, m: int): (r: seq<real>)
    requires |highs| == |lows| == |closes| && 0 < m < |closes|
    ensures |r| == m + |closes|
  {
    seq(m + |closes|, k requires 0 <= k < m + |closes| => WrappedValue(highs, lows, closes, m, k))
  }

  lemma WrappedSmooths(
    highs: seq<real>, lows: seq<real>, closes: seq<real>, trs: seq<real>, m: int, i: int)
    requires |highs| == |lows| == |closes| && 0 < m <= |trs| == |closes| - 1 && -m < i < |closes|
    requires forall j :: 0 <= j < |trs| ==> trs[j] == TrueRange(highs, lows, closes, j + 1)
    ensures Smooths(WrappedValues(highs, lows, closes, m), trs, m, i)
  {
    WrappedIndex(highs, lows, closes, trs, m, i);
  }

  /** The smoothing loop for a period of -m: it starts at negative indices. */
  method SmoothWrapped(trs: seq<real>, m: int, first: real, ghost values: seq<real>) returns (r: Series)
    requires 0 < m <= |trs| && |values| == m + |trs| + 1 && values[0] == first
    requires forall i :: -m < i <= |trs| ==> Smooths(values, trs, m, i)
    ensures |r| == |trs| + 1 && forall i :: 0 <= i <= |trs| ==> r[i] == Some(values[m + i])
  {
    var n := |trs| + 1;
    var out := Unfilled(n);
    var prev := first;
    out[Wrap(-m, n)] := Some(prev);
    for i := -m + 1 to n
      invariant prev == values[m + i - 1]
      invariant forall j :: 0 <= j < i ==> out[j] == Some(values[m + j])
    {
      assert Smooths(values, trs, m, i);
      prev := WilderStep(prev, trs[Wrap(i - 1, n - 1)], -m);
      out[Wrap(i, n)] := Some(prev);
    }
    r := out[..];
  }

  method AtrWrapped(highs: seq<real>, lows: seq<real>, closes: seq<real>, trs: seq<real>, period: int)
    returns (r: Series)
    requires |highs| == |lows| == |closes| && 0 < -period <= |trs| == |closes| - 1
    requires forall j :: 0 <= j < |trs| ==> trs[j] == TrueRange(highs, lows, closes, j + 1)
    ensures r == WrappedSeries(highs, lows, closes, -period)
  {
    var n, m := |closes|, -period;
    ghost var values := WrappedValues(highs, lows, closes, m);
    forall i | -m < i < n
      ensures Smooths(values, trs, m, i)
    {
      WrappedSmooths(highs, lows, closes, trs, m, i);
    }
    var sum := SumOfRanges(highs, lows, closes, trs, Wrap(period, n - 1));
    r := SmoothWrapped(trs, m, Mean(sum, period), values);
  }

  function ObvValue(closes: seq<real>, volumes: seq<real>, i: nat): real
    requires |closes| == |volumes| && i < |closes|
  {
    if i == 0 then 0.0
    else
      var before := ObvValue(closes, volumes, i - 1);
      if closes[i] > closes[i - 1] then before + volumes[i]
      else if closes[i] < closes[i - 1] then before - volumes[i]
      else before
  }

  function ObvAt(closes: seq<real>, volumes: seq<real>, i: nat): Option<real>
    requires |closes| == |volumes| && i < |closes|
  {
    Some(ObvValue(closes, volumes, i))
  }

  function ObvSeries(closes: seq<real>, volumes: seq<real>): (r: Series)
    requires |closes| == |volumes|
    ensures |r| == |closes|
  {
    seq(|closes|, i requires 0 <= i < |closes| => ObvAt(closes, volumes, i))
  }

  method Obv(closes: seq<real>, volumes: seq<real>) returns (r: Result<Series, IndicatorError>)
    ensures r == if |closes| == |volumes| then Success(ObvSeries(closes, volumes)) else Failure(LengthMismatch)
  {
    if |closes| != |volumes| {
      return Failure(LengthMismatch);
    }
    var n := |closes|;
    var out := Unfilled(n);
    if n == 0 {
      assert out[..] == ObvSeries(closes, volumes);
      return Success(out[..]);
    }
    var running := 0.0;
    out[0] := Some(0.0);
    for i := 1 to n
      invariant running == ObvValue(closes, volumes, i - 1)
      invariant forall j :: 0 <= j < i ==> out[j] == ObvAt(closes, volumes, j)
    {
      if closes[i] > closes[i - 1] {
        running := running + volumes[i];
      } else if closes[i] < closes[i - 1] {
        running := running - volumes[i];
      }
      out[i] := Some(running);
    }
    assert out[..] == ObvSeries(closes, volumes);
    r := Success(out[..]);
  }

  // ---- The anomaly detector's moving average -----------------------------------------------------

  /** The average at i, with 0.0 instead of None in the warm-up. */
  function VolMaAt(values: seq<real>, window: int, i: nat): real
    requires window > 0 && i < |values|
  {
    match SmaAt(values, window, i)
    case Some(mean) => mean
    case None => 0.0
  }

  /** psx_ingest/anomaly/features.py: the same window mean.  A window below one divides by zero or overruns. */
  method VolMa(values: seq<real>, window: int) returns (r: Result<seq<real>, IndicatorError>)
    ensures r.Failure? <==> window <= 0 && values != []
    ensures r.Failure? ==> r.error == BadPeriod
    ensures r.Success? ==> |r.value| == |values|
    ensures r.Success? ==> forall i :: 0 <= i < |values| ==> r.value[i] == VolMaAt(values, window, i)
  {
    var out := [];
    var rolling := 0.0;
    for i := 0 to |values|
      invariant window == 0 ==> i == 0
      invariant window < 0 && i > 0 ==> i - 1 - window < |values|
      invariant |out| == i
      invariant window > 0 ==> rolling == WindowSum(values, if i < window then 0 else i - window, i)
      invariant window > 0 ==> forall j :: 0 <= j < i ==> out[j] == VolMaAt(values, window, j)
    {
      rolling := rolling + values[i];
      if i >= window {
        if i - window >= |values| {
          return Failure(BadPeriod);
        }
        if window > 0 {
          WindowSlides(values, i - window, i + 1);
        }
        rolling := rolling - values[i - window];
      }
      if i + 1 >= window {
        if window == 0 {
          return Failure(BadPeriod);
        }
        out := out + [Mean(rolling, window)];
      } else {
        out := out + [0.0];
      }
    }
    r := Success(out);
  }
}
