/**
  What every trade of a backtest says: it was opened by a long signal and closed by a flat one, each
  filled at the next bar's open, or at the last close, and its money follows from its own prices.
*/
module TradeLaws {
  import opened Wrappers
  import opened Rounding
  import opened Sums
  import opened Engine
  import opened EngineLaws
  import opened RunLaws

  // ---- One trade ---------------------------------------------------------------------------------

  /** The answer at bar k, in the state the run has then reached, asks for this target. */
  ghost predicate Signals<S>(bars: seq<Bar>, k: nat, cfg: Config, strategy: Strategy<S>, target: int) {
    && cfg.warmup <= k < |bars| - 1
    && var st := RunTo(bars, k, cfg, strategy);
       && st.Success?
       && var answer := strategy.step(st.value.memory, bars, k);
          answer.Success? && answer.value.1.target == target
  }

  /** A long signal at a bar, bought at the open of the bar after it. */
  ghost predicate OpenedAt<S>(
    bar: nat, date: int, price: real, bars: seq<Bar>, cfg: Config, strategy: Strategy<S>)
  {
    && 0 < bar < |bars| && price == bars[bar].open && date == bars[bar].date
    && Signals(bars, bar - 1, cfg, strategy, 1)
  }

  /** A flat signal, sold at the next open; or sold at the close of the last bar. */
  ghost predicate ClosedAt<S>(t: Trade, bars: seq<Bar>, cfg: Config, strategy: Strategy<S>) {
    && t.entryBar <= t.exitBar < |bars| && t.exitDate == bars[t.exitBar].date
    && (|| (&& t.entryBar < t.exitBar && t.exitPrice == bars[t.exitBar].open
            && Signals(bars, t.exitBar - 1, cfg, strategy, 0))
        || (t.exitBar == |bars| - 1 && t.exitPrice == bars[t.exitBar].close
            && t.reasonClose == "End of backtest period"))
  }

  /** Gross and net profit, both commissions and the return in per cent, from the trade's own prices. */
  predicate MoneyAddsUp(t: Trade, rate: real) {
    && t.quantity > 0.0
    && t.grossPnl == Times(t.exitPrice - t.entryPrice, t.quantity)
    && t.commission == Times(Times(t.entryPrice, t.quantity), rate) + Times(Times(t.exitPrice, t.quantity), rate)
    && t.netPnl == t.grossPnl - t.commission
    && Times(t.returnPct, Times(t.entryPrice, t.quantity)) == 100.0 * t.netPnl
    && t.holdingDays == t.exitDate - t.entryDate
  }

  ghost predicate TradeIsRight<S>(t: Trade, bars: seq<Bar>, cfg: Config, strategy: Strategy<S>) {
    && OpenedAt(t.entryBar, t.entryDate, t.entryPrice, bars, cfg, strategy)
    && ClosedAt(t, bars, cfg, strategy)
    && MoneyAddsUp(t, cfg.rate)
  }

  // ---- All trades of a book ----------------------------------------------------------------------

  ghost predicate TradesAreRight<S>(trades: seq<Trade>, bars: seq<Bar>, cfg: Config, strategy: Strategy<S>) {
    forall j :: 0 <= j < |trades| ==> TradeIsRight(trades[j], bars, cfg, strategy)
  }

  /** One position at a time: each trade is closed before the next one is opened. */
  predicate OneAfterTheOther(trades: seq<Trade>) {
    forall j :: 0 <= j < |trades| - 1 ==> trades[j].exitBar < trades[j + 1].entryBar
  }

  /** Every purchase spends, commission included, the capital and the net profits made before it. */
  ghost predicate AllIn(trades: seq<Trade>, cfg: Config) {
    forall j :: 0 <= j < |trades| ==> Spends(trades[j], trades[..j], cfg)
  }

  predicate Spends(t: Trade, before: seq<Trade>, cfg: Config) {
    Times(t.entryPrice, t.quantity) + Times(Times(t.entryPrice, t.quantity), cfg.rate)
      == cfg.capital + SumBy(before, NetPnl)
  }

  /** What is open at bar k, and what was closed by then. */
  ghost predicate BookIsRight<S>(book: Book, bars: seq<Bar>, k: nat, cfg: Config, strategy: Strategy<S>) {
    && TradesAreRight(book.trades, bars, cfg, strategy) && OneAfterTheOther(book.trades) && AllIn(book.trades, cfg)
    && (book.trades != [] ==> book.trades[|book.trades| - 1].exitBar <= k)
    && (book.entry.Some? ==>
          && OpenedAt(book.entry.value.bar, book.entry.value.date, book.entry.value.price, bars, cfg, strategy)
          && book.entry.value.bar <= k
          && (book.trades != [] ==> book.trades[|book.trades| - 1].exitBar < book.entry.value.bar))
  }

  // ---- Fills -------------------------------------------------------------------------------------

  lemma ReturnIsPercent(net: real, price: real, quantity: real)
    requires price > 0.0 && quantity > 0.0
    ensures Times(ReturnPct(net, price, quantity), Times(price, quantity)) == 100.0 * net
  {
    var paid := price * quantity;
    assert paid > 0.0;
    assert net / paid * paid == net;
    assert net / paid * 100.0 * paid == 100.0 * (net / paid * paid);
  }

  lemma ClosingAddsUp(e: Entry, quantity: real, exitBar: nat, date: int, price: real, rate: real, reason: string)
    requires quantity > 0.0 && e.price > 0.0 && e.commission == Commission(e.price, quantity, rate)
    ensures MoneyAddsUp(TradeOf(e, quantity, exitBar, date, price, rate, reason), rate)
  {
    ReturnIsPercent(TradeOf(e, quantity, exitBar, date, price, rate, reason).netPnl, e.price, quantity);
  }

  lemma SpendsByValues(t: Trade, before: seq<Trade>, commission: real, cfg: Config)
    requires commission == Commission(t.entryPrice, t.quantity, cfg.rate)
    requires Notional(t.entryPrice, t.quantity) + commission == cfg.capital + SumBy(before, NetPnl)
    ensures Spends(t, before, cfg)
  {
  }

  lemma OneMoreTrade<S>(
    book: Book, t: Trade, bars: seq<Bar>, k: nat, now: nat, cfg: Config, strategy: Strategy<S>)
    requires BookIsRight(book, bars, k, cfg, strategy) && TradeIsRight(t, bars, cfg, strategy)
    requires book.entry.Some? && t.entryBar == book.entry.value.bar && t.exitBar <= now
    requires Spends(t, book.trades, cfg)
    ensures BookIsRight(Book(book.cash, 0.0, None, book.trades + [t]), bars, now, cfg, strategy)
  {
    var trades := book.trades + [t];
    forall j | 0 <= j < |trades|
      ensures Spends(trades[j], trades[..j], cfg)
    {
      assert trades[..j] == book.trades[..j];
      assert j < |book.trades| ==> Spends(book.trades[j], book.trades[..j], cfg);
      assert j == |book.trades| ==> book.trades[..j] == book.trades;
    }
  }

  /** Closing a sound position at a right place. */
  lemma CloseIsRight<S>(
    book: Book, bars: seq<Bar>, k: nat, exitBar: nat, price: real, reason: string, cfg: Config,
    strategy: Strategy<S>)
    requires GoodConfig(cfg) && Sound(book, cfg) && Long(book, cfg.rate) && exitBar < |bars|
    requires BookIsRight(book, bars, k, cfg, strategy)
    requires ClosedAt(TradeOf(book.entry.value, book.quantity, exitBar, bars[exitBar].date, price, cfg.rate, reason),
                      bars, cfg, strategy)
    ensures BookIsRight(Close(book, exitBar, bars[exitBar].date, price, cfg.rate, reason), bars, exitBar, cfg, strategy)
  {
    var e := book.entry.value;
    var t := TradeOf(e, book.quantity, exitBar, bars[exitBar].date, price, cfg.rate, reason);
    ClosingAddsUp(e, book.quantity, exitBar, bars[exitBar].date, price, cfg.rate, reason);
    SpendsByValues(t, book.trades, e.commission, cfg);
    OneMoreTrade(book, t, bars, k, exitBar, cfg, strategy);
  }

  lemma LaterIsRight<S>(book: Book, bars: seq<Bar>, k: nat, cfg: Config, strategy: Strategy<S>)
    requires BookIsRight(book, bars, k, cfg, strategy)
    ensures BookIsRight(book, bars, k + 1, cfg, strategy)
  {
  }

  lemma OpeningIsRight<S>(
    book: Book, after: Book, bars: seq<Bar>, k: nat, cfg: Config, strategy: Strategy<S>)
    requires BookIsRight(book, bars, k, cfg, strategy) && after.trades == book.trades && after.entry.Some?
    requires var e := after.entry.value;
      e.bar == k + 1 && OpenedAt(e.bar, e.date, e.price, bars, cfg, strategy)
    ensures BookIsRight(after, bars, k + 1, cfg, strategy)
  {
  }

  lemma ClosingIsRight<S>(
    book: Book, bars: seq<Bar>, k: nat, reason: string, cfg: Config, strategy: Strategy<S>)
    requires GoodConfig(cfg) && Sound(book, cfg) && Holding(book) && k + 1 < |bars|
    requires BookIsRight(book, bars, k, cfg, strategy) && Signals(bars, k, cfg, strategy, 0)
    ensures BookIsRight(Close(book, k + 1, bars[k + 1].date, bars[k + 1].open, cfg.rate, reason),
                        bars, k + 1, cfg, strategy)
  {
    CloseIsRight(book, bars, k, k + 1, bars[k + 1].open, reason, cfg, strategy);
  }

  /** What a fill does to the book, in its three outcomes. */
  predicate FillOutcome(book: Book, next: Bar, k: nat, d: Decision, rate: real, after: Book) {
    || after == book
    || (&& d.target == 1 && after.trades == book.trades && after.entry.Some?
        && after.entry.value.bar == k + 1 && after.entry.value.date == next.date
        && after.entry.value.price == next.open)
    || (&& d.target == 0 && Holding(book)
        && after == Close(book, k + 1, next.date, next.open, rate, ReasonOr(d.reason, "Strategy signalled flat")))
  }

  lemma FillCases(book: Book, next: Bar, k: nat, d: Decision, rate: real, after: Book)
    requires Fill(book, next, k + 1, d, rate) == Success(after)
    ensures FillOutcome(book, next, k, d, rate, after)
  {
  }

  lemma OutcomeIsRight<S>(
    book: Book, bars: seq<Bar>, k: nat, d: Decision, after: Book, cfg: Config, strategy: Strategy<S>)
    requires GoodConfig(cfg) && Sound(book, cfg) && k + 1 < |bars|
    requires BookIsRight(book, bars, k, cfg, strategy) && Signals(bars, k, cfg, strategy, d.target)
    requires FillOutcome(book, bars[k + 1], k, d, cfg.rate, after)
    ensures BookIsRight(after, bars, k + 1, cfg, strategy)
  {
    if after == book {
      LaterIsRight(book, bars, k, cfg, strategy);
    } else if d.target == 1 {
      OpeningIsRight(book, after, bars, k, cfg, strategy);
    } else {
      ClosingIsRight(book, bars, k, ReasonOr(d.reason, "Strategy signalled flat"), cfg, strategy);
    }
  }

  // ---- Whole runs --------------------------------------------------------------------------------

  lemma {:induction false} EveryBookIsRight<S>(bars: seq<Bar>, k: nat, cfg: Config, strategy: Strategy<S>)
    requires GoodConfig(cfg) && GoodPrices(bars) && k < |bars| && RunTo(bars, k, cfg, strategy).Success?
    ensures BookIsRight(RunTo(bars, k, cfg, strategy).value.book, bars, k, cfg, strategy)
  {
    if k <= cfg.warmup {
      WarmupIsFlat(bars, k, cfg, strategy);
    } else {
      SucceededBefore(bars, k - 1, k, cfg, strategy);
      EveryBookIsRight(bars, k - 1, cfg, strategy);
      EveryStateIsSound(bars, k - 1, cfg, strategy);
      TradingStep(bars, k - 1, cfg, strategy);
      var before := RunTo(bars, k - 1, cfg, strategy).value;
      var answer := strategy.step(before.memory, bars, k - 1).value;
      var after := RunTo(bars, k, cfg, strategy).value;
      FillCases(before.book, bars[k], k - 1, answer.1, cfg.rate, after.book);
      OutcomeIsRight(before.book, bars, k - 1, answer.1, after.book, cfg, strategy);
    }
  }

  /**
    Every trade of every run: opened at the open after a long signal, closed at the open after a flat one
    or at the last close, with the money its prices give; never two at a time, and all in.
  */
  lemma EveryTradeIsRight<S>(bars: seq<Bar>, cfg: Config, strategy: Strategy<S>)
    requires GoodConfig(cfg) && GoodPrices(bars) && RunOutcome(bars, cfg, strategy).Success?
    ensures var trades := RunOutcome(bars, cfg, strategy).value.trades;
      TradesAreRight(trades, bars, cfg, strategy) && OneAfterTheOther(trades) && AllIn(trades, cfg)
  {
    var n := |bars| - 1;
    LastBar(bars, cfg, strategy);
    EveryBookIsRight(bars, n, cfg, strategy);
    EveryStateIsSound(bars, n, cfg, strategy);
    var book := RunTo(bars, n, cfg, strategy).value.book;
    if n >= cfg.warmup && Holding(book) {
      CloseIsRight(book, bars, n, n, bars[n].close, "End of backtest period", cfg, strategy);
    }
  }

  lemma PointOfCurve(curve: seq<EquityPoint>, upto: seq<EquityPoint>, k: nat)
    requires k < |curve| && curve[..k + 1] == upto
    ensures curve[k] == upto[k]
  {
  }

  lemma LastIsMarked<S>(bars: seq<Bar>, k: nat, cfg: Config, strategy: Strategy<S>)
    requires k < |bars| && RunTo(bars, k + 1, cfg, strategy).Success?
    ensures RunTo(bars, k, cfg, strategy).Success? && |RunTo(bars, k + 1, cfg, strategy).value.curve| == k + 1
    ensures Marked(RunTo(bars, k, cfg, strategy).value.book, bars[k], RunTo(bars, k + 1, cfg, strategy).value.curve[k])
  {
    CurveGrows(bars, k, k + 1, cfg, strategy);
    OneMorePoint(bars, k, cfg, strategy);
    var before, st := RunTo(bars, k, cfg, strategy).value, RunTo(bars, k + 1, cfg, strategy).value;
    PointIsMarked(before.curve, st.curve, before.book, bars[k], st.highWater);
  }

  /** A point of the curve at a bar: the cash and the shares held then, at that bar's close. */
  predicate Marked(book: Book, bar: Bar, point: EquityPoint) {
    && point.date == bar.date
    && point.equity == book.cash + Times(bar.close, book.quantity)
    && (point.inPosition <==> book.quantity > 0.0)
  }

  lemma PointIsMarked(before: seq<EquityPoint>, after: seq<EquityPoint>, book: Book, bar: Bar, peak: real)
    requires after == before + [EquityPoint(
      bar.date, Equity(book, bar), DrawdownPct(peak, Equity(book, bar)), book.quantity > 0.0)]
    ensures Marked(book, bar, after[|before|])
  {
  }

  /** The curve: at bar k the cash and the shares held then, at that bar's close. */
  lemma EveryPointIsMarked<S>(bars: seq<Bar>, k: nat, cfg: Config, strategy: Strategy<S>)
    requires k < |bars| && RunOutcome(bars, cfg, strategy).Success?
    ensures RunTo(bars, k, cfg, strategy).Success? && |RunOutcome(bars, cfg, strategy).value.curve| == |bars|
    ensures Marked(RunTo(bars, k, cfg, strategy).value.book, bars[k], RunOutcome(bars, cfg, strategy).value.curve[k])
  {
    OutcomeCurve(bars, cfg, strategy);
    CurveGrows(bars, k + 1, |bars|, cfg, strategy);
    LastIsMarked(bars, k, cfg, strategy);
    PointOfCurve(RunOutcome(bars, cfg, strategy).value.curve, RunTo(bars, k + 1, cfg, strategy).value.curve, k);
  }

  /** Every answer is acted on at once: asked long it is in, asked flat it is out, asked again nothing moves. */
  lemma SignalsAreActedOn<S>(bars: seq<Bar>, k: nat, cfg: Config, strategy: Strategy<S>)
    requires GoodConfig(cfg) && GoodPrices(bars) && cfg.warmup <= k < |bars| - 1
    requires RunTo(bars, k + 1, cfg, strategy).Success?
    ensures RunTo(bars, k, cfg, strategy).Success?
    ensures var before, after := RunTo(bars, k, cfg, strategy).value.book, RunTo(bars, k + 1, cfg, strategy).value.book;
      && (Signals(bars, k, cfg, strategy, 1) ==> after.quantity > 0.0)
      && (Signals(bars, k, cfg, strategy, 0) ==> after.quantity == 0.0)
      && (Signals(bars, k, cfg, strategy, 1) && before.quantity > 0.0 ==> after == before)
      && (!Signals(bars, k, cfg, strategy, 1) && !Signals(bars, k, cfg, strategy, 0) ==> after == before)
  {
    TradingStep(bars, k, cfg, strategy);
    EveryStateIsSound(bars, k, cfg, strategy);
    var before := RunTo(bars, k, cfg, strategy).value;
    var answer := strategy.step(before.memory, bars, k).value;
    FillKeepsSound(before.book, bars[k + 1], k + 1, answer.1, cfg);
  }

  /** The fall of a point of the curve, in figures: its peak is the highest equity so far. */
  ghost predicate FallsFrom(curve: seq<EquityPoint>, j: nat, peak: nat)
    requires peak <= j < |curve|
  {
    && (forall i :: 0 <= i <= j ==> curve[i].equity <= curve[peak].equity)
    && Times(curve[j].drawdownPct, curve[peak].equity) == 100.0 * (curve[peak].equity - curve[j].equity)
  }

  lemma FallInPercent(peak: real, equity: real)
    requires peak > 0.0
    ensures Times(DrawdownPct(peak, equity), peak) == 100.0 * (peak - equity)
  {
    var fall := (peak - equity) / peak;
    assert fall * peak == peak - equity;
    assert fall * 100.0 * peak == 100.0 * (fall * peak);
  }

  lemma EveryPointFallsFromItsPeak<S>(bars: seq<Bar>, j: nat, cfg: Config, strategy: Strategy<S>) returns (peak: nat)
    requires GoodConfig(cfg) && GoodPrices(bars) && j < |bars| && RunOutcome(bars, cfg, strategy).Success?
    ensures var curve := RunOutcome(bars, cfg, strategy).value.curve;
      |curve| == |bars| && peak <= j && FallsFrom(curve, j, peak)
  {
    OutcomeCurve(bars, cfg, strategy);
    var curve := RunOutcome(bars, cfg, strategy).value.curve;
    PointIsDrawdown(bars, j, |bars|, cfg, strategy);
    peak := PeakIndex(curve, j);
    PeakIsHighest(curve, j);
    FallInPercent(curve[peak].equity, curve[j].equity);
  }
}
