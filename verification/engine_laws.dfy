/** Safety of whole backtest runs: the ledger identity, no look-ahead, drawdown and state agreement. */
module EngineLaws {
  import opened Sums
  import opened Engine

  // ---- Arithmetic of a round trip ----------------------------------------------------------------

  lemma BuyingSpendsAll(cash: real, price: real, rate: real)
    requires cash > 0.0 && price > 0.0 && rate >= 0.0
    ensures PriceWithFee(price, rate) > 0.0
    ensures var q := Affordable(cash, PriceWithFee(price, rate));
      q > 0.0 && Notional(price, q) + Commission(price, q, rate) == cash
  {
    var p := PriceWithFee(price, rate);
    assert p >= price;
    var q := cash / p;
    assert q * p == cash;
    assert price * q + price * q * rate == q * p;
  }

  lemma SellingPays(price: real, quantity: real, rate: real)
    requires price > 0.0 && quantity > 0.0 && 0.0 <= rate < 1.0
    ensures Proceeds(price, quantity, rate) > 0.0
  {
    assert price * quantity > 0.0;
    assert price * quantity - price * quantity * rate == price * quantity * (1.0 - rate);
  }

  /** Factor by which a round trip multiplies the capital put into it. */
  function Ratio(entryPrice: real, exitPrice: real, rate: real): real
    requires PriceWithFee(entryPrice, rate) != 0.0
  {
    exitPrice * (1.0 - rate) / PriceWithFee(entryPrice, rate)
  }

  lemma RoundTrip(entryPrice: real, exitPrice: real, quantity: real, rate: real)
    requires entryPrice > 0.0 && rate >= 0.0
    ensures PriceWithFee(entryPrice, rate) > 0.0
    ensures Proceeds(exitPrice, quantity, rate)
         == (Notional(entryPrice, quantity) + Commission(entryPrice, quantity, rate))
            * Ratio(entryPrice, exitPrice, rate)
  {
    var p := PriceWithFee(entryPrice, rate);
    assert p >= entryPrice;
    assert entryPrice * quantity + entryPrice * quantity * rate == quantity * p;
    var x := exitPrice * (1.0 - rate);
    assert exitPrice * quantity - exitPrice * quantity * rate == quantity * x;
    assert quantity * p * (x / p) == quantity * (p * (x / p));
    assert p * (x / p) == x;
  }

  // ---- The invariant of every step ---------------------------------------------------------------

  predicate GoodPrices(bars: seq<Bar>) {
    forall k :: 0 <= k < |bars| ==> bars[k].open > 0.0 && bars[k].close > 0.0
  }

  predicate GoodConfig(cfg: Config) { cfg.capital > 0.0 && 0.0 <= cfg.rate < 1.0 }

  function NetPnl(t: Trade): real { t.netPnl }

  predicate Flat(book: Book) { book.cash > 0.0 && book.quantity == 0.0 && book.entry.None? }

  predicate Long(book: Book, rate: real) {
    && book.cash == 0.0 && book.quantity > 0.0 && book.entry.Some?
    && book.entry.value.price > 0.0
    && book.entry.value.commission == Commission(book.entry.value.price, book.quantity, rate)
  }

  /** The money in play: the cash, or what was paid for the open position. */
  function Basis(book: Book): real {
    if book.entry.Some? then Notional(book.entry.value.price, book.quantity) + book.entry.value.commission
    else book.cash
  }

  predicate TradesWellPriced(trades: seq<Trade>) {
    trades == []
    || (TradesWellPriced(trades[..|trades| - 1])
        && trades[|trades| - 1].entryPrice > 0.0 && trades[|trades| - 1].exitPrice > 0.0)
  }

  function Growth(trades: seq<Trade>, rate: real): real
    requires rate >= 0.0 && TradesWellPriced(trades)
  {
    if trades == [] then 1.0
    else
      var t := trades[|trades| - 1];
      PriceWithFeePositive(t.entryPrice, rate);
      Growth(trades[..|trades| - 1], rate) * Ratio(t.entryPrice, t.exitPrice, rate)
  }

  /** The capital after all round trips, compounded. */
  function Compounded(capital: real, trades: seq<Trade>, rate: real): real
    requires rate >= 0.0 && TradesWellPriced(trades)
  {
    capital * Growth(trades, rate)
  }

  lemma PriceWithFeePositive(price: real, rate: real)
    requires price > 0.0 && rate >= 0.0
    ensures PriceWithFee(price, rate) > 0.0
  {
    assert price * (1.0 + rate) >= price;
  }

  ghost predicate Sound(book: Book, cfg: Config)
    requires cfg.rate >= 0.0
  {
    && (Flat(book) || Long(book, cfg.rate))
    && TradesWellPriced(book.trades)
    && Basis(book) == cfg.capital + SumBy(book.trades, NetPnl)
    && Basis(book) == Compounded(cfg.capital, book.trades, cfg.rate)
    && Basis(book) > 0.0
  }

  lemma CloseKeepsSound(book: Book, exitBar: nat, date: int, price: real, reason: string, cfg: Config)
    requires GoodConfig(cfg) && Sound(book, cfg) && Long(book, cfg.rate) && price > 0.0
    ensures var closed := Close(book, exitBar, date, price, cfg.rate, reason);
      Sound(closed, cfg) && Flat(closed) && closed.cash == Proceeds(price, book.quantity, cfg.rate)
  {
    var e, q := book.entry.value, book.quantity;
    var t := TradeOf(e, q, exitBar, date, price, cfg.rate, reason);
    var trades := book.trades + [t];
    assert trades[..|trades| - 1] == book.trades;
    SellingPays(price, q, cfg.rate);
    SumSnoc(book.trades, t, NetPnl);
    NetOfTrade(e.price, price, q);
    RoundTrip(e.price, price, q, cfg.rate);
    GrowthScales(cfg.capital, Growth(book.trades, cfg.rate), Ratio(e.price, price, cfg.rate));
  }

  lemma NetOfTrade(entryPrice: real, exitPrice: real, quantity: real)
    ensures Notional(exitPrice - entryPrice, quantity) == Notional(exitPrice, quantity) - Notional(entryPrice, quantity)
  {
  }

  lemma GrowthScales(capital: real, growth: real, ratio: real)
    ensures capital * growth * ratio == capital * (growth * ratio)
  {
  }

  /** With positive prices a fill never fails, and it leaves the position the decision asked for. */
  lemma FillKeepsSound(book: Book, next: Bar, nextIndex: nat, d: Decision, cfg: Config)
    requires GoodConfig(cfg) && next.open > 0.0 && Sound(book, cfg)
    ensures var r := Fill(book, next, nextIndex, d, cfg.rate);
      && r.Success? && Sound(r.value, cfg)
      && (d.target == 1 ==> r.value.quantity > 0.0)
      && (d.target == 0 ==> r.value.quantity == 0.0)
  {
    if d.target == 1 && book.quantity == 0.0 {
      BuyingSpendsAll(book.cash, next.open, cfg.rate);
    } else if d.target == 0 && Holding(book) {
      CloseKeepsSound(book, nextIndex, next.date, next.open, ReasonOr(d.reason, "Strategy signalled flat"), cfg);
    }
  }

  lemma ForcedExitIsSound(book: Book, last: Bar, index: nat, cfg: Config)
    requires GoodConfig(cfg) && last.close > 0.0 && Sound(book, cfg)
    ensures var closed := ForcedExit(book, last, index, cfg.rate);
      Sound(closed, cfg) && Flat(closed)
  {
    if Holding(book) {
      CloseKeepsSound(book, index, last.date, last.close, "End of backtest period", cfg);
    }
  }

  lemma StepKeepsSound<S>(st: State<S>, bars: seq<Bar>, i: nat, cfg: Config, strategy: Strategy<S>)
    requires GoodConfig(cfg) && GoodPrices(bars) && i < |bars| && Sound(st.book, cfg)
    ensures var r := Step(st, bars, i, cfg, strategy);
      && (r.Success? ==> Sound(r.value.book, cfg))
      && (r.Failure? ==> strategy.step(st.memory, bars, i).Failure?)
  {
    if cfg.warmup <= i {
      if i + 1 == |bars| {
        ForcedExitIsSound(st.book, bars[i], i, cfg);
      } else {
        var answer := strategy.step(st.memory, bars, i);
        if answer.Success? {
          FillKeepsSound(st.book, bars[i + 1], i + 1, answer.value.1, cfg);
        }
      }
    }
  }

  /**
    Every reachable state is either all cash or fully invested, and its money is the capital plus the
    net profits so far, which is also the capital times the product of the round-trip ratios.
  */
  lemma {:induction false} EveryStateIsSound<S>(bars: seq<Bar>, k: nat, cfg: Config, strategy: Strategy<S>)
    requires GoodConfig(cfg) && GoodPrices(bars) && k <= |bars|
    requires RunTo(bars, k, cfg, strategy).Success?
    ensures Sound(RunTo(bars, k, cfg, strategy).value.book, cfg)
  {
    if k > 0 {
      EveryStateIsSound(bars, k - 1, cfg, strategy);
      StepKeepsSound(RunTo(bars, k - 1, cfg, strategy).value, bars, k - 1, cfg, strategy);
    }
  }

  /** With positive prices the engine itself never fails: only the strategy can. */
  lemma OnlyTheStrategyFails<S>(bars: seq<Bar>, k: nat, cfg: Config, strategy: Strategy<S>)
    requires GoodConfig(cfg) && GoodPrices(bars) && k < |bars|
    requires RunTo(bars, k, cfg, strategy).Success? && RunTo(bars, k + 1, cfg, strategy).Failure?
    ensures strategy.step(RunTo(bars, k, cfg, strategy).value.memory, bars, k).Failure?
  {
    EveryStateIsSound(bars, k, cfg, strategy);
    StepKeepsSound(RunTo(bars, k, cfg, strategy).value, bars, k, cfg, strategy);
  }

  // ---- The end of the run ------------------------------------------------------------------------

  /** Before the warm-up is over nothing is bought. */
  lemma {:induction false} WarmupIsFlat<S>(bars: seq<Bar>, k: nat, cfg: Config, strategy: Strategy<S>)
    requires GoodConfig(cfg) && k <= |bars| && k <= cfg.warmup
    ensures var r := RunTo(bars, k, cfg, strategy);
      r.Success? && Flat(r.value.book) && r.value.memory == strategy.start && r.value.book.trades == []
  {
    if k > 0 {
      WarmupIsFlat(bars, k - 1, cfg, strategy);
    }
  }

  /** A run ends flat. */
  lemma RunEndsFlat<S>(bars: seq<Bar>, cfg: Config, strategy: Strategy<S>)
    requires GoodConfig(cfg) && GoodPrices(bars) && bars != []
    requires RunTo(bars, |bars|, cfg, strategy).Success?
    ensures Flat(RunTo(bars, |bars|, cfg, strategy).value.book)
  {
    var n := |bars|;
    if n <= cfg.warmup {
      WarmupIsFlat(bars, n, cfg, strategy);
    } else {
      EveryStateIsSound(bars, n - 1, cfg, strategy);
      ForcedExitIsSound(RunTo(bars, n - 1, cfg, strategy).value.book, bars[n - 1], n - 1, cfg);
    }
  }

  /** The commission of the forced exit on the last bar, or zero if there was none. */
  function ForcedCommission<S>(bars: seq<Bar>, cfg: Config, strategy: Strategy<S>): real
    requires bars != [] && RunTo(bars, |bars| - 1, cfg, strategy).Success?
  {
    var book, last := RunTo(bars, |bars| - 1, cfg, strategy).value.book, bars[|bars| - 1];
    if |bars| - 1 >= cfg.warmup && Holding(book) then Commission(last.close, book.quantity, cfg.rate) else 0.0
  }

  /**
    The ledger of a whole run.  The final cash is the capital plus all net profits and the capital times
    all round-trip ratios; the equity reported is that cash plus the forced exit's commission, because
    it was marked before the exit.
  */
  lemma LedgerIdentity<S>(bars: seq<Bar>, cfg: Config, strategy: Strategy<S>)
    requires GoodConfig(cfg) && GoodPrices(bars) && RunOutcome(bars, cfg, strategy).Success?
    ensures RunTo(bars, |bars|, cfg, strategy).Success? && RunTo(bars, |bars| - 1, cfg, strategy).Success?
    ensures var final, report := RunTo(bars, |bars|, cfg, strategy).value.book, RunOutcome(bars, cfg, strategy).value;
      && TradesWellPriced(report.trades)
      && final.cash == cfg.capital + SumBy(report.trades, NetPnl)
      && final.cash == Compounded(cfg.capital, report.trades, cfg.rate)
      && report.finalEquity == final.cash + ForcedCommission(bars, cfg, strategy)
  {
    var n := |bars|;
    if RunTo(bars, n - 1, cfg, strategy).Failure? {
      FailureSpreads(bars, n - 1, n, cfg, strategy);
    }
    EveryStateIsSound(bars, n, cfg, strategy);
    RunEndsFlat(bars, cfg, strategy);
    LastMark(bars, cfg, strategy);
  }

  /** The last point of the curve against the cash the run ends with. */
  lemma LastMark<S>(bars: seq<Bar>, cfg: Config, strategy: Strategy<S>)
    requires GoodConfig(cfg) && GoodPrices(bars) && bars != []
    requires RunTo(bars, |bars| - 1, cfg, strategy).Success? && RunTo(bars, |bars|, cfg, strategy).Success?
    ensures var final := RunTo(bars, |bars|, cfg, strategy).value;
      && final.curve != []
      && final.curve[|final.curve| - 1].equity == final.book.cash + ForcedCommission(bars, cfg, strategy)
  {
    var n := |bars|;
    var book := RunTo(bars, n - 1, cfg, strategy).value.book;
    EveryStateIsSound(bars, n - 1, cfg, strategy);
    if n - 1 < cfg.warmup {
      WarmupIsFlat(bars, n, cfg, strategy);
      WarmupIsFlat(bars, n - 1, cfg, strategy);
    }
    NothingHeld(bars[n - 1].close);
  }

  lemma NothingHeld(price: real)
    ensures Notional(price, 0.0) == 0.0
  {
  }
}
