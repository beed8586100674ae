/**
  The bar-by-bar backtest of psx_api/backtest/engine.py on exact reals: a signal at bar i is filled at
  the open of bar i + 1, and a position still open on the last bar is closed at its close.
*/
module Engine {
  import opened Wrappers

  datatype Bar = Bar(
    date: int, open: real, high: real, low: real, close: real, adjustedClose: real, volume: real)

  datatype RunError = NoBars | BadCapital | DivisionByZero | StrategyFailed

  datatype Decision = Decision(target: int, reason: string)

  /** A strategy closure with the state it carries from call to call. */
  datatype Strategy<!S> = Strategy(
    start: S,
    step: (S, seq<Bar>, nat) -> Result<(S, Decision), RunError>)

  /** The open position.  `bar` locates the fill; the rest is the engine's `entry` dictionary. */
  datatype Entry = Entry(bar: nat, date: int, price: real, commission: real, reason: string)

  datatype Trade = Trade(
    entryBar: nat, exitBar: nat,
    entryDate: int, entryPrice: real, exitDate: int, exitPrice: real, quantity: real, commission: real,
    grossPnl: real, netPnl: real, returnPct: real, holdingDays: int, reasonOpen: string, reasonClose: string)

  datatype EquityPoint = EquityPoint(date: int, equity: real, drawdownPct: real, inPosition: bool)

  datatype Config = Config(capital: real, rate: real, warmup: nat)

  /** What the engine owns: cash, the open position, and the trades closed so far. */
  datatype Book = Book(cash: real, quantity: real, entry: Option<Entry>, trades: seq<Trade>)

  datatype State<S> = State(book: Book, curve: seq<EquityPoint>, highWater: real, memory: S)

  // ---- Arithmetic of a fill ----------------------------------------------------------------------

  function Notional(price: real, quantity: real): real { price * quantity }
  function Commission(price: real, quantity: real, rate: real): real { price * quantity * rate }

  /** Price of one share with the commission of buying it. */
  function PriceWithFee(price: real, rate: real): real { price * (1.0 + rate) }

  function Affordable(cash: real, priceWithFee: real): real
    requires priceWithFee != 0.0
  {
    cash / priceWithFee
  }

  function DrawdownPct(peak: real, equity: real): real {
    if peak > 0.0 then (peak - equity) / peak * 100.0 else 0.0
  }

  function ReturnPct(net: real, price: real, quantity: real): real
    requires quantity > 0.0
  {
    if price > 0.0 then net / (price * quantity) * 100.0 else 0.0
  }

  function ReasonOr(reason: string, default: string): string { if reason == "" then default else reason }

  // ---- One bar -----------------------------------------------------------------------------------

  function Equity(book: Book, bar: Bar): real { book.cash + Notional(bar.close, book.quantity) }

  /** Mark to market, raise the high-water mark, record the drawdown. */
  function Mark<S>(st: State<S>, bar: Bar): State<S> {
    var equity := Equity(st.book, bar);
    var peak := if equity > st.highWater then equity else st.highWater;
    st.(highWater := peak,
        curve := st.curve + [EquityPoint(bar.date, equity, DrawdownPct(peak, equity), st.book.quantity > 0.0)])
  }

  predicate Holding(book: Book) { book.quantity > 0.0 && book.entry.Some? }

  /** Cash from selling a position, after commission. */
  function Proceeds(price: real, quantity: real, rate: real): real {
    Notional(price, quantity) - Commission(price, quantity, rate)
  }

  /** The record of a position closed at `price`. */
  function TradeOf(
    e: Entry, quantity: real, exitBar: nat, date: int, price: real, rate: real, reason: string): Trade
    requires quantity > 0.0
  {
    var commission := e.commission + Commission(price, quantity, rate);
    var gross := Notional(price - e.price, quantity);
    var net := gross - commission;
    Trade(e.bar, exitBar, e.date, e.price, date, price, quantity, commission, gross, net,
          ReturnPct(net, e.price, quantity), date - e.date, e.reason, reason)
  }

  /** Sell the whole position and write the trade. */
  function Close(book: Book, exitBar: nat, date: int, price: real, rate: real, reason: string): Book
    requires Holding(book)
  {
    Book(
      book.cash + Proceeds(price, book.quantity, rate), 0.0, None,
      book.trades + [TradeOf(book.entry.value, book.quantity, exitBar, date, price, rate, reason)])
  }

  /** Act on a decision made at bar `i`, at the open of bar `i + 1`. */
  function Fill(book: Book, next: Bar, nextIndex: nat, d: Decision, rate: real): Result<Book, RunError> {
    if d.target == 1 && book.quantity == 0.0 then
      if PriceWithFee(next.open, rate) == 0.0 then Failure(DivisionByZero)
      else
        var q := Affordable(book.cash, PriceWithFee(next.open, rate));
        if q <= 0.0 then Success(book)
        else
          var commission := Commission(next.open, q, rate);
          Success(book.(
            cash := book.cash - (Notional(next.open, q) + commission),
            quantity := q,
            entry := Some(Entry(nextIndex, next.date, next.open, commission,
                                ReasonOr(d.reason, "Strategy signalled long")))))
    else if d.target == 0 && Holding(book) then
      Success(Close(book, nextIndex, next.date, next.open, rate, ReasonOr(d.reason, "Strategy signalled flat")))
    else
      Success(book)
  }

  /** Close whatever is open at the close of the last bar. */
  function ForcedExit(book: Book, last: Bar, index: nat, rate: real): Book {
    if Holding(book) then Close(book, index, last.date, last.close, rate, "End of backtest period") else book
  }

  function Step<S>(st: State<S>, bars: seq<Bar>, i: nat, cfg: Config, strategy: Strategy<S>)
    : Result<State<S>, RunError>
    requires i < |bars|
  {
    var marked := Mark(st, bars[i]);
    if i < cfg.warmup then Success(marked)
    else if i + 1 == |bars| then Success(marked.(book := ForcedExit(st.book, bars[i], i, cfg.rate)))
    else
      var (memory, decision) :- strategy.step(st.memory, bars, i);
      var book :- Fill(st.book, bars[i + 1], i + 1, decision, cfg.rate);
      Success(marked.(book := book, memory := memory))
  }

  function Initial<S>(cfg: Config, strategy: Strategy<S>): State<S> {
    State(Book(cfg.capital, 0.0, None, []), [], cfg.capital, strategy.start)
  }

  /** The engine's state after the first `k` bars. */
  function RunTo<S>(bars: seq<Bar>, k: nat, cfg: Config, strategy: Strategy<S>): Result<State<S>, RunError>
    requires k <= |bars|
  {
    if k == 0 then Success(Initial(cfg, strategy))
    else
      var st :- RunTo(bars, k - 1, cfg, strategy);
      Step(st, bars, k - 1, cfg, strategy)
  }

  // ---- The whole run -----------------------------------------------------------------------------

  datatype BacktestRun = BacktestRun(
    curve: seq<EquityPoint>, trades: seq<Trade>, capital: real, finalEquity: real, rate: real)

  function Report<S>(st: State<S>, cfg: Config): BacktestRun {
    BacktestRun(st.curve, st.book.trades, cfg.capital,
                if st.curve == [] then cfg.capital else st.curve[|st.curve| - 1].equity, cfg.rate)
  }

  function RunOutcome<S>(bars: seq<Bar>, cfg: Config, strategy: Strategy<S>): Result<BacktestRun, RunError> {
    if bars == [] then Failure(NoBars)
    else if cfg.capital <= 0.0 then Failure(BadCapital)
    else
      var st :- RunTo(bars, |bars|, cfg, strategy);
      Success(Report(st, cfg))
  }

  lemma {:induction false} FailureSpreads<S>(bars: seq<Bar>, k: nat, n: nat, cfg: Config, strategy: Strategy<S>)
    requires k <= n <= |bars| && RunTo(bars, k, cfg, strategy).Failure?
    ensures RunTo(bars, n, cfg, strategy) == RunTo(bars, k, cfg, strategy)
  {
    if k < n {
      FailureSpreads(bars, k, n - 1, cfg, strategy);
    }
  }

  lemma RunGrows<S>(
    bars: seq<Bar>, i: nat, cfg: Config, strategy: Strategy<S>, before: State<S>, after: State<S>)
    requires i < |bars| && RunTo(bars, i, cfg, strategy) == Success(before)
    requires Step(before, bars, i, cfg, strategy) == Success(after)
    ensures RunTo(bars, i + 1, cfg, strategy) == Success(after)
  {
  }

  lemma RunStops<S>(bars: seq<Bar>, i: nat, cfg: Config, strategy: Strategy<S>, before: State<S>)
    requires i < |bars| && RunTo(bars, i, cfg, strategy) == Success(before)
    requires Step(before, bars, i, cfg, strategy).Failure?
    ensures cfg.capital > 0.0 ==>
      RunOutcome(bars, cfg, strategy) == Failure(Step(before, bars, i, cfg, strategy).error)
  {
    FailureSpreads(bars, i + 1, |bars|, cfg, strategy);
  }

  lemma SucceededBefore<S>(bars: seq<Bar>, k: nat, n: nat, cfg: Config, strategy: Strategy<S>)
    requires k <= n <= |bars| && RunTo(bars, n, cfg, strategy).Success?
    ensures RunTo(bars, k, cfg, strategy).Success?
  {
    if RunTo(bars, k, cfg, strategy).Failure? {
      FailureSpreads(bars, k, n, cfg, strategy);
    }
  }

  /** A bar on which the strategy is asked. */
  lemma TradingStep<S>(bars: seq<Bar>, k: nat, cfg: Config, strategy: Strategy<S>)
    requires cfg.warmup <= k < |bars| - 1 && RunTo(bars, k + 1, cfg, strategy).Success?
    ensures RunTo(bars, k, cfg, strategy).Success?
    ensures strategy.step(RunTo(bars, k, cfg, strategy).value.memory, bars, k).Success?
    ensures var before, after := RunTo(bars, k, cfg, strategy).value, RunTo(bars, k + 1, cfg, strategy).value;
      var answer := strategy.step(before.memory, bars, k).value;
      && Fill(before.book, bars[k + 1], k + 1, answer.1, cfg.rate) == Success(after.book)
      && after.memory == answer.0
  {
  }

  /** A completed run from its last bar: the strategy is not asked again, a position is closed. */
  lemma LastBar<S>(bars: seq<Bar>, cfg: Config, strategy: Strategy<S>)
    requires RunOutcome(bars, cfg, strategy).Success?
    ensures bars != [] && RunTo(bars, |bars| - 1, cfg, strategy).Success?
    ensures var n, book := |bars| - 1, RunTo(bars, |bars| - 1, cfg, strategy).value.book;
      RunOutcome(bars, cfg, strategy).value.trades
      == if n < cfg.warmup then book.trades else ForcedExit(book, bars[n], n, cfg.rate).trades
  {
    if RunTo(bars, |bars| - 1, cfg, strategy).Failure? {
      FailureSpreads(bars, |bars| - 1, |bars|, cfg, strategy);
    }
  }

  /** The two fills at the next open, as assignments to the loop's variables. */
  method FillAtOpen(
    cash: real, quantity: real, entry: Option<Entry>, trades: seq<Trade>, next: Bar, nextIndex: nat,
    target: int, reason: string, rate: real)
    returns (r: Result<Book, RunError>)
    ensures r == Fill(Book(cash, quantity, entry, trades), next, nextIndex, Decision(target, reason), rate)
  {
    if target == 1 && quantity == 0.0 {
      if PriceWithFee(next.open, rate) == 0.0 {
        return Failure(DivisionByZero);
      }
      var targetQty := Affordable(cash, PriceWithFee(next.open, rate));
      if targetQty <= 0.0 {
        return Success(Book(cash, quantity, entry, trades));
      }
      var commission := Commission(next.open, targetQty, rate);
      var bought := Entry(nextIndex, next.date, next.open, commission, ReasonOr(reason, "Strategy signalled long"));
      r := Success(Book(cash - (Notional(next.open, targetQty) + commission), targetQty, Some(bought), trades));
    } else if target == 0 && quantity > 0.0 && entry.Some? {
      var trade := TradeOf(
        entry.value, quantity, nextIndex, next.date, next.open, rate, ReasonOr(reason, "Strategy signalled flat"));
      r := Success(Book(cash + Proceeds(next.open, quantity, rate), 0.0, None, trades + [trade]));
    } else {
      r := Success(Book(cash, quantity, entry, trades));
    }
  }

  method Run<S>(bars: seq<Bar>, cfg: Config, strategy: Strategy<S>) returns (r: Result<BacktestRun, RunError>)
    ensures r == RunOutcome(bars, cfg, strategy)
  {
    if bars == [] {
      return Failure(NoBars);
    }
    if cfg.capital <= 0.0 {
      return Failure(BadCapital);
    }
    var cash, quantity := cfg.capital, 0.0;
    var entry: Option<Entry> := None;
    var trades: seq<Trade> := [];
    var curve: seq<EquityPoint> := [];
    var highWater := cfg.capital;
    var memory := strategy.start;
    for i := 0 to |bars|
      invariant RunTo(bars, i, cfg, strategy)
             == Success(State(Book(cash, quantity, entry, trades), curve, highWater, memory))
      invariant |curve| == i
    {
      ghost var before := State(Book(cash, quantity, entry, trades), curve, highWater, memory);
      var bar := bars[i];
      var equity := cash + Notional(bar.close, quantity);
      if equity > highWater {
        highWater := equity;
      }
      curve := curve + [EquityPoint(bar.date, equity, DrawdownPct(highWater, equity), quantity > 0.0)];
      if i < cfg.warmup {
        RunGrows(bars, i, cfg, strategy, before, before.(curve := curve, highWater := highWater));
        continue;
      }
      if i + 1 == |bars| {
        if quantity > 0.0 && entry.Some? {
          cash := cash + Proceeds(bar.close, quantity, cfg.rate);
          trades := trades + [TradeOf(
            entry.value, quantity, i, bar.date, bar.close, cfg.rate, "End of backtest period")];
          quantity := 0.0;
          entry := None;
        }
        RunGrows(bars, i, cfg, strategy, before,
                 State(Book(cash, quantity, entry, trades), curve, highWater, memory));
        continue;
      }
      var answer := strategy.step(memory, bars, i);
      if answer.Failure? {
        RunStops(bars, i, cfg, strategy, before);
        return Failure(answer.error);
      }
      memory := answer.value.0;
      var filled := FillAtOpen(
        cash, quantity, entry, trades, bars[i + 1], i + 1, answer.value.1.target, answer.value.1.reason, cfg.rate);
      if filled.Failure? {
        RunStops(bars, i, cfg, strategy, before);
        return Failure(filled.error);
      }
      cash, quantity := filled.value.cash, filled.value.quantity;
      entry, trades := filled.value.entry, filled.value.trades;
      RunGrows(bars, i, cfg, strategy, before, State(filled.value, curve, highWater, memory));
    }
    r := Success(BacktestRun(curve, trades, cfg.capital, curve[|curve| - 1].equity, cfg.rate));
  }
}
