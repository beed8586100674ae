/**
  What the figures of an account are, in terms of its rows: the snapshot of a holding, the totals of a
  simulated period and the tax of a liquidation.
*/
module AccountLaws {
  import opened Wrappers
  import opened Rounding
  import opened Sorting
  import opened Sums
  import opened Lots
  import opened Cgt
  import opened TaxMeaning
  import opened Ledger
  import opened LedgerLaws
  import opened Portfolio
  import opened PortfolioLaws

  // ---- Rows --------------------------------------------------------------------------------------

  predicate PutsSharesIn(t: Transaction) { t.kind == Buy || t.kind == Bonus || t.kind == Rights }
  predicate TakesSharesOut(t: Transaction) { t.kind == Sell }
  predicate PaysOut(t: Transaction) { t.kind == Dividend }

  function RowValue(t: Transaction): real { Times(t.price, t.quantity) }
  function LotValue(lot: BuyLot): real { Times(lot.pricePerShare, lot.quantity) }

  /** What each kind of row does to the lots held. */
  lemma RowMovesShares(h: seq<Transaction>, t: Transaction)
    ensures PutsSharesIn(t) ==> Held(h + [t]) == Held(h) + [BuyLot(t.id, t.date, t.quantity, t.price)]
    ensures TakesSharesOut(t) ==> Held(h + [t]) == Deduct(Held(h), t.quantity)
    ensures PaysOut(t) ==> Held(h + [t]) == Held(h)
  {
    HeldSnoc(h, t);
  }

  lemma {:induction false} SameFilter<T(!new)>(s: seq<T>, keep: T -> bool, other: T -> bool)
    requires forall x :: keep(x) <==> other(x)
    ensures Filter(s, keep) == Filter(s, other)
  {
    if s != [] {
      SameFilter(s[1..], keep, other);
    }
  }

  lemma RowSums(h: seq<Transaction>)
    ensures Invested(h) == SumBy(Filter(h, PutsSharesIn), RowValue)
    ensures Dividends(h) == SumBy(Filter(h, PaysOut), RowValue)
    ensures Proceeds(h) == SumBy(Filter(h, TakesSharesOut), RowValue)
  {
    SameFilter(h, IsAcquisition, PutsSharesIn);
    SameFilter(h, IsDividend, PaysOut);
    SameFilter(h, IsSell, TakesSharesOut);
    SameSum(Filter(h, PutsSharesIn), TxnValue, RowValue);
    SameSum(Filter(h, PaysOut), TxnValue, RowValue);
    SameSum(Filter(h, TakesSharesOut), TxnValue, RowValue);
  }

  // ---- The snapshot ------------------------------------------------------------------------------

  /** What was put in, what it cost to hold what is left, and what came out. */
  function PutIn(h: seq<Transaction>): real { SumBy(Filter(h, PutsSharesIn), RowValue) }
  function CostLeft(h: seq<Transaction>): real { SumBy(Open(Held(h)), LotValue) }

  lemma CostLeftIsCost(h: seq<Transaction>)
    ensures CostLeft(h) == Cost(Open(Held(h)))
  {
    SameSum(Open(Held(h)), LotValue, LotCost);
  }

  /** Nothing is shown exactly for a position that is closed, has paid nothing and has made nothing. */
  lemma NothingShownExactly(h: seq<Transaction>)
    requires RowsAllowed(h)
    ensures SnapshotOf(h).None?
       <==> && Open(Held(h)) == [] && SumBy(Filter(h, PaysOut), RowValue) == 0.0
            && MatchedProceeds(h) == PutIn(h)
  {
    RowSums(h);
    ReplayConserves(h);
    OpenIsAllOpen(Held(h));
    NoSharesNoLots(Open(Held(h)));
    if Open(Held(h)) == [] {
      assert Cost(Open(Held(h))) == 0.0;
    }
  }

  lemma NoSharesNoLots(lots: seq<BuyLot>)
    requires AllOpen(lots)
    ensures Shares(lots) == 0.0 <==> lots == []
  {
    if lots != [] {
      SharesNonNegative(lots[1..]);
    }
  }

  /** A row that shows these shares, cost, money put in, profit and dividends, each rounded half to even. */
  predicate Shows(row: Holding, shares: real, cost: real, putIn: real, profit: real, dividends: real) {
    && row.quantity == shares
    && (if shares > 0.0 then IsNearestEven(10000.0, row.avgCost, cost / shares) else row.avgCost == 0.0)
    && IsNearestEven(100.0, row.totalInvested, putIn)
    && IsNearestEven(100.0, row.realizedPnl, profit)
    && IsNearestEven(100.0, row.dividends, dividends)
  }

  lemma RoundedRow(shares: real, cost: real, putIn: real, profit: real, dividends: real)
    ensures Shows(
      Holding(shares, HalfEven4(AverageOf(cost, shares)), HalfEven2(putIn), HalfEven2(profit), HalfEven2(dividends)),
      shares, cost, putIn, profit, dividends)
  {
    if shares > 0.0 {
      HalfEvenIsNearest(cost / shares);
    } else {
      assert NearestHalfEven(10000.0 * 0.0) == 0;
    }
    HalfEvenIsNearest(putIn);
    HalfEvenIsNearest(profit);
    HalfEvenIsNearest(dividends);
  }

  /**
    The row shown for a holding: the shares left and what they cost, all money put in, the dividends, and the
    profit at which money put in, money taken out and cost left balance.
  */
  lemma SnapshotIsConserved(h: seq<Transaction>)
    requires RowsAllowed(h) && SnapshotOf(h).Some?
    ensures Shows(SnapshotOf(h).value, SumBy(Open(Held(h)), (lot: BuyLot) => lot.quantity), CostLeft(h), PutIn(h),
                  MatchedProceeds(h) + CostLeft(h) - PutIn(h), SumBy(Filter(h, PaysOut), RowValue))
  {
    var lots := Open(Held(h));
    RowSums(h);
    CostLeftIsCost(h);
    ReplayConserves(h);
    SameSum(lots, LotShares, (lot: BuyLot) => lot.quantity);
    RowOfFigures(h);
    ProfitBalances(Realized(h), MatchedProceeds(h), CostLeft(h), PutIn(h));
  }

  lemma RowOfFigures(h: seq<Transaction>)
    requires SnapshotOf(h).Some?
    ensures var lots := Open(Held(h));
      Shows(SnapshotOf(h).value, Shares(lots), Cost(lots), Invested(h), Realized(h), Dividends(h))
  {
    var lots := Open(Held(h));
    RoundedRow(Shares(lots), Cost(lots), Invested(h), Realized(h), Dividends(h));
  }

  lemma ProfitBalances(realized: real, proceeds: real, left: real, putIn: real)
    requires realized + putIn == proceeds + left
    ensures realized == proceeds + left - putIn
  {
  }

  /** On a covered history what came out is the value of all sells. */
  lemma CoveredProfit(h: seq<Transaction>)
    requires RowsAllowed(h) && Covered(h)
    ensures MatchedProceeds(h) == SumBy(Filter(h, TakesSharesOut), RowValue)
  {
    RowSums(h);
    CoveredProceeds(h);
  }

  // ---- A simulated period ------------------------------------------------------------------------

  datatype TaxedSale = TaxedSale(sale: Transaction, filer: CgtResult, nonFiler: CgtResult)

  /** The sells that a simulation taxes, in order; no window yet. */
  function TaxedSales(rows: seq<Transaction>, brackets: seq<TaxBracket>): seq<TaxedSale> {
    if rows == [] then []
    else
      var before, t := rows[..|rows| - 1], rows[|rows| - 1];
      var e := SellStep(SimHeld(ForSymbol(before, t.symbol), brackets), t, brackets);
      TaxedSales(before, brackets)
      + if TakesSharesOut(t) && IsTaxed(e) then [TaxedSale(t, e.value.filer, e.value.nonFiler)] else []
  }

  /** Both ends of the period belong to it. */
  function Within(w: Window): TaxedSale -> bool { (s: TaxedSale) => w.from <= s.sale.date && s.sale.date <= w.to }

  function SalesIn(rows: seq<Transaction>, brackets: seq<TaxBracket>, w: Window): seq<TaxedSale> {
    Filter(TaxedSales(rows, brackets), Within(w))
  }

  /** A taxed sell was matched, whole, against the simulator's lots under both statuses. */
  lemma TaxedUnderBoth(held: seq<BuyLot>, t: Transaction, brackets: seq<TaxBracket>)
    requires IsTaxed(SellStep(held, t, brackets))
    ensures var e := SellStep(held, t, brackets).value;
      && FifoOutcome(Open(held), Sale(t.quantity, t.price, t.date, true), brackets) == Success(e.filer)
      && FifoOutcome(Open(held), Sale(t.quantity, t.price, t.date, false), brackets) == Success(e.nonFiler)
  {
  }

  lemma SalesSnoc(rows: seq<Transaction>, t: Transaction, brackets: seq<TaxBracket>, w: Window)
    ensures var e := SellStep(SimHeld(ForSymbol(rows, t.symbol), brackets), t, brackets);
      SalesIn(rows + [t], brackets, w)
      == SalesIn(rows, brackets, w)
         + if IsSell(t) && IsTaxed(e) && Counts(t, w) then [TaxedSale(t, e.value.filer, e.value.nonFiler)] else []
  {
    var e := SellStep(SimHeld(ForSymbol(rows, t.symbol), brackets), t, brackets);
    assert (rows + [t])[..|rows + [t]| - 1] == rows;
    if IsSell(t) && IsTaxed(e) {
      var s := TaxedSale(t, e.value.filer, e.value.nonFiler);
      FilterAppend(TaxedSales(rows, brackets), [s], Within(w));
      assert [s][1..] == [];
      assert Filter([s], Within(w)) == if Within(w)(s) then [s] else [];
    } else {
      assert TaxedSales(rows, brackets) + [] == TaxedSales(rows, brackets);
    }
  }

  /** The totals that a list of taxed sells adds up to. */
  ghost predicate AddUpTo(sales: seq<TaxedSale>, totals: SimTotals) {
    && totals.cgtFiler == SumBy(sales, (s: TaxedSale) => s.filer.totalCgt)
    && totals.cgtNonFiler == SumBy(sales, (s: TaxedSale) => s.nonFiler.totalCgt)
    && totals.grossGain == SumBy(sales, (s: TaxedSale) => s.filer.totalGrossGain)
    && totals.brokerage == SumBy(sales, (s: TaxedSale) => s.sale.brokerage)
    && totals.fed == SumBy(sales, (s: TaxedSale) => s.sale.fed)
    && totals.cvt == SumBy(sales, (s: TaxedSale) => s.sale.cvt)
    && totals.sellCount == |sales|
  }

  lemma OneMoreSale(sales: seq<TaxedSale>, totals: SimTotals, t: Transaction, e: SellEvent)
    requires e.Taxed? && AddUpTo(sales, totals)
    ensures AddUpTo(sales + [TaxedSale(t, e.filer, e.nonFiler)], AddSale(totals, t, e))
  {
    var s := TaxedSale(t, e.filer, e.nonFiler);
    SumSnoc(sales, s, (s: TaxedSale) => s.filer.totalCgt);
    SumSnoc(sales, s, (s: TaxedSale) => s.nonFiler.totalCgt);
    SumSnoc(sales, s, (s: TaxedSale) => s.filer.totalGrossGain);
    SumSnoc(sales, s, (s: TaxedSale) => s.sale.brokerage);
    SumSnoc(sales, s, (s: TaxedSale) => s.sale.fed);
    SumSnoc(sales, s, (s: TaxedSale) => s.sale.cvt);
  }

  /** The simulator's seven totals are sums over the taxed sells from the first to the last day of the period. */
  lemma {:induction false} SimTotalsAreSums(rows: seq<Transaction>, brackets: seq<TaxBracket>, w: Window)
    requires SimTotalsOf(rows, brackets, w).Success?
    ensures AddUpTo(SalesIn(rows, brackets, w), SimTotalsOf(rows, brackets, w).value)
  {
    if rows != [] {
      var before, t := rows[..|rows| - 1], rows[|rows| - 1];
      assert rows == before + [t];
      SimTotalsAreSums(before, brackets, w);
      SimTotalsSnoc(before, t, brackets, w);
      SalesSnoc(before, t, brackets, w);
      var e := SellStep(SimHeld(ForSymbol(before, t.symbol), brackets), t, brackets);
      if IsSell(t) && IsTaxed(e) && Counts(t, w) {
        OneMoreSale(SalesIn(before, brackets, w), SimTotalsOf(before, brackets, w).value, t, e.value);
      } else {
        assert SalesIn(before, brackets, w) + [] == SalesIn(before, brackets, w);
      }
    }
  }

  /** A figure of the totals that adds up when totals do. */
  ghost predicate Additive(figure: SimTotals -> real) {
    figure(NO_TOTALS) == 0.0 && forall a, b :: figure(AddTotals(a, b)) == figure(a) + figure(b)
  }

  function Figure(brackets: seq<TaxBracket>, w: Window, figure: SimTotals -> real): seq<Transaction> -> real {
    (table: seq<Transaction>) =>
      var r := SimTotalsOf(Chronological(table), brackets, w);
      if r.Success? then figure(r.value) else 0.0
  }

  lemma {:induction false} FigureAddsUp(
    tables: seq<seq<Transaction>>, brackets: seq<TaxBracket>, w: Window, figure: SimTotals -> real)
    requires SimulateAll(tables, brackets, w).Success? && Additive(figure)
    ensures figure(SimulateAll(tables, brackets, w).value) == SumBy(tables, Figure(brackets, w, figure))
  {
    if tables != [] {
      FigureAddsUp(tables[1..], brackets, w, figure);
      var first := SimTotalsOf(Chronological(tables[0]), brackets, w).value;
      var rest := SimulateAll(tables[1..], brackets, w).value;
      assert figure(AddTotals(first, rest)) == figure(first) + figure(rest);
    }
  }

  /** Over several portfolios each of the seven totals is the sum of the portfolios' own. */
  lemma PortfoliosAddUp(tables: seq<seq<Transaction>>, brackets: seq<TaxBracket>, w: Window)
    requires SimulateAll(tables, brackets, w).Success?
    ensures var all := SimulateAll(tables, brackets, w).value;
      && all.cgtFiler == SumBy(tables, Figure(brackets, w, (x: SimTotals) => x.cgtFiler))
      && all.cgtNonFiler == SumBy(tables, Figure(brackets, w, (x: SimTotals) => x.cgtNonFiler))
      && all.grossGain == SumBy(tables, Figure(brackets, w, (x: SimTotals) => x.grossGain))
      && all.brokerage == SumBy(tables, Figure(brackets, w, (x: SimTotals) => x.brokerage))
      && all.fed == SumBy(tables, Figure(brackets, w, (x: SimTotals) => x.fed))
      && all.cvt == SumBy(tables, Figure(brackets, w, (x: SimTotals) => x.cvt))
      && all.sellCount as real == SumBy(tables, Figure(brackets, w, (x: SimTotals) => x.sellCount as real))
  {
    FigureAddsUp(tables, brackets, w, (x: SimTotals) => x.cgtFiler);
    FigureAddsUp(tables, brackets, w, (x: SimTotals) => x.cgtNonFiler);
    FigureAddsUp(tables, brackets, w, (x: SimTotals) => x.grossGain);
    FigureAddsUp(tables, brackets, w, (x: SimTotals) => x.brokerage);
    FigureAddsUp(tables, brackets, w, (x: SimTotals) => x.fed);
    FigureAddsUp(tables, brackets, w, (x: SimTotals) => x.cvt);
    FigureAddsUp(tables, brackets, w, (x: SimTotals) => x.sellCount as real);
  }

  function SoldWithin(w: Window): Transaction -> bool {
    (t: Transaction) => t.kind == Sell && w.from <= t.date && t.date <= w.to
  }

  /** The tax on the books of a period: of the sells from its first to its last day. */
  lemma {:induction false} StoredTaxIsSum(rows: seq<Transaction>, w: Window)
    ensures StoredTax(rows, w) == SumBy(Filter(rows, SoldWithin(w)), (t: Transaction) => t.cgt)
  {
    if rows != [] {
      var before, t := rows[..|rows| - 1], rows[|rows| - 1];
      assert rows == before + [t];
      StoredTaxIsSum(before, w);
      SumFilterSnoc(before, t, SoldWithin(w), (t: Transaction) => t.cgt);
    }
  }

  /** Entering a row: refused for an unknown symbol or a sell that cannot be matched; otherwise saved with its tax. */
  lemma EntryIsTaxed(
    table: seq<Transaction>, securities: set<string>, row: Transaction, isFiler: bool, brackets: seq<TaxBracket>)
    ensures var (r, after) := CreateOutcome(table, securities, row, isFiler, brackets);
      var sale := Sale(row.quantity, row.price, row.date, isFiler);
      var m := FifoOutcome(BulkOpen(History(table, row.symbol)), sale, brackets);
      && (r.Failure? <==> row.symbol !in securities || (row.kind == Sell && m.Failure?))
      && (r.Success? ==>
            after == table + [row.(cgt := if row.kind == Sell then m.value.totalCgt else 0.0)] == table + [r.value])
      && (r.Failure? ==> after == table)
  {
  }

  // ---- A liquidation -----------------------------------------------------------------------------

  /** The tax on selling one lot by itself. */
  function PairTax(close: real, today: int, isFiler: bool, brackets: seq<TaxBracket>): BuyLot -> real {
    (lot: BuyLot) =>
      var r := CalculateCgt(lot.pricePerShare, close, lot.quantity, today - lot.buyDate, isFiler, today, brackets);
      if r.Success? then r.value else 0.0
  }

  lemma {:induction false} PairTaxesAddUp(
    matched: seq<MatchedLot>, lots: seq<BuyLot>, sale: Sale, brackets: seq<TaxBracket>)
    requires |matched| == |lots|
    requires forall k :: 0 <= k < |matched| ==> SoldWhole(matched[k], lots[k], sale, brackets)
    ensures SumBy(matched, (m: MatchedLot) => m.cgt)
         == SumBy(lots, PairTax(sale.price, sale.date, sale.isFiler, brackets))
  {
    if matched != [] {
      assert SoldWhole(matched[0], lots[0], sale, brackets);
      PairTaxesAddUp(matched[1..], lots[1..], sale, brackets);
    }
  }

  /** The tax of a liquidation is that of selling every lot left, each by itself, at the close and today. */
  lemma LiquidationTaxIsSum(
    h: seq<Transaction>, close: real, today: int, isFiler: bool, brackets: seq<TaxBracket>)
    requires BulkOpen(h) != []
    requires FifoOutcome(BulkOpen(h), Sale(Shares(BulkOpen(h)), close, today, isFiler), brackets).Success?
    ensures LiquidationCgt(h, close, today, isFiler, brackets)
         == SumBy(BulkOpen(h), PairTax(close, today, isFiler, brackets))
  {
    var lots := BulkOpen(h);
    var sale := Sale(Shares(lots), close, today, isFiler);
    OpenIsAllOpen(Deduct(Bought(h), Sold(h)));
    LiquidationTaxesEveryLot(lots, close, today, isFiler, brackets);
    TotalsOfRecords(lots, sale, brackets);
    PairTaxesAddUp(FifoOutcome(lots, sale, brackets).value.matched, Sort(lots, OlderOrSame), sale, brackets);
    SortPermutes(lots, OlderOrSame);
    SumPermutes(Sort(lots, OlderOrSame), lots, PairTax(close, today, isFiler, brackets));
  }

  function HoldingTax(
    table: seq<Transaction>, today: int, isFiler: bool, brackets: seq<TaxBracket>): MarketHolding -> real
  {
    (h: MarketHolding) =>
      if h.lastClose.Some? then LiquidationCgt(History(table, h.symbol), h.lastClose.value, today, isFiler, brackets)
      else 0.0
  }

  lemma TaxOfLast(
    table: seq<Transaction>, before: seq<MarketHolding>, last: MarketHolding, today: int, isFiler: bool,
    brackets: seq<TaxBracket>)
    requires last.lastClose.Some?
    ensures SumBy(before + [last], HoldingTax(table, today, isFiler, brackets))
         == SumBy(before, HoldingTax(table, today, isFiler, brackets))
            + LiquidationCgt(History(table, last.symbol), last.lastClose.value, today, isFiler, brackets)
  {
    SumSnoc(before, last, HoldingTax(table, today, isFiler, brackets));
  }

  /** The estimate for several holdings is the sum of their taxes. */
  lemma {:induction false} LiquidationTotalIsSum(
    table: seq<Transaction>, holdings: seq<MarketHolding>, today: int, isFiler: bool, brackets: seq<TaxBracket>)
    requires forall k :: 0 <= k < |holdings| ==> holdings[k].lastClose.Some?
    ensures LiquidationTotal(table, holdings, today, isFiler, brackets)
         == SumBy(holdings, HoldingTax(table, today, isFiler, brackets))
  {
    if holdings != [] {
      var before, last := holdings[..|holdings| - 1], holdings[|holdings| - 1];
      LiquidationTotalIsSum(table, before, today, isFiler, brackets);
      TaxOfLast(table, before, last, today, isFiler, brackets);
      assert holdings == before + [last];
    }
  }

  /** Which holdings the estimate counts, and for how much before tax: those held that have a close. */
  lemma EstimateCounts(rows: seq<MarketHolding>)
    ensures Filter(rows, Eligible) == Filter(rows, (h: MarketHolding) => h.lastClose.Some? && h.quantity > 0.0)
    ensures SumBy(Filter(rows, Eligible), UnrealizedOrZero)
         == SumBy(Filter(rows, Eligible), (h: MarketHolding) => if h.unrealized.Some? then h.unrealized.value else 0.0)
  {
    SameFilter(rows, Eligible, (h: MarketHolding) => h.lastClose.Some? && h.quantity > 0.0);
    SameSum(Filter(rows, Eligible), UnrealizedOrZero,
            (h: MarketHolding) => if h.unrealized.Some? then h.unrealized.value else 0.0);
  }
}
