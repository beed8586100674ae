/**
  The transaction ledger of one portfolio and the three answers the repository gives to "which lots are
  still open": replaying a queue, deducting the total of the sells, and the simulator's own walk.
  A history is the list of one symbol's transactions in (transaction_date, created_at) order.
*/
module Ledger {
  import opened Wrappers
  import opened Sorting
  import opened Sums
  import opened Lots
  import opened Cgt

  datatype Kind = Buy | Sell | Dividend | Bonus | Rights

  datatype Transaction = Transaction(
    id: int, symbol: string, kind: Kind, date: int, quantity: real, price: real,
    brokerage: real, fed: real, cvt: real, cgt: real)

  predicate IsAcquisition(t: Transaction) { t.kind == Buy || t.kind == Bonus || t.kind == Rights }
  predicate IsSell(t: Transaction) { t.kind == Sell }

  /** The table's CHECK constraints. */
  predicate RowAllowed(t: Transaction) { t.quantity > 0.0 && t.price >= 0.0 }
  predicate RowsAllowed(h: seq<Transaction>) { forall k :: 0 <= k < |h| ==> RowAllowed(h[k]) }

  function LotOf(t: Transaction): BuyLot { BuyLot(t.id, t.date, t.quantity, t.price) }
  function SaleOf(t: Transaction, isFiler: bool): Sale { Sale(t.quantity, t.price, t.date, isFiler) }
  function TxnShares(t: Transaction): real { t.quantity }
  function TxnValue(t: Transaction): real { Value(t.price, t.quantity) }

  // ---- Queries -----------------------------------------------------------------------------------

  /** Rows are kept in creation order, so ordering by (date, created_at) is a stable sort by date. */
  predicate ByDate(a: Transaction, b: Transaction) { a.date <= b.date }

  function SymbolIs(symbol: string): Transaction -> bool { (t: Transaction) => t.symbol == symbol }

  function Chronological(table: seq<Transaction>): seq<Transaction> { Sort(table, ByDate) }

  function ForSymbol(rows: seq<Transaction>, symbol: string): seq<Transaction> { Filter(rows, SymbolIs(symbol)) }

  function History(table: seq<Transaction>, symbol: string): seq<Transaction> {
    Chronological(ForSymbol(table, symbol))
  }

  function LotsOf(buys: seq<Transaction>): (lots: seq<BuyLot>)
    ensures |lots| == |buys|
  {
    if buys == [] then [] else [LotOf(buys[0])] + LotsOf(buys[1..])
  }

  function Bought(h: seq<Transaction>): seq<BuyLot> { LotsOf(Filter(h, IsAcquisition)) }
  function Sold(h: seq<Transaction>): real { SumBy(Filter(h, IsSell), TxnShares) }

  // ---- Form 1: replay, sell by sell --------------------------------------------------------------

  /** Every lot ever bought with what the sells so far left of it. */
  function Held(h: seq<Transaction>): seq<BuyLot> {
    if h == [] then []
    else
      var before, t := Held(h[..|h| - 1]), h[|h| - 1];
      if IsAcquisition(t) then before + [LotOf(t)]
      else if IsSell(t) then Deduct(before, t.quantity)
      else before
  }

  /** What the last row of a history takes from the lots held before it. */
  function LastFills(h: seq<Transaction>): seq<Fill>
    requires h != []
  {
    var t := h[|h| - 1];
    if IsSell(t) then Consume(Held(h[..|h| - 1]), t.quantity) else []
  }

  function Realized(h: seq<Transaction>): real {
    if h == [] then 0.0
    else Realized(h[..|h| - 1]) + ExactGain(LastFills(h), h[|h| - 1].price)
  }

  function Invested(h: seq<Transaction>): real { SumBy(Filter(h, IsAcquisition), TxnValue) }

  predicate IsDividend(t: Transaction) { t.kind == Dividend }
  function Dividends(h: seq<Transaction>): real { SumBy(Filter(h, IsDividend), TxnValue) }

  /** The queue keeps only what is left of a lot and its price. */
  datatype Slot = Slot(quantity: real, price: real)

  function Slots(lots: seq<BuyLot>): (r: seq<Slot>)
    ensures |r| == |lots|
  {
    if lots == [] then [] else [Slot(lots[0].quantity, lots[0].pricePerShare)] + Slots(lots[1..])
  }

  // ---- Form 2: deduct the total of the sells -----------------------------------------------------

  function BulkOpen(h: seq<Transaction>): seq<BuyLot> { Open(Deduct(Bought(h), Sold(h))) }

  // ---- Form 3: the tax simulator's walk ----------------------------------------------------------

  datatype SellEvent = NoLots | NoRule | Taxed(filer: CgtResult, nonFiler: CgtResult)

  /**
    One sell in the simulator.  A missing bracket, under either status, skips the sell; a shortage is not
    caught and ends the simulation.
  */
  function SellStep(held: seq<BuyLot>, t: Transaction, brackets: seq<TaxBracket>): Result<SellEvent, TaxError> {
    var lots := Open(held);
    if lots == [] then Success(NoLots)
    else
      var filer := FifoOutcome(lots, SaleOf(t, true), brackets);
      var nonFiler := FifoOutcome(lots, SaleOf(t, false), brackets);
      if filer == Failure(NoApplicableTaxRule) then Success(NoRule)
      else if filer.Failure? then Failure(filer.error)
      else if nonFiler == Failure(NoApplicableTaxRule) then Success(NoRule)
      else if nonFiler.Failure? then Failure(nonFiler.error)
      else Success(Taxed(filer.value, nonFiler.value))
  }

  predicate IsTaxed(e: Result<SellEvent, TaxError>) { e.Success? && e.value.Taxed? }

  /** The simulator's lots of one symbol: a sell that is skipped leaves them as they are. */
  function SimHeld(h: seq<Transaction>, brackets: seq<TaxBracket>): seq<BuyLot> {
    if h == [] then []
    else
      var before, t := SimHeld(h[..|h| - 1], brackets), h[|h| - 1];
      if IsAcquisition(t) then before + [LotOf(t)]
      else if IsSell(t) && IsTaxed(SellStep(before, t, brackets)) then Deduct(before, t.quantity)
      else before
  }

  /** What the simulator does at the last row of a chronological table, if it is a sell. */
  function LastEvent(rows: seq<Transaction>, brackets: seq<TaxBracket>): Result<SellEvent, TaxError>
    requires rows != []
  {
    var before, t := rows[..|rows| - 1], rows[|rows| - 1];
    SellStep(SimHeld(ForSymbol(before, t.symbol), brackets), t, brackets)
  }

  datatype SimTotals = SimTotals(
    cgtFiler: real, cgtNonFiler: real, grossGain: real, brokerage: real, fed: real, cvt: real, sellCount: nat)

  const NO_TOTALS := SimTotals(0.0, 0.0, 0.0, 0.0, 0.0, 0.0, 0)

  datatype Window = Window(from: int, to: int)

  predicate Counts(t: Transaction, w: Window) { w.from <= t.date <= w.to }

  function AddSale(totals: SimTotals, t: Transaction, e: SellEvent): SimTotals
    requires e.Taxed?
  {
    SimTotals(
      totals.cgtFiler + e.filer.totalCgt,
      totals.cgtNonFiler + e.nonFiler.totalCgt,
      totals.grossGain + e.filer.totalGrossGain,
      totals.brokerage + t.brokerage,
      totals.fed + t.fed,
      totals.cvt + t.cvt,
      totals.sellCount + 1)
  }

  /** The simulator's totals over a chronological table. */
  function SimTotalsOf(rows: seq<Transaction>, brackets: seq<TaxBracket>, w: Window): Result<SimTotals, TaxError> {
    if rows == [] then Success(NO_TOTALS)
    else
      var totals :- SimTotalsOf(rows[..|rows| - 1], brackets, w);
      var t := rows[|rows| - 1];
      if !IsSell(t) then Success(totals)
      else
        var e :- LastEvent(rows, brackets);
        Success(if e.Taxed? && Counts(t, w) then AddSale(totals, t, e) else totals)
  }

  // ---- Stepping along a history ------------------------------------------------------------------

  lemma {:induction false} LotsAppend(a: seq<Transaction>, b: seq<Transaction>)
    ensures LotsOf(a + b) == LotsOf(a) + LotsOf(b)
  {
    if a == [] {
      assert a + b == b;
    } else {
      assert (a + b)[1..] == a[1..] + b;
      LotsAppend(a[1..], b);
    }
  }

  lemma BoughtSnoc(h: seq<Transaction>, t: Transaction)
    ensures Bought(h + [t]) == Bought(h) + (if IsAcquisition(t) then [LotOf(t)] else [])
  {
    FilterAppend(h, [t], IsAcquisition);
    LotsAppend(Filter(h, IsAcquisition), Filter([t], IsAcquisition));
  }

  lemma SumFilterSnoc(h: seq<Transaction>, t: Transaction, keep: Transaction -> bool, f: Transaction -> real)
    ensures SumBy(Filter(h + [t], keep), f) == SumBy(Filter(h, keep), f) + (if keep(t) then f(t) else 0.0)
  {
    FilterAppend(h, [t], keep);
    SumAppend(Filter(h, keep), Filter([t], keep), f);
    assert Filter([t], keep) == if keep(t) then [t] else [];
    SumSnoc([], t, f);
    assert [] + [t] == [t];
  }

  lemma HeldSnoc(h: seq<Transaction>, t: Transaction)
    ensures Held(h + [t])
         == if IsAcquisition(t) then Held(h) + [LotOf(t)]
            else if IsSell(t) then Deduct(Held(h), t.quantity)
            else Held(h)
  {
    assert (h + [t])[..|h + [t]| - 1] == h;
  }

  lemma SimHeldSnoc(h: seq<Transaction>, t: Transaction, brackets: seq<TaxBracket>)
    ensures SimHeld(h + [t], brackets)
         == if IsAcquisition(t) then SimHeld(h, brackets) + [LotOf(t)]
            else if IsSell(t) && IsTaxed(SellStep(SimHeld(h, brackets), t, brackets))
            then Deduct(SimHeld(h, brackets), t.quantity)
            else SimHeld(h, brackets)
  {
    assert (h + [t])[..|h + [t]| - 1] == h;
  }

  lemma SimTotalsSnoc(rows: seq<Transaction>, t: Transaction, brackets: seq<TaxBracket>, w: Window)
    requires SimTotalsOf(rows, brackets, w).Success?
    ensures var e := SellStep(SimHeld(ForSymbol(rows, t.symbol), brackets), t, brackets);
      var totals := SimTotalsOf(rows, brackets, w).value;
      SimTotalsOf(rows + [t], brackets, w)
      == if !IsSell(t) then Success(totals)
         else if e.Failure? then Failure(e.error)
         else Success(if e.value.Taxed? && Counts(t, w) then AddSale(totals, t, e.value) else totals)
  {
    assert (rows + [t])[..|rows + [t]| - 1] == rows;
  }

  lemma RealizedSnoc(h: seq<Transaction>, t: Transaction)
    ensures Realized(h + [t])
         == Realized(h) + (if IsSell(t) then ExactGain(Consume(Held(h), t.quantity), t.price) else 0.0)
  {
    assert (h + [t])[..|h + [t]| - 1] == h;
  }

  lemma ForSymbolSnoc(rows: seq<Transaction>, t: Transaction, symbol: string)
    ensures ForSymbol(rows + [t], symbol)
         == ForSymbol(rows, symbol) + (if t.symbol == symbol then [t] else [])
  {
    FilterAppend(rows, [t], SymbolIs(symbol));
  }

  lemma {:induction false} HeldNonNegative(h: seq<Transaction>)
    requires RowsAllowed(h)
    ensures NonNegative(Held(h))
  {
    if h != [] {
      HeldNonNegative(h[..|h| - 1]);
      if IsSell(h[|h| - 1]) {
        DeductConserves(Held(h[..|h| - 1]), h[|h| - 1].quantity);
      }
    }
  }
}
