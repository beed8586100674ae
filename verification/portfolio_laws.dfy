/** What holds of every ledger that was entered, in date order, through `Create`. */
module PortfolioLaws {
  import opened Wrappers
  import opened Rounding
  import opened Sorting
  import opened Sums
  import opened Lots
  import opened Cgt
  import opened CgtLaws
  import opened TaxTable
  import opened Ledger
  import opened LedgerLaws
  import opened SimulatorLaws
  import opened Portfolio

  // ---- Ledgers entered in order ------------------------------------------------------------------

  /** Each row was accepted by `Create`, under one filer status, with a date no earlier than those before it. */
  ghost predicate EnteredInOrder(table: seq<Transaction>, isFiler: bool, brackets: seq<TaxBracket>) {
    table == []
    || var before, t := table[..|table| - 1], table[|table| - 1];
       && EnteredInOrder(before, isFiler, brackets)
       && RowAllowed(t)
       && (before != [] ==> before[|before| - 1].date <= t.date)
       && EntryCgt(before, t, isFiler, brackets) == Success(t.cgt)
  }

  lemma EnteredLast(table: seq<Transaction>, t: Transaction, isFiler: bool, brackets: seq<TaxBracket>)
    requires EnteredInOrder(table, isFiler, brackets) && RowAllowed(t)
    requires table != [] ==> table[|table| - 1].date <= t.date
    requires EntryCgt(table, t, isFiler, brackets) == Success(t.cgt)
    ensures EnteredInOrder(table + [t], isFiler, brackets)
  {
    assert (table + [t])[..|table + [t]| - 1] == table;
  }

  /**
    The table that a call of `Create` leaves, saved or refused, was entered in order if the one it found
    was and the new row is not back-dated.
  */
  lemma CreateKeepsOrder(
    table: seq<Transaction>, securities: set<string>, row: Transaction, isFiler: bool, brackets: seq<TaxBracket>)
    requires EnteredInOrder(table, isFiler, brackets) && RowAllowed(row)
    requires table != [] ==> table[|table| - 1].date <= row.date
    ensures var (r, after) := CreateOutcome(table, securities, row, isFiler, brackets);
      && EnteredInOrder(after, isFiler, brackets)
      && after == (if r.Success? then table + [r.value] else table)
  {
    var (r, after) := CreateOutcome(table, securities, row, isFiler, brackets);
    if r.Success? {
      EntryIgnoresStoredTax(table, row, r.value, isFiler, brackets);
      EnteredLast(table, r.value, isFiler, brackets);
    }
  }

  lemma EntryIgnoresStoredTax(
    table: seq<Transaction>, row: Transaction, saved: Transaction, isFiler: bool, brackets: seq<TaxBracket>)
    requires saved == row.(cgt := saved.cgt)
    ensures EntryCgt(table, saved, isFiler, brackets) == EntryCgt(table, row, isFiler, brackets)
  {
  }

  lemma SortedSnoc(before: seq<Transaction>, t: Transaction)
    requires Sorted(before, ByDate) && (before != [] ==> before[|before| - 1].date <= t.date)
    ensures Sorted(before + [t], ByDate)
  {
    forall i | 0 <= i < |before|
      ensures ByDate(before[i], t)
    {
      assert i == |before| - 1 || ByDate(before[i], before[|before| - 1]);
    }
  }

  lemma {:induction false} EnteredIsSorted(table: seq<Transaction>, isFiler: bool, brackets: seq<TaxBracket>)
    requires EnteredInOrder(table, isFiler, brackets)
    ensures RowsAllowed(table) && Sorted(table, ByDate) && Chronological(table) == table
  {
    if table != [] {
      var before := table[..|table| - 1];
      EnteredIsSorted(before, isFiler, brackets);
      SortedSnoc(before, table[|table| - 1]);
      assert table == before + [table[|table| - 1]];
    }
    SortOfSorted(table, ByDate);
  }

  lemma {:induction false} EnteredPrefix(table: seq<Transaction>, n: nat, isFiler: bool, brackets: seq<TaxBracket>)
    requires EnteredInOrder(table, isFiler, brackets) && n <= |table|
    ensures EnteredInOrder(table[..n], isFiler, brackets)
  {
    if n == |table| {
      assert table[..n] == table;
    } else {
      assert table[..|table| - 1][..n] == table[..n];
      EnteredPrefix(table[..|table| - 1], n, isFiler, brackets);
    }
  }

  // ---- Create and the simulator agree ------------------------------------------------------------

  /** What one symbol's rows look like to all the services at once. */
  ghost predicate InSync(h: seq<Transaction>, brackets: seq<TaxBracket>) {
    RowsAllowed(h) && Covered(h) && SimHeld(h, brackets) == Held(h)
  }

  lemma {:induction false} OtherStatusIsTaxable(fills: seq<Fill>, a: Sale, b: Sale, brackets: seq<TaxBracket>)
    requires CoversBothStatuses(brackets) && b == a.(isFiler := b.isFiler) && AllTaxable(fills, a, brackets)
    ensures AllTaxable(fills, b, brackets)
  {
    if fills != [] {
      OtherStatusIsTaxable(fills[1..], a, b, brackets);
      var days := HoldingDays(fills[0].lot, a);
      assert FindBracket(brackets, a.date, true, days).Success?
        <==> FindBracket(brackets, a.date, false, days).Success?;
    }
  }

  lemma OtherStatusSucceeds(lots: seq<BuyLot>, a: Sale, b: Sale, brackets: seq<TaxBracket>)
    requires CoversBothStatuses(brackets) && b == a.(isFiler := b.isFiler)
    requires FifoOutcome(lots, a, brackets).Success?
    ensures FifoOutcome(lots, b, brackets).Success?
  {
    OtherStatusIsTaxable(Consume(Sort(lots, OlderOrSame), a.quantity), a, b, brackets);
  }

  lemma NoLotsNoSale(sale: Sale, brackets: seq<TaxBracket>)
    ensures FifoOutcome([], sale, brackets).Failure?
  {
  }

  /** A sell that `Create` accepts on lots in sync is taxed by the simulator, to the same amount. */
  lemma AcceptedSellIsSimulated(
    h: seq<Transaction>, t: Transaction, isFiler: bool, brackets: seq<TaxBracket>)
    requires InSync(h, brackets) && IsSell(t) && RowAllowed(t) && CoversBothStatuses(brackets)
    requires FifoOutcome(BulkOpen(h), SaleOf(t, isFiler), brackets).Success?
    ensures var e := SellStep(SimHeld(h, brackets), t, brackets);
      && IsTaxed(e)
      && FifoOutcome(BulkOpen(h), SaleOf(t, isFiler), brackets).value
         == if isFiler then e.value.filer else e.value.nonFiler
  {
    CoveredAgrees(h);
    NoLotsNoSale(SaleOf(t, isFiler), brackets);
    OtherStatusSucceeds(BulkOpen(h), SaleOf(t, isFiler), SaleOf(t, true), brackets);
    OtherStatusSucceeds(BulkOpen(h), SaleOf(t, isFiler), SaleOf(t, false), brackets);
  }

  lemma AcceptedSellIsCovered(h: seq<Transaction>, t: Transaction, isFiler: bool, brackets: seq<TaxBracket>)
    requires InSync(h, brackets) && IsSell(t) && RowAllowed(t)
    requires FifoOutcome(BulkOpen(h), SaleOf(t, isFiler), brackets).Success?
    ensures Net(h + [t]) >= 0.0
  {
    BulkPosition(h);
    OpenTwice(Deduct(Bought(h), Sold(h)));
    MatchFailsExactly(BulkOpen(h), SaleOf(t, isFiler), brackets);
    NetSnoc(h, t);
  }

  lemma InSyncStep(h: seq<Transaction>, t: Transaction, isFiler: bool, brackets: seq<TaxBracket>)
    requires InSync(h, brackets) && RowAllowed(t) && CoversBothStatuses(brackets)
    requires Net(h) >= 0.0
    requires IsSell(t) ==> FifoOutcome(BulkOpen(h), SaleOf(t, isFiler), brackets).Success?
    ensures InSync(h + [t], brackets) && Net(h + [t]) >= 0.0
  {
    assert (h + [t])[..|h + [t]| - 1] == h;
    HeldSnoc(h, t);
    SimHeldSnoc(h, t, brackets);
    NetSnoc(h, t);
    if IsSell(t) {
      AcceptedSellIsSimulated(h, t, isFiler, brackets);
      AcceptedSellIsCovered(h, t, isFiler, brackets);
    }
  }

  lemma {:induction false} EnteredIsInSync(
    table: seq<Transaction>, symbol: string, isFiler: bool, brackets: seq<TaxBracket>)
    requires EnteredInOrder(table, isFiler, brackets) && CoversBothStatuses(brackets)
    ensures InSync(ForSymbol(table, symbol), brackets) && Net(ForSymbol(table, symbol)) >= 0.0
  {
    if table == [] {
      assert Net([]) == 0.0;
    } else {
      var before, t := table[..|table| - 1], table[|table| - 1];
      assert table == before + [t];
      EnteredIsInSync(before, symbol, isFiler, brackets);
      ForSymbolSnoc(before, t, symbol);
      if t.symbol == symbol {
        EnteredIsSorted(before, isFiler, brackets);
        HistoryFromTable(before, symbol);
        InSyncStep(ForSymbol(before, symbol), t, isFiler, brackets);
      } else {
        assert ForSymbol(before, symbol) + [] == ForSymbol(before, symbol);
      }
    }
  }

  lemma LastSellIsSimulated(before: seq<Transaction>, t: Transaction, isFiler: bool, brackets: seq<TaxBracket>)
    requires EnteredInOrder(before + [t], isFiler, brackets) && CoversBothStatuses(brackets) && IsSell(t)
    ensures var e := SellStep(SimHeld(ForSymbol(before, t.symbol), brackets), t, brackets);
      IsTaxed(e) && t.cgt == (if isFiler then e.value.filer else e.value.nonFiler).totalCgt
  {
    assert (before + [t])[..|before + [t]| - 1] == before;
    EnteredIsInSync(before, t.symbol, isFiler, brackets);
    EnteredIsSorted(before, isFiler, brackets);
    HistoryFromTable(before, t.symbol);
    AcceptedSellIsSimulated(ForSymbol(before, t.symbol), t, isFiler, brackets);
  }

  /**
    The CGT stored when a sell was entered is the CGT the simulator recomputes for it, under the status
    it was entered with; same-day purchases included.
  */
  lemma StoredTaxIsSimulatedTax(table: seq<Transaction>, k: nat, isFiler: bool, brackets: seq<TaxBracket>)
    requires EnteredInOrder(table, isFiler, brackets) && CoversBothStatuses(brackets)
    requires k < |table| && IsSell(table[k])
    ensures Chronological(table) == table
    ensures var e := SellStep(SimHeld(ForSymbol(table[..k], table[k].symbol), brackets), table[k], brackets);
      IsTaxed(e) && table[k].cgt == (if isFiler then e.value.filer else e.value.nonFiler).totalCgt
  {
    var before, t := table[..k], table[k];
    assert Chronological(table) == table by {
      EnteredIsSorted(table, isFiler, brackets);
    }
    assert EnteredInOrder(before + [t], isFiler, brackets) by {
      EnteredPrefix(table, k + 1, isFiler, brackets);
      TakeOneMore(table, k);
    }
    LastSellIsSimulated(before, t, isFiler, brackets);
  }

  // ---- A ledger not entered in order -------------------------------------------------------------

  /**
    A purchase, a sale of it without a gain before July 2022, and an earlier and cheaper purchase that is
    entered last: taken from that one, the sale would have been at a gain.
  */
  predicate BackDated(late: Transaction, sell: Transaction, early: Transaction) {
    && late.kind == Buy && sell.kind == Sell && early.kind == Buy
    && RowAllowed(late) && RowAllowed(sell) && RowAllowed(early)
    && late.symbol == sell.symbol == early.symbol && late.quantity == sell.quantity == early.quantity
    && early.date < late.date <= sell.date < JULY_2022
    && late.cgt == sell.cgt == early.cgt == 0.0
    && Gain(late.price, sell.price, sell.quantity) <= 0.0 < Gain(early.price, sell.price, sell.quantity)
  }

  /** The table after entering rows one after the other. */
  function Entered(
    rows: seq<Transaction>, securities: set<string>, isFiler: bool, brackets: seq<TaxBracket>): seq<Transaction>
  {
    if rows == [] then []
    else
      var (_, after) := CreateOutcome(
        Entered(rows[..|rows| - 1], securities, isFiler, brackets), securities, rows[|rows| - 1], isFiler, brackets);
      after
  }

  /** A sale without a gain needs no bracket and costs no tax. */
  lemma LossIsTaxFree(lot: BuyLot, sale: Sale, brackets: seq<TaxBracket>)
    requires sale.quantity == lot.quantity > 0.0 && Gain(lot.pricePerShare, sale.price, sale.quantity) <= 0.0
    ensures FifoOutcome([lot], sale, brackets).Success? && FifoOutcome([lot], sale, brackets).value.totalCgt == 0.0
  {
    var f := Fill(lot, lot.quantity);
    assert [lot] == [lot] + [];
    OldestLotIsUsed(lot, []);
    assert [f][1..] == [];
    assert AllTaxable([f], sale, brackets);
    assert Shares([lot]) == lot.quantity + Shares([lot][1..]);
    MatchFailsExactly([lot], sale, brackets);
    SummaryTotalsAreExact([f], sale, brackets);
    assert TotalCgtPaisa([f], sale, brackets)
        == FillCgtPaisa(f, sale, brackets) + TotalCgtPaisa([f][1..], sale, brackets);
  }

  lemma EnteredSnoc(
    rows: seq<Transaction>, row: Transaction, securities: set<string>, isFiler: bool, brackets: seq<TaxBracket>)
    requires row.symbol in securities
    requires EntryCgt(Entered(rows, securities, isFiler, brackets), row, isFiler, brackets) == Success(row.cgt)
    ensures Entered(rows + [row], securities, isFiler, brackets)
         == Entered(rows, securities, isFiler, brackets) + [row]
  {
    assert (rows + [row])[..|rows + [row]| - 1] == rows;
    assert row.(cgt := row.cgt) == row;
  }

  lemma HistoryOfOne(t: Transaction)
    ensures History([t], t.symbol) == [t]
  {
    ForSymbolSnoc([], t, t.symbol);
    assert [] + [t] == [t] && [t][1..] == [];
    assert Sort([t][1..], ByDate) == [];
  }

  /** A purchase is never refused for its date, and a sale at a loss needs no bracket: all three are accepted. */
  lemma BackDatedIsAccepted(
    late: Transaction, sell: Transaction, early: Transaction, securities: set<string>, isFiler: bool,
    brackets: seq<TaxBracket>)
    requires BackDated(late, sell, early) && late.symbol in securities
    ensures Entered([] + [late] + [sell] + [early], securities, isFiler, brackets) == [] + [late] + [sell] + [early]
  {
    EnteredSnoc([], late, securities, isFiler, brackets);
    HistoryOfOne(late);
    SoldNothingYet(late);
    LossIsTaxFree(LotOf(late), SaleOf(sell, isFiler), brackets);
    EnteredSnoc([] + [late], sell, securities, isFiler, brackets);
    EnteredSnoc([] + [late] + [sell], early, securities, isFiler, brackets);
  }

  lemma SoldNothingYet(t: Transaction)
    requires t.kind == Buy && RowAllowed(t)
    ensures [] + [t] == [t] && BulkOpen([t]) == [LotOf(t)]
  {
    BoughtSnoc([], t);
    SumFilterSnoc([], t, IsSell, TxnShares);
    assert [] + [t] == [t];
    assert Bought([t]) == [] + [LotOf(t)] == [LotOf(t)];
    OpenOfAllOpen([LotOf(t)]);
  }

  lemma HistoryInDateOrder(late: Transaction, sell: Transaction, early: Transaction)
    requires late.symbol == sell.symbol == early.symbol && early.date < late.date <= sell.date
    ensures History([] + [late] + [sell] + [early], late.symbol) == [] + [early] + [late] + [sell]
  {
    var s := late.symbol;
    ForSymbolSnoc([], late, s);
    ForSymbolSnoc([] + [late], sell, s);
    ForSymbolSnoc([] + [late] + [sell], early, s);
    var rows := [late, sell, early];
    assert [] + [late] + [sell] + [early] == rows;
    assert rows[1..] == [sell, early] && [sell, early][1..] == [early] && [early][1..] == [];
    assert Sort([early], ByDate) == [early];
    assert Insert(sell, [], ByDate) == [sell];
    assert Sort([sell, early], ByDate) == Insert(sell, [early], ByDate) == [early] + [sell] == [early, sell];
    assert [early, sell][1..] == [sell];
    assert Insert(late, [sell], ByDate) == [late] + [sell];
    assert Sort(rows, ByDate) == Insert(late, [early, sell], ByDate) == [early] + Insert(late, [sell], ByDate);
  }

  /** On a chronological history the sale takes the older lot; without a bracket for it, it is skipped. */
  lemma SaleOfOlderLotIsSkipped(early: Transaction, late: Transaction, sell: Transaction, brackets: seq<TaxBracket>)
    requires BackDated(late, sell, early) && StartsInJuly2022(brackets)
    ensures var h := [] + [early] + [late] + [sell];
      && RowsAllowed(h) && Covered(h) && SkippedShares(h, brackets) == Net(h) == sell.quantity
  {
    var one: seq<Transaction> := [] + [early];
    var two, h := one + [late], one + [late] + [sell];
    NetSnoc([], early);
    NetSnoc(one, late);
    NetSnoc(two, sell);
    assert one[..0] == [] && two[..1] == one && h[..2] == two;
    assert Net([]) == 0.0 && Covered([]) && Covered(one) && Covered(two);
    SimHeldGrows([], early, brackets);
    SimHeldGrows(one, late, brackets);
    SkippedGrows([], early, brackets);
    SkippedGrows(one, late, brackets);
    SkippedGrows(two, sell, brackets);
    assert SimHeld(two, brackets) == [LotOf(early)] + [LotOf(late)];
    GainWithoutBracketIsSkipped(LotOf(early), [LotOf(late)], sell, brackets);
  }

  lemma SkippedIsKept(h: seq<Transaction>, brackets: seq<TaxBracket>)
    requires RowsAllowed(h) && Covered(h)
    ensures Shares(Held(h)) == Net(h) && Shares(SimHeld(h, brackets)) == Net(h) + SkippedShares(h, brackets)
  {
    CoveredAgrees(h);
    ReplayPosition(h);
    HeldNonNegative(h);
    OpenKeepsShares(Held(h));
    SimulatorAgreesExactly(h, brackets);
  }

  /** What a back-dated purchase does under any table without a filer bracket for it on the day of the sale. */
  ghost predicate HidesASale(
    late: Transaction, sell: Transaction, early: Transaction, securities: set<string>, isFiler: bool,
    brackets: seq<TaxBracket>)
  {
    var table := Entered([late, sell, early], securities, isFiler, brackets);
    var h := History(table, late.symbol);
    && table == [late, sell, early] && RowsAllowed(h) && Covered(h)
    && Shares(Held(h)) == sell.quantity && Shares(SimHeld(h, brackets)) == 2.0 * sell.quantity
  }

  /**
    Under the seeded table, or any other that starts in July 2022, a ledger that `Create` has accepted can
    make the simulator skip a sale: its tax was settled when it was entered, and the purchase entered after
    it changes the lot it is taken from.
  */
  lemma BackDatedPurchaseHidesASale(
    late: Transaction, sell: Transaction, early: Transaction, securities: set<string>, isFiler: bool,
    brackets: seq<TaxBracket>)
    requires BackDated(late, sell, early) && late.symbol in securities && StartsInJuly2022(brackets)
    ensures HidesASale(late, sell, early, securities, isFiler, brackets)
  {
    var h := [] + [early] + [late] + [sell];
    assert [] + [late] + [sell] + [early] == [late, sell, early];
    BackDatedIsAccepted(late, sell, early, securities, isFiler, brackets);
    HistoryInDateOrder(late, sell, early);
    SaleOfOlderLotIsSkipped(early, late, sell, brackets);
    SkippedIsKept(h, brackets);
  }

  /** There are such rows. */
  lemma SomeRowsAreBackDated()
    ensures exists late, sell, early :: BackDated(late, sell, early)
  {
    var late := Transaction(1, "OGDC", Buy, JULY_2022 - 200, 1.0, 100.0, 0.0, 0.0, 0.0, 0.0);
    var sell := Transaction(2, "OGDC", Sell, JULY_2022 - 100, 1.0, 90.0, 0.0, 0.0, 0.0, 0.0);
    var early := Transaction(3, "OGDC", Buy, JULY_2022 - 300, 1.0, 80.0, 0.0, 0.0, 0.0, 0.0);
    assert Gain(100.0, 90.0, 1.0) == -10.0 && Gain(80.0, 90.0, 1.0) == 10.0;
    assert BackDated(late, sell, early);
  }

  // ---- Totals on the books -----------------------------------------------------------------------

  /** CGT stored on the sells of a window. */
  function StoredTax(rows: seq<Transaction>, w: Window): real {
    if rows == [] then 0.0
    else
      var t := rows[|rows| - 1];
      StoredTax(rows[..|rows| - 1], w) + if IsSell(t) && Counts(t, w) then t.cgt else 0.0
  }

  function TotalFor(totals: SimTotals, isFiler: bool): real {
    if isFiler then totals.cgtFiler else totals.cgtNonFiler
  }

  /** Hence the simulator's total for the user's own status is the tax already on the books. */
  lemma {:induction false} SimulatedTotalIsStoredTotal(
    table: seq<Transaction>, w: Window, isFiler: bool, brackets: seq<TaxBracket>)
    requires EnteredInOrder(table, isFiler, brackets) && CoversBothStatuses(brackets)
    ensures SimTotalsOf(table, brackets, w).Success?
    ensures TotalFor(SimTotalsOf(table, brackets, w).value, isFiler) == StoredTax(table, w)
  {
    if table != [] {
      var before, t := table[..|table| - 1], table[|table| - 1];
      assert table == before + [t];
      SimulatedTotalIsStoredTotal(before, w, isFiler, brackets);
      SimTotalsSnoc(before, t, brackets, w);
      if IsSell(t) {
        LastSellIsSimulated(before, t, isFiler, brackets);
      }
    }
  }

  // ---- Liquidation -------------------------------------------------------------------------------

  /** The record of a lot sold completely, taxed as a pair of its own. */
  ghost predicate SoldWhole(m: MatchedLot, lot: BuyLot, sale: Sale, brackets: seq<TaxBracket>) {
    && m.transactionId == lot.transactionId
    && m.quantity == lot.quantity
    && CalculateCgt(lot.pricePerShare, sale.price, lot.quantity, sale.date - lot.buyDate, sale.isFiler,
                    sale.date, brackets) == Success(m.cgt)
  }

  lemma WholeFill(lot: BuyLot, sale: Sale, brackets: seq<TaxBracket>)
    requires lot.quantity > 0.0 && Taxable(Fill(lot, lot.quantity), sale, brackets)
    ensures SoldWhole(MatchedOf(Fill(lot, lot.quantity), sale, brackets), lot, sale, brackets)
  {
    MatchedLotAgreesWithCalculateCgt(Fill(lot, lot.quantity), sale, brackets);
  }

  lemma LiquidationInOrder(sorted: seq<BuyLot>, sale: Sale, brackets: seq<TaxBracket>)
    requires AllOpen(sorted) && sale.quantity == Shares(sorted)
    requires MatchInOrder(sorted, sale, brackets).Success?
    ensures var m := MatchInOrder(sorted, sale, brackets).value.matched;
      |m| == |sorted| && forall k :: 0 <= k < |m| ==> SoldWhole(m[k], sorted[k], sale, brackets)
  {
    var fills := Consume(sorted, sale.quantity);
    ConsumeEverything(sorted);
    MatchedAt(fills, sale, brackets);
    var m := AllMatched(fills, sale, brackets);
    assert MatchInOrder(sorted, sale, brackets).value.matched == m;
    forall k | 0 <= k < |m|
      ensures SoldWhole(m[k], sorted[k], sale, brackets)
    {
      WholeFill(sorted[k], sale, brackets);
    }
  }

  /** The estimate sells every open lot completely, each taxed as a pair of its own. */
  lemma LiquidationTaxesEveryLot(
    lots: seq<BuyLot>, close: real, today: int, isFiler: bool, brackets: seq<TaxBracket>)
    requires AllOpen(lots) && lots != []
    requires FifoOutcome(lots, LiquidationSale(lots, close, today, isFiler), brackets).Success?
    ensures var sale, sorted := LiquidationSale(lots, close, today, isFiler), Sort(lots, OlderOrSame);
      var m := FifoOutcome(lots, sale, brackets).value.matched;
      |m| == |lots| && forall k :: 0 <= k < |m| ==> SoldWhole(m[k], sorted[k], sale, brackets)
  {
    SortedSharesAreSame(lots);
    LiquidationInOrder(Sort(lots, OlderOrSame), LiquidationSale(lots, close, today, isFiler), brackets);
  }

  /**
    It sells exactly the quantity the snapshot shows if and only if the history never dips below where it
    ends, so on every covered one.
  */
  lemma LiquidationSellsTheSnapshot(h: seq<Transaction>)
    requires RowsAllowed(h) && SnapshotOf(h).Some?
    ensures Shares(BulkOpen(h)) == SnapshotOf(h).value.quantity <==> NeverDipsBelowItsEnd(h)
    ensures Covered(h) ==> NeverDipsBelowItsEnd(h)
  {
    BulkAgreesWithReplayExactly(h);
    if Covered(h) {
      CoveredNeverDips(h);
    }
  }

  // ---- Several portfolios ------------------------------------------------------------------------

  function AddTotals(a: SimTotals, b: SimTotals): SimTotals {
    SimTotals(
      a.cgtFiler + b.cgtFiler, a.cgtNonFiler + b.cgtNonFiler, a.grossGain + b.grossGain,
      a.brokerage + b.brokerage, a.fed + b.fed, a.cvt + b.cvt, a.sellCount + b.sellCount)
  }

  /** `simulate`: the sum over the user's portfolios, each simulated on its own. */
  function SimulateAll(tables: seq<seq<Transaction>>, brackets: seq<TaxBracket>, w: Window)
    : Result<SimTotals, TaxError>
  {
    if tables == [] then Success(NO_TOTALS)
    else
      var first :- SimTotalsOf(Chronological(tables[0]), brackets, w);
      var rest :- SimulateAll(tables[1..], brackets, w);
      Success(AddTotals(first, rest))
  }

  /** The headline number, before and after rounding, never says that filing costs money. */
  lemma {:induction false} FilingNeverCosts(tables: seq<seq<Transaction>>, brackets: seq<TaxBracket>, w: Window)
    requires FavoursFilers(brackets) && SimulateAll(tables, brackets, w).Success?
    ensures Savings(SimulateAll(tables, brackets, w).value) >= 0.0
    ensures HalfEven2(Savings(SimulateAll(tables, brackets, w).value)) >= 0.0
  {
    if tables != [] {
      SavingsAreNeverNegative(Chronological(tables[0]), brackets, w);
      FilingNeverCosts(tables[1..], brackets, w);
    }
    RoundedSavings(Savings(SimulateAll(tables, brackets, w).value));
  }
}
