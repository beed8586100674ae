/** The tax simulator's walk against the replay, and what its two totals guarantee. */
module SimulatorLaws {
  import opened Wrappers
  import opened Rounding
  import opened Sorting
  import opened Sums
  import opened Lots
  import opened Cgt
  import opened CgtLaws
  import opened TaxTable
  import opened Ledger
  import opened LedgerLaws

  // ---- One sell ----------------------------------------------------------------------------------

  /** A sell the lots can cover is either taxed under both statuses or skipped for want of a bracket. */
  lemma CoveredSellStep(held: seq<BuyLot>, t: Transaction, brackets: seq<TaxBracket>)
    requires NonNegative(held) && 0.0 < t.quantity <= Shares(held)
    ensures var e := SellStep(held, t, brackets);
      e == Success(NoRule)
      || (&& IsTaxed(e)
          && FifoOutcome(Open(held), SaleOf(t, true), brackets) == Success(e.value.filer)
          && FifoOutcome(Open(held), SaleOf(t, false), brackets) == Success(e.value.nonFiler))
  {
    OpenKeepsShares(held);
    OpenTwice(held);
    MatchFailsExactly(Open(held), SaleOf(t, true), brackets);
    MatchFailsExactly(Open(held), SaleOf(t, false), brackets);
  }

  // ---- The walk ----------------------------------------------------------------------------------

  /** Shares sold in sells that the simulator skipped. */
  function SkippedShares(h: seq<Transaction>, brackets: seq<TaxBracket>): real {
    if h == [] then 0.0
    else
      var before, t := h[..|h| - 1], h[|h| - 1];
      SkippedShares(before, brackets)
      + if IsSell(t) && !IsTaxed(SellStep(SimHeld(before, brackets), t, brackets)) then t.quantity else 0.0
  }

  lemma SkippedSnoc(h: seq<Transaction>, t: Transaction, brackets: seq<TaxBracket>)
    ensures SkippedShares(h + [t], brackets)
         == SkippedShares(h, brackets)
            + if IsSell(t) && !IsTaxed(SellStep(SimHeld(h, brackets), t, brackets)) then t.quantity else 0.0
  {
    assert (h + [t])[..|h + [t]| - 1] == h;
  }

  /** `held` is what a single deduction leaves of `lots`: of everything sold except what was skipped. */
  predicate IsDeduction(held: seq<BuyLot>, lots: seq<BuyLot>, sold: real, skipped: real) {
    held == Deduct(lots, sold - skipped)
  }

  /** On a covered history the simulator's lots are a single deduction: of what was sold and not skipped. */
  lemma {:induction false} SimulatorIsOneDeduction(h: seq<Transaction>, brackets: seq<TaxBracket>)
    requires RowsAllowed(h) && Covered(h)
    ensures 0.0 <= SkippedShares(h, brackets) <= Sold(h) <= Shares(Bought(h))
    ensures IsDeduction(SimHeld(h, brackets), Bought(h), Sold(h), SkippedShares(h, brackets))
  {
    if h != [] {
      var before, t := h[..|h| - 1], h[|h| - 1];
      assert h == before + [t];
      SimulatorIsOneDeduction(before, brackets);
      SimulatorStep(before, t, brackets);
      NetIsCovered(h);
    }
  }

  lemma NetIsCovered(h: seq<Transaction>)
    requires Covered(h)
    ensures Sold(h) <= Shares(Bought(h))
  {
    assert Net(h) >= 0.0;
  }

  function SimAfter(held: seq<BuyLot>, t: Transaction, taxed: bool): seq<BuyLot> {
    if IsAcquisition(t) then held + [LotOf(t)] else if taxed then Deduct(held, t.quantity) else held
  }

  function BoughtAfter(lots: seq<BuyLot>, t: Transaction): seq<BuyLot> {
    if IsAcquisition(t) then lots + [LotOf(t)] else lots
  }

  function SoldAfter(sold: real, t: Transaction): real { if IsSell(t) then sold + t.quantity else sold }

  function SkippedAfter(skipped: real, t: Transaction, taxed: bool): real {
    if IsSell(t) && !taxed then skipped + t.quantity else skipped
  }

  /** Whether the simulator taxes the next row: a sell that matches under both statuses. */
  predicate TaxedNext(h: seq<Transaction>, t: Transaction, brackets: seq<TaxBracket>) {
    IsSell(t) && IsTaxed(SellStep(SimHeld(h, brackets), t, brackets))
  }

  lemma SimHeldGrows(h: seq<Transaction>, t: Transaction, brackets: seq<TaxBracket>)
    ensures SimHeld(h + [t], brackets) == SimAfter(SimHeld(h, brackets), t, TaxedNext(h, t, brackets))
  {
    SimHeldSnoc(h, t, brackets);
  }

  lemma SkippedGrows(h: seq<Transaction>, t: Transaction, brackets: seq<TaxBracket>)
    ensures SkippedShares(h + [t], brackets)
         == SkippedAfter(SkippedShares(h, brackets), t, TaxedNext(h, t, brackets))
  {
    SkippedSnoc(h, t, brackets);
  }

  lemma BoughtAndSoldGrow(h: seq<Transaction>, t: Transaction)
    ensures Bought(h + [t]) == BoughtAfter(Bought(h), t)
    ensures Sold(h + [t]) == SoldAfter(Sold(h), t)
  {
    BoughtSnoc(h, t);
    SumFilterSnoc(h, t, IsSell, TxnShares);
    assert Bought(h) + [] == Bought(h);
  }

  lemma SimulatorStep(h: seq<Transaction>, t: Transaction, brackets: seq<TaxBracket>)
    requires RowsAllowed(h) && RowAllowed(t)
    requires 0.0 <= SkippedShares(h, brackets) <= Sold(h) <= Shares(Bought(h))
    requires IsDeduction(SimHeld(h, brackets), Bought(h), Sold(h), SkippedShares(h, brackets))
    ensures 0.0 <= SkippedShares(h + [t], brackets) <= Sold(h + [t])
    ensures IsDeduction(SimHeld(h + [t], brackets), Bought(h + [t]), Sold(h + [t]), SkippedShares(h + [t], brackets))
  {
    SimHeldGrows(h, t, brackets);
    SkippedGrows(h, t, brackets);
    BoughtAndSoldGrow(h, t);
    BoughtNonNegative(h);
    StepOnLots(
      SimHeld(h, brackets), Bought(h), Sold(h), SkippedShares(h, brackets), t, TaxedNext(h, t, brackets));
  }

  /** The same step on lots alone: a purchase appends, a taxed sell deducts more, anything else does nothing. */
  lemma StepOnLots(
    held: seq<BuyLot>, lots: seq<BuyLot>, sold: real, skipped: real, t: Transaction, taxed: bool)
    requires NonNegative(lots) && 0.0 <= skipped <= sold <= Shares(lots) && t.quantity > 0.0
    requires IsDeduction(held, lots, sold, skipped) && (taxed ==> IsSell(t))
    ensures 0.0 <= SkippedAfter(skipped, t, taxed) <= SoldAfter(sold, t)
    ensures IsDeduction(SimAfter(held, t, taxed), BoughtAfter(lots, t), SoldAfter(sold, t),
                        SkippedAfter(skipped, t, taxed))
  {
    if IsAcquisition(t) {
      DeductAppend(lots, [LotOf(t)], sold - skipped);
    } else if taxed {
      DeductTwice(lots, sold - skipped, t.quantity);
      assert sold + t.quantity - skipped == sold - skipped + t.quantity;
    } else if IsSell(t) {
      assert sold + t.quantity - (skipped + t.quantity) == sold - skipped;
    }
  }

  /**
    The simulator holds exactly the skipped shares more than the replay; it has the replay's lots if and
    only if it skipped nothing.
  */
  lemma SimulatorAgreesExactly(h: seq<Transaction>, brackets: seq<TaxBracket>)
    requires RowsAllowed(h) && Covered(h)
    ensures Shares(SimHeld(h, brackets)) == Shares(Held(h)) + SkippedShares(h, brackets)
    ensures SimHeld(h, brackets) == Held(h) <==> SkippedShares(h, brackets) == 0.0
  {
    var lots, sold, skipped := Bought(h), Sold(h), SkippedShares(h, brackets);
    CoveredAgrees(h);
    SimulatorIsOneDeduction(h, brackets);
    BoughtNonNegative(h);
    DeductingLess(lots, sold, skipped);
  }

  lemma DeductingLess(lots: seq<BuyLot>, sold: real, skipped: real)
    requires NonNegative(lots) && 0.0 <= skipped <= sold <= Shares(lots)
    ensures Shares(Deduct(lots, sold - skipped)) == Shares(Deduct(lots, sold)) + skipped
  {
    DeductConserves(lots, sold);
    DeductConserves(lots, sold - skipped);
  }

  /** A sale of as much as the oldest lot holds takes that lot and no other. */
  lemma OldestLotIsUsed(lot: BuyLot, rest: seq<BuyLot>)
    requires lot.quantity > 0.0 && AllOpen(rest) && Sorted([lot] + rest, OlderOrSame)
    ensures Open([lot] + rest) == [lot] + rest == Sort([lot] + rest, OlderOrSame)
    ensures Consume([lot] + rest, lot.quantity) == [Fill(lot, lot.quantity)]
  {
    var lots := [lot] + rest;
    OpenOfAllOpen(lots);
    SortOfSorted(lots, OlderOrSame);
    assert lots[1..] == rest;
    ConsumeSplits(lots, lot.quantity);
  }

  /** A gain that no bracket covers is not taxed: the sell is skipped. */
  lemma GainWithoutBracketIsSkipped(lot: BuyLot, rest: seq<BuyLot>, t: Transaction, brackets: seq<TaxBracket>)
    requires AllOpen(rest) && Sorted([lot] + rest, OlderOrSame)
    requires t.quantity == lot.quantity > 0.0 && Gain(lot.pricePerShare, t.price, t.quantity) > 0.0
    requires FindBracket(brackets, t.date, true, t.date - lot.buyDate).Failure?
    ensures SellStep([lot] + rest, t, brackets) == Success(NoRule)
  {
    var sale, f := SaleOf(t, true), Fill(lot, lot.quantity);
    OldestLotIsUsed(lot, rest);
    assert FillRate(f, sale, brackets).Failure?;
    assert f in Consume([lot] + rest, lot.quantity) && !Taxable(f, sale, brackets);
    MatchFailsExactly([lot] + rest, sale, brackets);
  }

  lemma SoleGainIsSkipped(lot: BuyLot, t: Transaction, brackets: seq<TaxBracket>)
    requires t.quantity == lot.quantity > 0.0 && Gain(lot.pricePerShare, t.price, t.quantity) > 0.0
    requires FindBracket(brackets, t.date, true, t.date - lot.buyDate).Failure?
    ensures SellStep([lot], t, brackets) == Success(NoRule)
  {
    assert [lot] == [lot] + [];
    GainWithoutBracketIsSkipped(lot, [], t, brackets);
  }

  /** A purchase and the sale of all of it at a gain, on a date for which the table has no filer bracket. */
  predicate SoldWithoutBracket(buy: Transaction, sell: Transaction, brackets: seq<TaxBracket>) {
    && buy.kind == Buy && sell.kind == Sell && RowAllowed(buy) && RowAllowed(sell)
    && sell.quantity == buy.quantity && Gain(buy.price, sell.price, sell.quantity) > 0.0
    && FindBracket(brackets, sell.date, true, sell.date - buy.date).Failure?
  }

  lemma SoldWithoutBracketSkips(buy: Transaction, sell: Transaction, brackets: seq<TaxBracket>)
    requires SoldWithoutBracket(buy, sell, brackets)
    ensures SkippedShares([] + [buy] + [sell], brackets) == sell.quantity
  {
    SimHeldGrows([], buy, brackets);
    SkippedGrows([], buy, brackets);
    assert SimHeld([] + [buy], brackets) == [LotOf(buy)];
    SoleGainIsSkipped(LotOf(buy), sell, brackets);
    SkippedGrows([] + [buy], sell, brackets);
  }

  lemma SoldOutIsCovered(buy: Transaction, sell: Transaction)
    requires buy.kind == Buy && sell.kind == Sell && RowAllowed(buy) && sell.quantity == buy.quantity
    ensures Covered([] + [buy] + [sell]) && Net([] + [buy] + [sell]) == 0.0
  {
    var before: seq<Transaction> := [] + [buy];
    var h := before + [sell];
    NetSnoc([], buy);
    NetSnoc(before, sell);
    assert before[..0] == [] && h[..1] == before;
    assert Net([]) == 0.0 && Covered([]) && Covered(before);
  }

  /** Where they differ: the simulator keeps the lots of every such sale. */
  lemma SkippedSellKeepsItsLots(buy: Transaction, sell: Transaction, brackets: seq<TaxBracket>)
    requires SoldWithoutBracket(buy, sell, brackets)
    ensures var h := [] + [buy] + [sell];
      Covered(h) && Shares(Held(h)) == 0.0 && Shares(SimHeld(h, brackets)) == buy.quantity
  {
    var h := [] + [buy] + [sell];
    SoldOutIsCovered(buy, sell);
    SoldWithoutBracketSkips(buy, sell, brackets);
    SimulatorAgreesExactly(h, brackets);
    CoveredAgrees(h);
    BoughtNonNegative(h);
    SoldNonNegative(h);
    DeductConserves(Bought(h), Sold(h));
  }

  /** With the seeded table: everything sold at a gain before July 2022. */
  lemma EarlySaleIsSkipped(buy: Transaction, sell: Transaction)
    requires buy.kind == Buy && sell.kind == Sell && RowAllowed(buy) && RowAllowed(sell)
    requires sell.quantity == buy.quantity && Gain(buy.price, sell.price, sell.quantity) > 0.0
    requires sell.date < JULY_2022
    ensures SoldWithoutBracket(buy, sell, SeededBrackets())
  {
    SeedStartsInJuly2022();
  }

  // ---- When nothing is skipped -------------------------------------------------------------------

  /** What the match takes of the lots the replay holds. */
  function MatchFills(before: seq<Transaction>, q: real): seq<Fill> {
    Consume(Sort(Open(Held(before)), OlderOrSame), q)
  }

  /** Everything a row's sale takes, under the replay, has a bracket under both statuses. */
  ghost predicate SaleTaxable(before: seq<Transaction>, t: Transaction, brackets: seq<TaxBracket>) {
    var fills := MatchFills(before, t.quantity);
    AllTaxable(fills, SaleOf(t, true), brackets) && AllTaxable(fills, SaleOf(t, false), brackets)
  }

  ghost predicate AlwaysTaxable(h: seq<Transaction>, brackets: seq<TaxBracket>) {
    h == []
    || (&& AlwaysTaxable(h[..|h| - 1], brackets)
        && (IsSell(h[|h| - 1]) ==> SaleTaxable(h[..|h| - 1], h[|h| - 1], brackets)))
  }

  lemma TaxableSellIsTaxed(before: seq<Transaction>, t: Transaction, brackets: seq<TaxBracket>)
    requires RowsAllowed(before + [t]) && Covered(before + [t]) && IsSell(t)
    requires SaleTaxable(before, t, brackets)
    ensures IsTaxed(SellStep(Held(before), t, brackets))
  {
    CoveredBefore(before, t);
    CoveredSellIsFilled(before, t);
    HeldNonNegative(before);
    CoveredSellStep(Held(before), t, brackets);
    OpenSharesNonNegative(Held(before));
    OpenKeepsShares(Held(before));
  }

  lemma SkippedNonNegative(h: seq<Transaction>, brackets: seq<TaxBracket>)
    requires RowsAllowed(h) && Covered(h)
    ensures SkippedShares(h, brackets) >= 0.0
  {
    SimulatorIsOneDeduction(h, brackets);
  }

  /** A taxed sell used lots that all have brackets. */
  lemma TaxedSaleIsTaxable(before: seq<Transaction>, t: Transaction, brackets: seq<TaxBracket>)
    requires IsTaxed(SellStep(Held(before), t, brackets))
    ensures SaleTaxable(before, t, brackets)
  {
  }

  /** A simulator that has skipped nothing has found a bracket for everything every sell used. */
  lemma {:induction false} SkippedNothing(h: seq<Transaction>, brackets: seq<TaxBracket>)
    requires RowsAllowed(h) && Covered(h) && SkippedShares(h, brackets) == 0.0
    ensures AlwaysTaxable(h, brackets)
  {
    if h != [] {
      var before, t := h[..|h| - 1], h[|h| - 1];
      assert h == before + [t];
      SkippedGrows(before, t, brackets);
      SkippedNonNegative(before, brackets);
      SkippedNothing(before, brackets);
      if IsSell(t) {
        SimulatorAgreesExactly(before, brackets);
        TaxedSaleIsTaxable(before, t, brackets);
      }
    }
  }

  /**
    When the simulator has the replay's lots, on what can be looked up before it runs: if and only if the
    table has, under both statuses, a bracket for every gain that the recorded sells realize.
  */
  lemma SimulatorAgreesWhenTaxable(h: seq<Transaction>, brackets: seq<TaxBracket>)
    requires RowsAllowed(h) && Covered(h)
    ensures SimHeld(h, brackets) == Held(h) <==> AlwaysTaxable(h, brackets)
  {
    SimulatorAgreesExactly(h, brackets);
    if AlwaysTaxable(h, brackets) {
      NothingSkipped(h, brackets);
    } else if SkippedShares(h, brackets) == 0.0 {
      SkippedNothing(h, brackets);
    }
  }

  lemma {:induction false} NothingSkipped(h: seq<Transaction>, brackets: seq<TaxBracket>)
    requires RowsAllowed(h) && Covered(h) && AlwaysTaxable(h, brackets)
    ensures SkippedShares(h, brackets) == 0.0
    ensures SimHeld(h, brackets) == Held(h)
  {
    if h != [] {
      var before, t := h[..|h| - 1], h[|h| - 1];
      assert h == before + [t];
      NothingSkipped(before, brackets);
      SkippedSnoc(before, t, brackets);
      if IsSell(t) {
        TaxableSellIsTaxed(before, t, brackets);
      }
    }
    SimulatorAgreesExactly(h, brackets);
  }

  /**
    The main agreement: on a covered history whose gains all have brackets, the queue replay, the
    deduction of the total and the simulator's decrement leave the same open lots in the same order.
  */
  lemma ThreeFormsAgree(h: seq<Transaction>, brackets: seq<TaxBracket>)
    requires RowsAllowed(h) && Covered(h) && AlwaysTaxable(h, brackets)
    ensures BulkOpen(h) == Open(Held(h)) == Open(SimHeld(h, brackets))
  {
    CoveredAgrees(h);
    NothingSkipped(h, brackets);
  }

  // ---- When a simulation completes ---------------------------------------------------------------

  /** A sell ends the simulation when some lots are open, too few, and all of them could be taxed for a filer. */
  ghost predicate SellRaises(held: seq<BuyLot>, t: Transaction, brackets: seq<TaxBracket>) {
    && Open(held) != [] && Shares(Open(held)) < t.quantity
    && !SomeUntaxable(Consume(Sort(Open(held), OlderOrSame), t.quantity), SaleOf(t, true), brackets)
  }

  lemma SellRaisesExactly(held: seq<BuyLot>, t: Transaction, brackets: seq<TaxBracket>)
    requires t.quantity > 0.0
    ensures SellStep(held, t, brackets).Failure? <==> SellRaises(held, t, brackets)
  {
    OpenTwice(held);
    MatchFailsExactly(Open(held), SaleOf(t, true), brackets);
    MatchFailsExactly(Open(held), SaleOf(t, false), brackets);
  }

  ghost predicate SomeSellRaises(rows: seq<Transaction>, brackets: seq<TaxBracket>) {
    rows != []
    && var before, t := rows[..|rows| - 1], rows[|rows| - 1];
       || SomeSellRaises(before, brackets)
       || (IsSell(t) && SellRaises(SimHeld(ForSymbol(before, t.symbol), brackets), t, brackets))
  }

  /** A simulation fails exactly when some sell, in the state the simulator has then reached, does. */
  lemma {:induction false} SimulationFailsExactly(rows: seq<Transaction>, brackets: seq<TaxBracket>, w: Window)
    requires RowsAllowed(rows)
    ensures SimTotalsOf(rows, brackets, w).Failure? <==> SomeSellRaises(rows, brackets)
  {
    if rows != [] {
      var before, t := rows[..|rows| - 1], rows[|rows| - 1];
      SimulationFailsExactly(before, brackets, w);
      SellRaisesExactly(SimHeld(ForSymbol(before, t.symbol), brackets), t, brackets);
    }
  }

  ghost predicate SymbolsCovered(rows: seq<Transaction>) {
    forall symbol :: Covered(ForSymbol(rows, symbol))
  }

  lemma SymbolsCoveredBefore(before: seq<Transaction>, t: Transaction)
    requires SymbolsCovered(before + [t])
    ensures SymbolsCovered(before)
  {
    forall symbol
      ensures Covered(ForSymbol(before, symbol))
    {
      var h := ForSymbol(before, symbol);
      ForSymbolSnoc(before, t, symbol);
      assert h + [] == h;
      assert (h + [t])[..|h + [t]| - 1] == h;
    }
  }

  lemma SymbolRowsAllowed(rows: seq<Transaction>, symbol: string)
    requires RowsAllowed(rows)
    ensures RowsAllowed(ForSymbol(rows, symbol))
  {
    FilterMembers(rows, SymbolIs(symbol));
    var h := ForSymbol(rows, symbol);
    forall k | 0 <= k < |h|
      ensures RowAllowed(h[k])
    {
      assert h[k] in h;
    }
  }

  lemma SimulatorHoldsNoLess(h: seq<Transaction>, brackets: seq<TaxBracket>)
    requires RowsAllowed(h) && Covered(h)
    ensures Shares(Open(SimHeld(h, brackets))) >= Shares(Held(h))
  {
    SimulatorAgreesExactly(h, brackets);
    SimulatorIsOneDeduction(h, brackets);
    BoughtNonNegative(h);
    DeductConserves(Bought(h), Sold(h) - SkippedShares(h, brackets));
    OpenKeepsShares(SimHeld(h, brackets));
  }

  /** The simulator holds enough for every covered sell: what it skipped only adds to what the replay holds. */
  lemma CoveredSellDoesNotRaise(h: seq<Transaction>, t: Transaction, brackets: seq<TaxBracket>)
    requires RowsAllowed(h) && RowAllowed(t) && IsSell(t) && Covered(h) && Covered(h + [t])
    ensures !SellRaises(SimHeld(h, brackets), t, brackets)
  {
    CoveredSellIsFilled(h, t);
    SimulatorHoldsNoLess(h, brackets);
  }

  /** A simulation of covered histories completes, whatever the table. */
  lemma {:induction false} CoveredSimulationCompletes(
    rows: seq<Transaction>, brackets: seq<TaxBracket>, w: Window)
    requires RowsAllowed(rows) && SymbolsCovered(rows)
    ensures SimTotalsOf(rows, brackets, w).Success?
  {
    if rows != [] {
      var before, t := rows[..|rows| - 1], rows[|rows| - 1];
      assert rows == before + [t];
      SymbolsCoveredBefore(before, t);
      CoveredSimulationCompletes(before, brackets, w);
      SimTotalsSnoc(before, t, brackets, w);
      if IsSell(t) {
        var h := ForSymbol(before, t.symbol);
        ForSymbolSnoc(before, t, t.symbol);
        SymbolRowsAllowed(before, t.symbol);
        CoveredSellDoesNotRaise(h, t, brackets);
        SellRaisesExactly(SimHeld(h, brackets), t, brackets);
      }
    }
  }

  // ---- The seeded table --------------------------------------------------------------------------

  lemma {:induction false} HeldLotsAreOlder(h: seq<Transaction>, date: int)
    requires forall k :: 0 <= k < |h| ==> h[k].date <= date
    ensures forall k :: 0 <= k < |Held(h)| ==> Held(h)[k].buyDate <= date
  {
    if h != [] {
      var before, t := h[..|h| - 1], h[|h| - 1];
      HeldLotsAreOlder(before, date);
      if IsSell(t) {
        DeductKeepsTerms(Held(before), t.quantity);
      }
    }
  }

  lemma FillsAreOlder(before: seq<Transaction>, date: int, q: real)
    requires forall k :: 0 <= k < |before| ==> before[k].date <= date
    ensures forall f :: f in MatchFills(before, q) ==> f.lot.buyDate <= date
  {
    HeldLotsAreOlder(before, date);
    FilterMembers(Held(before), IsOpen);
    SortMembers(Open(Held(before)), OlderOrSame);
    ConsumeUsesLots(Sort(Open(Held(before)), OlderOrSame), q);
  }

  lemma {:induction false} SeededFillsAreTaxable(fills: seq<Fill>, sale: Sale)
    requires sale.date >= JULY_2022 && forall f :: f in fills ==> f.lot.buyDate <= sale.date
    ensures AllTaxable(fills, sale, SeededBrackets())
  {
    if fills != [] {
      assert fills[0] in fills;
      SeedLookup(sale.date, sale.isFiler, HoldingDays(fills[0].lot, sale));
      SeededFillsAreTaxable(fills[1..], sale);
    }
  }

  lemma SeededSaleIsTaxable(before: seq<Transaction>, t: Transaction)
    requires forall k :: 0 <= k < |before| ==> before[k].date <= t.date
    requires t.date >= JULY_2022
    ensures SaleTaxable(before, t, SeededBrackets())
  {
    var fills := MatchFills(before, t.quantity);
    FillsAreOlder(before, t.date, t.quantity);
    SeededFillsAreTaxable(fills, SaleOf(t, true));
    SeededFillsAreTaxable(fills, SaleOf(t, false));
  }

  ghost predicate SellsSinceJuly2022(h: seq<Transaction>) {
    forall k :: 0 <= k < |h| && IsSell(h[k]) ==> h[k].date >= JULY_2022
  }

  /** With the seeded brackets no sell dated 1 July 2022 or later is ever skipped. */
  lemma {:induction false} SeededHistoryIsTaxable(h: seq<Transaction>)
    requires Sorted(h, ByDate) && SellsSinceJuly2022(h)
    ensures AlwaysTaxable(h, SeededBrackets())
  {
    if h != [] {
      var before, t := h[..|h| - 1], h[|h| - 1];
      SeededHistoryIsTaxable(before);
      if IsSell(t) {
        SeededSaleIsTaxable(before, t);
      }
    }
  }

  // ---- The two totals ----------------------------------------------------------------------------

  lemma {:induction false} FilerPaysNoMore(fills: seq<Fill>, f: Sale, n: Sale, brackets: seq<TaxBracket>)
    requires f.isFiler && n == f.(isFiler := false)
    requires FavoursFilers(brackets) && AllTaxable(fills, f, brackets) && AllTaxable(fills, n, brackets)
    ensures TotalCgtPaisa(fills, f, brackets) <= TotalCgtPaisa(fills, n, brackets)
    ensures TotalGainPaisa(fills, f) == TotalGainPaisa(fills, n)
  {
    if fills != [] {
      FilerPaysNoMore(fills[1..], f, n, brackets);
      var gain := GrossGain(fills[0], f);
      if gain > 0.0 {
        var days := HoldingDays(fills[0].lot, f);
        assert FindBracket(brackets, f.date, true, days).Success?;
        assert FindBracket(brackets, f.date, false, days).Success?;
        LowerRateLowerTax(gain, FindBracket(brackets, f.date, true, days).value.ratePct,
                          FindBracket(brackets, f.date, false, days).value.ratePct);
      }
    }
  }

  lemma LowerRateLowerTax(gain: real, low: real, high: real)
    requires gain > 0.0 && low <= high
    ensures TaxPaisa(gain, low) <= TaxPaisa(gain, high)
  {
    assert gain * low <= gain * high;
    HalfUp2Monotone(gain * low / 100.0, gain * high / 100.0);
  }

  /** Each taxed sell: same gross gain under both statuses, and no more tax for a filer. */
  lemma TaxedSellFavoursFiler(held: seq<BuyLot>, t: Transaction, brackets: seq<TaxBracket>)
    requires FavoursFilers(brackets) && IsTaxed(SellStep(held, t, brackets))
    ensures var e := SellStep(held, t, brackets).value;
      e.filer.totalCgt <= e.nonFiler.totalCgt && e.filer.totalGrossGain == e.nonFiler.totalGrossGain
  {
    var sorted := Sort(Open(held), OlderOrSame);
    var fills := Consume(sorted, t.quantity);
    SummaryTotalsAreExact(fills, SaleOf(t, true), brackets);
    SummaryTotalsAreExact(fills, SaleOf(t, false), brackets);
    FilerPaysNoMore(fills, SaleOf(t, true), SaleOf(t, false), brackets);
  }

  function Savings(totals: SimTotals): real { totals.cgtNonFiler - totals.cgtFiler }

  lemma AddSaleSaves(totals: SimTotals, t: Transaction, e: SellEvent)
    requires e.Taxed?
    ensures Savings(AddSale(totals, t, e)) == Savings(totals) + (e.nonFiler.totalCgt - e.filer.totalCgt)
  {
  }

  lemma SavingsStep(rows: seq<Transaction>, brackets: seq<TaxBracket>, w: Window)
    requires rows != [] && FavoursFilers(brackets) && SimTotalsOf(rows, brackets, w).Success?
    ensures SimTotalsOf(rows[..|rows| - 1], brackets, w).Success?
    ensures Savings(SimTotalsOf(rows[..|rows| - 1], brackets, w).value) <= Savings(SimTotalsOf(rows, brackets, w).value)
  {
    var before, t := rows[..|rows| - 1], rows[|rows| - 1];
    var totals := SimTotalsOf(before, brackets, w).value;
    if IsSell(t) {
      var e := LastEvent(rows, brackets).value;
      if e.Taxed? && Counts(t, w) {
        TaxedSellFavoursFiler(SimHeld(ForSymbol(before, t.symbol), brackets), t, brackets);
        AddSaleSaves(totals, t, e);
        assert SimTotalsOf(rows, brackets, w) == Success(AddSale(totals, t, e));
      } else {
        assert SimTotalsOf(rows, brackets, w) == Success(totals);
      }
    } else {
      assert SimTotalsOf(rows, brackets, w) == Success(totals);
    }
  }

  /** Whatever the history, a simulation that completes never shows a filer worse off. */
  lemma {:induction false} SavingsAreNeverNegative(rows: seq<Transaction>, brackets: seq<TaxBracket>, w: Window)
    requires FavoursFilers(brackets) && SimTotalsOf(rows, brackets, w).Success?
    ensures Savings(SimTotalsOf(rows, brackets, w).value) >= 0.0
    ensures HalfEven2(Savings(SimTotalsOf(rows, brackets, w).value)) >= 0.0
  {
    if rows != [] {
      SavingsStep(rows, brackets, w);
      SavingsAreNeverNegative(rows[..|rows| - 1], brackets, w);
    }
    RoundedSavings(Savings(SimTotalsOf(rows, brackets, w).value));
  }

  lemma RoundedSavings(x: real)
    requires x >= 0.0
    ensures HalfEven2(x) >= 0.0
  {
    NearestHalfEvenMonotone(0.0, 100.0 * x);
    assert NearestHalfEven(0.0) == 0;
  }

  // ---- Reported gains against the replay's profit -----------------------------------------------

  /** Whatever is sold, the match sells the lots that the replay sells: exactly when those are in match order. */
  lemma MatchSellsReplayLotsExactly(before: seq<Transaction>)
    ensures SoldAlike(Sort(Open(Held(before)), OlderOrSame), Held(before))
       <==> Sorted(Open(Held(before)), OlderOrSame)
  {
    OpenIsAllOpen(Held(before));
    ListOrderIsMatchOrderExactly(Open(Held(before)));
    ClosedLotsDoNotSell(Sort(Open(Held(before)), OlderOrSame), Held(before));
  }

  lemma ClosedLotsDoNotSell(sorted: seq<BuyLot>, held: seq<BuyLot>)
    ensures SoldAlike(sorted, held) <==> SoldAlike(sorted, Open(held))
  {
    forall q
      ensures Consume(Open(held), q) == Consume(held, q)
    {
      ConsumeOpen(held, q);
    }
    if SoldAlike(sorted, held) {
      forall q
        ensures Consume(sorted, q) == Consume(Open(held), q)
      {
        assert Consume(sorted, q) == Consume(held, q);
      }
    }
    if SoldAlike(sorted, Open(held)) {
      forall q
        ensures Consume(sorted, q) == Consume(held, q)
      {
        assert Consume(sorted, q) == Consume(Open(held), q);
      }
    }
  }

  /** At every sell the open lots are in match order. */
  ghost predicate SellsInMatchOrder(h: seq<Transaction>) {
    h == []
    || (&& SellsInMatchOrder(h[..|h| - 1])
        && (IsSell(h[|h| - 1]) ==> Sorted(Open(Held(h[..|h| - 1])), OlderOrSame)))
  }

  /** Same-day purchases were given ids in creation order. */
  ghost predicate IdsFollowCreation(h: seq<Transaction>) {
    Sorted(Bought(h), OlderOrSame)
  }

  lemma OpenLotsInMatchOrder(h: seq<Transaction>)
    requires RowsAllowed(h) && IdsFollowCreation(h)
    ensures Sorted(Open(Held(h)), OlderOrSame)
  {
    ReplayIsOneDeduction(h);
    DeductKeepsOrder(Bought(h), Used(h));
    FilterSort(Held(h), OlderOrSame, IsOpen);
    SortSorts(Open(Held(h)), OlderOrSame);
  }

  lemma IdsFollowBefore(before: seq<Transaction>, t: Transaction)
    requires IdsFollowCreation(before + [t])
    ensures IdsFollowCreation(before)
  {
    BoughtSnoc(before, t);
    assert forall k :: 0 <= k < |Bought(before)| ==> Bought(before)[k] == Bought(before + [t])[k];
  }

  lemma {:induction false} CreationOrderIsMatchOrder(h: seq<Transaction>)
    requires RowsAllowed(h) && IdsFollowCreation(h)
    ensures SellsInMatchOrder(h)
  {
    if h != [] {
      var before, t := h[..|h| - 1], h[|h| - 1];
      assert h == before + [t];
      IdsFollowBefore(before, t);
      CreationOrderIsMatchOrder(before);
      OpenLotsInMatchOrder(before);
    }
  }

  /** The gains the match reports for the sells of a history, each rounded lot by lot. */
  function ReportedGains(h: seq<Transaction>, isFiler: bool, brackets: seq<TaxBracket>): real {
    if h == [] then 0.0
    else
      var before, t := h[..|h| - 1], h[|h| - 1];
      ReportedGains(before, isFiler, brackets)
      + if IsSell(t) then GainOrZero(FifoOutcome(Open(Held(before)), SaleOf(t, isFiler), brackets)) else 0.0
  }

  function GainOrZero(r: Result<CgtResult, TaxError>): real {
    if r.Success? then r.value.totalGrossGain else 0.0
  }

  function FillCount(h: seq<Transaction>): nat {
    if h == [] then 0 else FillCount(h[..|h| - 1]) + |LastFills(h)|
  }

  /** The lots the match takes over a whole history. */
  function MatchCount(h: seq<Transaction>): nat {
    if h == [] then 0
    else
      var before, t := h[..|h| - 1], h[|h| - 1];
      MatchCount(before) + if IsSell(t) then |MatchFills(before, t.quantity)| else 0
  }

  /** What the match gains by its order over the replay's, summed over the sells. */
  function OrderGap(h: seq<Transaction>): real {
    if h == [] then 0.0
    else
      var before, t := h[..|h| - 1], h[|h| - 1];
      OrderGap(before)
      + if IsSell(t)
        then ExactGain(MatchFills(before, t.quantity), t.price) - ExactGain(Consume(Held(before), t.quantity), t.price)
        else 0.0
  }

  lemma SellDrift(before: seq<Transaction>, t: Transaction, isFiler: bool, brackets: seq<TaxBracket>)
    requires FifoOutcome(Open(Held(before)), SaleOf(t, isFiler), brackets).Success?
    ensures var fills := MatchFills(before, t.quantity);
      WithinHalfPaisaEach(
        ExactGain(fills, t.price),
        FifoOutcome(Open(Held(before)), SaleOf(t, isFiler), brackets).value.totalGrossGain,
        |fills|)
  {
    var sale, fills := SaleOf(t, isFiler), MatchFills(before, t.quantity);
    SummaryTotalsAreExact(fills, sale, brackets);
    GainDrift(fills, sale);
  }

  /** Every sell of the history was one the match could serve. */
  ghost predicate AllMatch(h: seq<Transaction>, isFiler: bool, brackets: seq<TaxBracket>) {
    h == []
    || (&& AllMatch(h[..|h| - 1], isFiler, brackets)
        && (IsSell(h[|h| - 1]) ==>
              FifoOutcome(Open(Held(h[..|h| - 1])), SaleOf(h[|h| - 1], isFiler), brackets).Success?))
  }

  lemma DriftsAdd(a: real, b: real, n: nat, c: real, d: real, m: nat)
    requires WithinHalfPaisaEach(a, b, n) && WithinHalfPaisaEach(c, d, m)
    ensures WithinHalfPaisaEach(a + c, b + d, n + m)
  {
  }

  lemma ReportedSnoc(h: seq<Transaction>, t: Transaction, isFiler: bool, brackets: seq<TaxBracket>)
    ensures ReportedGains(h + [t], isFiler, brackets)
         == ReportedGains(h, isFiler, brackets)
            + if IsSell(t) then GainOrZero(FifoOutcome(Open(Held(h)), SaleOf(t, isFiler), brackets)) else 0.0
    ensures AllMatch(h + [t], isFiler, brackets)
       <==> && AllMatch(h, isFiler, brackets)
            && (IsSell(t) ==> FifoOutcome(Open(Held(h)), SaleOf(t, isFiler), brackets).Success?)
  {
    assert (h + [t])[..|h + [t]| - 1] == h;
  }

  lemma CountsSnoc(h: seq<Transaction>, t: Transaction)
    ensures FillCount(h + [t]) == FillCount(h) + if IsSell(t) then |Consume(Held(h), t.quantity)| else 0
    ensures MatchCount(h + [t]) == MatchCount(h) + if IsSell(t) then |MatchFills(h, t.quantity)| else 0
    ensures OrderGap(h + [t])
         == OrderGap(h)
            + if IsSell(t)
              then ExactGain(MatchFills(h, t.quantity), t.price) - ExactGain(Consume(Held(h), t.quantity), t.price)
              else 0.0
  {
    assert (h + [t])[..|h + [t]| - 1] == h;
  }

  /**
    On every history whose sells the match could serve, the reported gains are the replay's profit plus what
    the two orders differ by, up to half a paisa for each lot matched.
  */
  lemma {:induction false} ProfitDriftInGeneral(h: seq<Transaction>, isFiler: bool, brackets: seq<TaxBracket>)
    requires AllMatch(h, isFiler, brackets)
    ensures WithinHalfPaisaEach(Realized(h) + OrderGap(h), ReportedGains(h, isFiler, brackets), MatchCount(h))
  {
    if h != [] {
      var before, t := h[..|h| - 1], h[|h| - 1];
      assert h == before + [t];
      ProfitDriftInGeneral(before, isFiler, brackets);
      RealizedSnoc(before, t);
      ReportedSnoc(before, t, isFiler, brackets);
      CountsSnoc(before, t);
      if IsSell(t) {
        var fills := MatchFills(before, t.quantity);
        var gain := GainOrZero(FifoOutcome(Open(Held(before)), SaleOf(t, isFiler), brackets));
        SellDrift(before, t, isFiler, brackets);
        DriftsAdd(Realized(before) + OrderGap(before), ReportedGains(before, isFiler, brackets), MatchCount(before),
                  ExactGain(fills, t.price), gain, |fills|);
      }
    }
  }

  lemma {:induction false} MatchOrderClosesTheGap(h: seq<Transaction>)
    requires SellsInMatchOrder(h)
    ensures OrderGap(h) == 0.0 && MatchCount(h) == FillCount(h)
  {
    if h != [] {
      var before, t := h[..|h| - 1], h[|h| - 1];
      assert h == before + [t];
      MatchOrderClosesTheGap(before);
      CountsSnoc(before, t);
      if IsSell(t) {
        MatchSellsReplayLotsExactly(before);
        assert MatchFills(before, t.quantity) == Consume(Held(before), t.quantity);
      }
    }
  }

  /** Hence with the lots in match order at every sell the gap is gone and only the rounding is left. */
  lemma ProfitDrift(h: seq<Transaction>, isFiler: bool, brackets: seq<TaxBracket>)
    requires SellsInMatchOrder(h) && AllMatch(h, isFiler, brackets)
    ensures WithinHalfPaisaEach(Realized(h), ReportedGains(h, isFiler, brackets), FillCount(h))
  {
    MatchOrderClosesTheGap(h);
    ProfitDriftInGeneral(h, isFiler, brackets);
  }

  /** Two lots of one day of which the younger id was entered last: a match without a gain takes that one. */
  lemma LaterEntryFirst(x: BuyLot, y: BuyLot, sale: Sale, brackets: seq<TaxBracket>)
    requires x.buyDate == y.buyDate && y.transactionId < x.transactionId
    requires x.quantity == y.quantity == sale.quantity > 0.0
    requires Gain(y.pricePerShare, sale.price, sale.quantity) <= 0.0
    ensures FifoOutcome([x, y], sale, brackets).Success?
    ensures FifoOutcome([x, y], sale, brackets).value.totalGrossGain
         == HalfUp2(Gain(y.pricePerShare, sale.price, sale.quantity))
  {
    assert [x, y][1..] == [y] && [y][1..] == [] && [y, x][1..] == [x];
    assert Sort([y], OlderOrSame) == [y];
    assert Insert(x, [y], OlderOrSame) == [y] + Insert(x, [], OlderOrSame) == [y, x];
    var f := Fill(y, sale.quantity);
    assert Consume([y, x], sale.quantity) == [f] + Consume([x], 0.0) == [f];
    assert [f][1..] == [];
    assert AllTaxable([f], sale, brackets);
    assert SumBy([f], FillShares) == sale.quantity + SumBy([f][1..], FillShares);
    SummaryTotalsAreExact([f], sale, brackets);
    assert TotalGainPaisa([f], sale) == Paisa(GrossGain(f, sale)) + TotalGainPaisa([f][1..], sale);
  }

  /** Two purchases of one day, entered against the order of their ids, and a sale of one of them. */
  function AgainstIds(): (Transaction, Transaction, Transaction) {
    (Transaction(2, "OGDC", Buy, 10, 1.0, 100.0, 0.0, 0.0, 0.0, 0.0),
     Transaction(1, "OGDC", Buy, 10, 1.0, 200.0, 0.0, 0.0, 0.0, 0.0),
     Transaction(3, "OGDC", Sell, 11, 1.0, 150.0, 0.0, 0.0, 0.0, 0.0))
  }

  lemma AgainstIdsHeld()
    ensures var (a, b, t) := AgainstIds();
      && Held([] + [a] + [b]) == [LotOf(a), LotOf(b)] == Open(Held([] + [a] + [b]))
      && Consume([LotOf(a), LotOf(b)], 1.0) == [Fill(LotOf(a), 1.0)]
      && ExactGain([Fill(LotOf(a), 1.0)], 150.0) == 50.0
  {
    var (a, b, t) := AgainstIds();
    var lots := [LotOf(a), LotOf(b)];
    HeldSnoc([], a);
    HeldSnoc([] + [a], b);
    assert [] + [LotOf(a)] + [LotOf(b)] == lots;
    assert lots[1..] == [LotOf(b)] && lots[1..][1..] == [];
    assert Open(lots[1..][1..]) == [];
    OpenSplits(lots);
    OpenSplits(lots[1..]);
    ConsumeSplits(lots, 1.0);
    var fills := [Fill(LotOf(a), 1.0)];
    assert fills[1..] == [];
    assert Gain(100.0, 150.0, 1.0) == 50.0;
  }

  /**
    Lots out of match order, and at different prices: the replay sells the lot entered first, at a profit
    of 50, the match the one with the smaller id, at a loss of 50, and the bound for one lot fails.
  */
  lemma SameDayIdsMatter()
    ensures var (a, b, t) := AgainstIds();
      var h := [] + [a] + [b] + [t];
      && RowsAllowed(h) && AllMatch(h, true, []) && FillCount(h) == 1
      && Realized(h) == 50.0 && ReportedGains(h, true, []) == -50.0
      && !WithinHalfPaisaEach(Realized(h), ReportedGains(h, true, []), FillCount(h))
  {
    var (a, b, t) := AgainstIds();
    var held := [] + [a] + [b];
    AgainstIdsHeld();
    RealizedSnoc([], a);
    RealizedSnoc([] + [a], b);
    RealizedSnoc(held, t);
    ReportedSnoc([], a, true, []);
    ReportedSnoc([] + [a], b, true, []);
    ReportedSnoc(held, t, true, []);
    CountsSnoc([], a);
    CountsSnoc([] + [a], b);
    CountsSnoc(held, t);
    assert Gain(200.0, 150.0, 1.0) == -50.0;
    LaterEntryFirst(LotOf(a), LotOf(b), SaleOf(t, true), []);
    PaisaOfCents(-5000);
  }
}
