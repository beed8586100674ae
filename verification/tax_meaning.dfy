/**
  What a tax result says in terms of its own fields: which lots were sold, at what gain, which rate was
  applied and what the tax then is; the same for the tax on a single pair and for the bracket lookup.
*/
module TaxMeaning {
  import opened Wrappers
  import opened Rounding
  import opened Sorting
  import opened Sums
  import opened Lots
  import opened Cgt
  import opened CgtLaws
  import opened TaxTable

  // ---- One matched lot ---------------------------------------------------------------------------

  /** Sold at a gain: the rate per cent of the bracket in force, and the gain at that rate to the nearest paisa. */
  ghost predicate TaxedAtItsRate(m: MatchedLot, sale: Sale, brackets: seq<TaxBracket>) {
    var bracket := FindBracket(brackets, sale.date, sale.isFiler, sale.date - m.buyDate);
    && bracket.Success? && m.cgtRatePct == bracket.value.ratePct
    && IsNearestUnit(100.0 * m.cgt, Times(Times(sale.price - m.buyPrice, m.quantity), m.cgtRatePct))
  }

  ghost predicate RecordIsRight(m: MatchedLot, sale: Sale, brackets: seq<TaxBracket>) {
    && m.sellDate == sale.date && m.sellPrice == sale.price && m.holdingPeriodDays == sale.date - m.buyDate
    && IsNearestUnit(100.0 * m.grossGain, 100.0 * Times(sale.price - m.buyPrice, m.quantity))
    && if sale.price > m.buyPrice then TaxedAtItsRate(m, sale, brackets) else m.cgtRatePct == 0.0 && m.cgt == 0.0
  }

  /** The part of a lot that the record is about. */
  predicate PartOf(m: MatchedLot, lot: BuyLot) {
    && m.transactionId == lot.transactionId && m.buyDate == lot.buyDate && m.buyPrice == lot.pricePerShare
    && 0.0 < m.quantity <= lot.quantity
  }

  lemma GainIsPositiveExactly(buyPrice: real, sellPrice: real, quantity: real)
    requires quantity > 0.0
    ensures Gain(buyPrice, sellPrice, quantity) == Times(sellPrice - buyPrice, quantity)
    ensures Gain(buyPrice, sellPrice, quantity) > 0.0 <==> sellPrice > buyPrice
  {
  }

  lemma TaxIsNearest(gain: real, ratePct: real)
    ensures IsNearestUnit(TaxPaisa(gain, ratePct) as real, Times(gain, ratePct))
  {
    HalfUpUnits(Times(gain, ratePct));
  }

  lemma GainIsNearest(gain: real)
    ensures IsNearestUnit(100.0 * HalfUp2(gain), 100.0 * gain)
  {
    HalfUpIsNearest(gain);
  }

  lemma FillIsRecorded(f: Fill, sale: Sale, brackets: seq<TaxBracket>)
    requires f.take > 0.0 && f.take <= f.lot.quantity && Taxable(f, sale, brackets)
    ensures RecordIsRight(MatchedOf(f, sale, brackets), sale, brackets)
    ensures PartOf(MatchedOf(f, sale, brackets), f.lot)
  {
    var m, gain := MatchedOf(f, sale, brackets), GrossGain(f, sale);
    GainIsPositiveExactly(f.lot.pricePerShare, sale.price, f.take);
    GainIsNearest(gain);
    if gain > 0.0 {
      TaxIsNearest(gain, m.cgtRatePct);
      assert 100.0 * m.cgt == TaxPaisa(gain, m.cgtRatePct) as real;
    }
  }

  // ---- The whole match ---------------------------------------------------------------------------

  function MatchedCost(m: MatchedLot): real { m.buyPrice * m.quantity }

  /** The lots are in the order of their age, and every open lot older than one sold was sold whole before it. */
  ghost predicate OldestWereSold(matched: seq<MatchedLot>, lots: seq<BuyLot>) {
    && (forall j, k :: 0 <= j < k < |matched| ==>
          || matched[j].buyDate < matched[k].buyDate
          || (matched[j].buyDate == matched[k].buyDate && matched[j].transactionId <= matched[k].transactionId))
    && (forall lot, k | lot in lots && lot.quantity > 0.0 && 0 <= k < |matched| && lot.buyDate < matched[k].buyDate ::
          SoldWholeBefore(lot, matched, k))
  }

  ghost predicate SoldWholeBefore(lot: BuyLot, matched: seq<MatchedLot>, k: nat)
    requires k < |matched|
  {
    exists j :: 0 <= j < k && PartOf(matched[j], lot) && matched[j].quantity == lot.quantity
  }

  /** The matched lots of a successful match are the records of its fills. */
  lemma MatchedAreFills(lots: seq<BuyLot>, sale: Sale, brackets: seq<TaxBracket>)
    requires FifoOutcome(lots, sale, brackets).Success?
    ensures var r, fills := FifoOutcome(lots, sale, brackets).value, Consume(Sort(lots, OlderOrSame), sale.quantity);
      && AllTaxable(fills, sale, brackets) && r == Summary(fills, sale, brackets)
      && |r.matched| == |fills|
      && (forall k :: 0 <= k < |fills| ==>
            Taxable(fills[k], sale, brackets) && r.matched[k] == MatchedOf(fills[k], sale, brackets))
  {
    MatchedAt(Consume(Sort(lots, OlderOrSame), sale.quantity), sale, brackets);
  }

  /**
    A successful match, read off its own records: every one is part of a lot that was passed, with the
    gain, the rate and the tax that its prices, quantity and dates give; the oldest lots were sold first.
  */
  lemma MatchIsRecorded(lots: seq<BuyLot>, sale: Sale, brackets: seq<TaxBracket>)
    requires FifoOutcome(lots, sale, brackets).Success?
    ensures var matched := FifoOutcome(lots, sale, brackets).value.matched;
      && (forall k :: 0 <= k < |matched| ==> RecordIsRight(matched[k], sale, brackets))
      && (forall k :: 0 <= k < |matched| ==> exists lot :: lot in lots && PartOf(matched[k], lot))
      && OldestWereSold(matched, lots)
  {
    var sorted := Sort(lots, OlderOrSame);
    var fills := Consume(sorted, sale.quantity);
    var matched := FifoOutcome(lots, sale, brackets).value.matched;
    MatchedAreFills(lots, sale, brackets);
    ConsumeTakes(sorted, sale.quantity);
    ConsumeUsesLots(sorted, sale.quantity);
    SortMembers(lots, OlderOrSame);
    forall k | 0 <= k < |matched|
      ensures RecordIsRight(matched[k], sale, brackets)
      ensures fills[k].lot in lots && PartOf(matched[k], fills[k].lot)
    {
      assert fills[k] in fills;
      FillIsRecorded(fills[k], sale, brackets);
    }
    FillsAreOldest(lots, sale, brackets);
  }

  lemma FillsAreOldest(lots: seq<BuyLot>, sale: Sale, brackets: seq<TaxBracket>)
    requires FifoOutcome(lots, sale, brackets).Success?
    ensures OldestWereSold(FifoOutcome(lots, sale, brackets).value.matched, lots)
  {
    var sorted := Sort(lots, OlderOrSame);
    var fills, matched := Consume(sorted, sale.quantity), FifoOutcome(lots, sale, brackets).value.matched;
    MatchedAreFills(lots, sale, brackets);
    ConsumeTakes(sorted, sale.quantity);
    ConsumeIsPrefix(sorted, sale.quantity);
    OpenIsSorted(lots);
    FilterMembers(sorted, IsOpen);
    SortMembers(lots, OlderOrSame);
    forall k | 0 <= k < |matched|
      ensures PartOf(matched[k], Open(sorted)[k])
    {
      assert matched[k] == MatchedOf(fills[k], sale, brackets);
    }
    PrefixIsOldest(matched, Open(sorted), lots);
  }

  /** Records of the first lots of a list in age order that holds all open lots. */
  lemma PrefixIsOldest(matched: seq<MatchedLot>, open: seq<BuyLot>, lots: seq<BuyLot>)
    requires Sorted(open, OlderOrSame) && |matched| <= |open|
    requires forall k :: 0 <= k < |matched| ==> PartOf(matched[k], open[k])
    requires forall k :: 0 <= k < |matched| - 1 ==> matched[k].quantity == open[k].quantity
    requires forall lot :: lot in lots && lot.quantity > 0.0 ==> lot in open
    ensures OldestWereSold(matched, lots)
  {
    forall lot, k | lot in lots && lot.quantity > 0.0 && 0 <= k < |matched| && lot.buyDate < matched[k].buyDate
      ensures SoldWholeBefore(lot, matched, k)
    {
      var j :| 0 <= j < |open| && open[j] == lot;
      assert PartOf(matched[k], open[k]);
      assert j < k;
      assert PartOf(matched[j], open[j]);
    }
    forall j, k | 0 <= j < k < |matched|
      ensures matched[j].buyDate < matched[k].buyDate
           || (matched[j].buyDate == matched[k].buyDate && matched[j].transactionId <= matched[k].transactionId)
    {
      assert PartOf(matched[j], open[j]) && PartOf(matched[k], open[k]) && OlderOrSame(open[j], open[k]);
    }
  }

  lemma OpenIsSorted(lots: seq<BuyLot>)
    ensures Sorted(Open(Sort(lots, OlderOrSame)), OlderOrSame)
  {
    FilterSort(lots, OlderOrSame, IsOpen);
    SortSorts(Open(lots), OlderOrSame);
  }

  lemma {:induction false} CostOfMatched(fills: seq<Fill>, sale: Sale, brackets: seq<TaxBracket>)
    requires AllTaxable(fills, sale, brackets)
    ensures SumBy(AllMatched(fills, sale, brackets), MatchedCost) == SumBy(fills, FillCost)
    ensures SumBy(AllMatched(fills, sale, brackets), MatchedShares) == SumBy(fills, FillShares)
  {
    if fills != [] {
      CostOfMatched(fills[1..], sale, brackets);
      assert AllMatched(fills, sale, brackets)[1..] == AllMatched(fills[1..], sale, brackets);
    }
  }

  /** The totals over the records: gains and taxes add up, and the average price is cost over shares. */
  lemma TotalsOfRecords(lots: seq<BuyLot>, sale: Sale, brackets: seq<TaxBracket>)
    requires FifoOutcome(lots, sale, brackets).Success?
    ensures var r := FifoOutcome(lots, sale, brackets).value;
      && SumBy(r.matched, (m: MatchedLot) => m.quantity) == sale.quantity
      && r.totalGrossGain == SumBy(r.matched, (m: MatchedLot) => m.grossGain)
      && r.totalCgt == SumBy(r.matched, (m: MatchedLot) => m.cgt)
      && IsNearest(10000.0, r.weightedAvgBuyPrice,
                   SumBy(r.matched, (m: MatchedLot) => m.buyPrice * m.quantity) / sale.quantity)
  {
    var r, sorted := FifoOutcome(lots, sale, brackets).value, Sort(lots, OlderOrSame);
    var fills := Consume(sorted, sale.quantity);
    MatchedAreFills(lots, sale, brackets);
    CostOfMatched(fills, sale, brackets);
    TotalsAreExact(lots, sale, brackets);
    ConsumeTotal(sorted, sale.quantity);
    SameSum(r.matched, MatchedShares, (m: MatchedLot) => m.quantity);
    SameSum(r.matched, MatchedGain, (m: MatchedLot) => m.grossGain);
    SameSum(r.matched, MatchedCgt, (m: MatchedLot) => m.cgt);
    SameSum(r.matched, MatchedCost, (m: MatchedLot) => m.buyPrice * m.quantity);
    HalfUpIsNearest(SumBy(fills, FillCost) / sale.quantity);
  }

  lemma {:induction false} SameSum<T(!new)>(s: seq<T>, f: T -> real, g: T -> real)
    requires forall x :: f(x) == g(x)
    ensures SumBy(s, f) == SumBy(s, g)
  {
    if s != [] {
      SameSum(s[1..], f, g);
    }
  }

  // ---- A single pair -----------------------------------------------------------------------------

  /** The tax on one pair, in every case. */
  lemma PairIsTaxed(
    buyPrice: real, sellPrice: real, quantity: real, days: int, isFiler: bool, sellDate: int,
    brackets: seq<TaxBracket>)
    ensures var r := CalculateCgt(buyPrice, sellPrice, quantity, days, isFiler, sellDate, brackets);
      var bracket := FindBracket(brackets, sellDate, isFiler, days);
      if quantity <= 0.0 then r == Failure(InvalidQuantity)
      else if sellPrice <= buyPrice then r == Success(0.0)
      else if bracket.Failure? then r == Failure(NoApplicableTaxRule)
      else
        && r.Success?
        && IsNearestUnit(100.0 * r.value, Times(Times(sellPrice - buyPrice, quantity), bracket.value.ratePct))
  {
    if quantity > 0.0 {
      GainIsPositiveExactly(buyPrice, sellPrice, quantity);
      FindBracketIsMostSpecific(brackets, sellDate, isFiler, days);
      var bracket := FindBracket(brackets, sellDate, isFiler, days);
      if bracket.Success? {
        var gain := Gain(buyPrice, sellPrice, quantity);
        TaxIsNearest(gain, bracket.value.ratePct);
        var paisa := TaxPaisa(gain, bracket.value.ratePct);
        assert 100.0 * (paisa as real / 100.0) == paisa as real;
      }
    }
  }

  // ---- The bracket lookup ------------------------------------------------------------------------

  /** A bracket is in force from its first to its last day, and for its least to its greatest holding period. */
  predicate InForce(b: TaxBracket, sellDate: int, isFiler: bool, days: int) {
    && (b.isFiler <==> isFiler)
    && b.effectiveFrom <= sellDate && (b.effectiveTo.None? || sellDate <= b.effectiveTo.value)
    && b.minHoldingDays <= days && (b.maxHoldingDays.None? || days <= b.maxHoldingDays.value)
  }

  /** Against another one in force: no wider a range of holding periods, and on a tie no longer a time in force. */
  predicate NoWider(a: TaxBracket, b: TaxBracket) {
    var never := 1_000_000_000;
    var daysA := if a.maxHoldingDays.Some? then a.maxHoldingDays.value - a.minHoldingDays else never;
    var daysB := if b.maxHoldingDays.Some? then b.maxHoldingDays.value - b.minHoldingDays else never;
    var timeA := if a.effectiveTo.Some? then a.effectiveTo.value - a.effectiveFrom else never;
    var timeB := if b.effectiveTo.Some? then b.effectiveTo.value - b.effectiveFrom else never;
    daysA < daysB || (daysA == daysB && timeA <= timeB)
  }

  lemma LookupIsInForce(brackets: seq<TaxBracket>, sellDate: int, isFiler: bool, days: int)
    ensures var r := FindBracket(brackets, sellDate, isFiler, days);
      if r.Failure? then forall b :: b in brackets ==> !InForce(b, sellDate, isFiler, days)
      else
        && r.value in brackets && InForce(r.value, sellDate, isFiler, days)
        && forall b :: b in brackets && InForce(b, sellDate, isFiler, days) ==> NoWider(r.value, b)
  {
    FindBracketIsMostSpecific(brackets, sellDate, isFiler, days);
    forall b
      ensures InForce(b, sellDate, isFiler, days) <==> BracketMatches(b, sellDate, isFiler, days)
    {
    }
    forall a, b
      ensures NoWider(a, b) <==> AtLeastAsSpecific(a, b)
    {
    }
  }

  /** The rate per cent of the seeded table: day 738337 is 1 July 2022, day 739068 is 1 July 2024. */
  function SeededRate(sellDate: int, isFiler: bool, days: int): Option<real> {
    if sellDate < 738337 || days < 0 then None
    else if sellDate >= 739068 then Some(if isFiler then 15.0 else 45.0)
    else
      var filer := if days <= 365 then 15.0 else if days <= 730 then 12.5 else if days <= 1095 then 10.0
                   else if days <= 1460 then 7.5 else 0.0;
      Some(if isFiler then filer else 2.0 * filer)
  }

  lemma SeedRates(sellDate: int, isFiler: bool, days: int)
    ensures var r, rate := FindBracket(SeededBrackets(), sellDate, isFiler, days), SeededRate(sellDate, isFiler, days);
      (r.Success? <==> rate.Some?) && (r.Success? ==> r.value.ratePct == rate.value)
  {
    SeedLookup(sellDate, isFiler, days);
  }
}
