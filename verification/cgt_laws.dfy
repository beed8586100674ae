/** What the FIFO tax match guarantees, over every list of lots and every sale. */
module CgtLaws {
  import opened Wrappers
  import opened Rounding
  import opened Sorting
  import opened Sums
  import opened Lots
  import opened Cgt

  // ---- Which lots are used -----------------------------------------------------------------------

  /** With distinct (date, id) keys the order in which the lots are handed over is irrelevant. */
  lemma MatchIgnoresLotOrder(lots: seq<BuyLot>, shuffled: seq<BuyLot>, sale: Sale, brackets: seq<TaxBracket>)
    requires multiset(lots) == multiset(shuffled)
    requires DistinctIds(lots)
    ensures FifoOutcome(lots, sale, brackets) == FifoOutcome(shuffled, sale, brackets)
  {
    SortingIgnoresLotOrder(lots, shuffled);
  }

  /** No two different lots share both purchase date and transaction id. */
  ghost predicate DistinctIds(lots: seq<BuyLot>) {
    forall a, b :: a in lots && b in lots ==> a.buyDate != b.buyDate || a.transactionId != b.transactionId || a == b
  }

  lemma SortingIgnoresLotOrder(lots: seq<BuyLot>, shuffled: seq<BuyLot>)
    requires multiset(lots) == multiset(shuffled) && DistinctIds(lots)
    ensures Sort(lots, OlderOrSame) == Sort(shuffled, OlderOrSame)
  {
    var s, t := Sort(lots, OlderOrSame), Sort(shuffled, OlderOrSame);
    SortSorts(lots, OlderOrSame);
    SortSorts(shuffled, OlderOrSame);
    SortPermutes(lots, OlderOrSame);
    SortPermutes(shuffled, OlderOrSame);
    SortMembers(lots, OlderOrSame);
    SortedIsUnique(s, t, OlderOrSame);
  }

  /** A successful match uses exactly the quantity sold, from a prefix of the open lots in age order. */
  lemma MatchUsesOldestFirst(lots: seq<BuyLot>, sale: Sale, brackets: seq<TaxBracket>)
    requires FifoOutcome(lots, sale, brackets).Success?
    ensures var m, open := FifoOutcome(lots, sale, brackets).value.matched, Open(Sort(lots, OlderOrSame));
      && 0 < |m| <= |open|
      && (forall k :: 0 <= k < |m| ==>
            && m[k].transactionId == open[k].transactionId
            && m[k].buyDate == open[k].buyDate
            && m[k].buyPrice == open[k].pricePerShare
            && 0.0 < m[k].quantity <= open[k].quantity)
      && (forall k :: 0 <= k < |m| - 1 ==> m[k].quantity == open[k].quantity)
      && SumBy(m, MatchedShares) == sale.quantity
  {
    var sorted := Sort(lots, OlderOrSame);
    var fills := Consume(sorted, sale.quantity);
    ConsumeIsPrefix(sorted, sale.quantity);
    ConsumeTakes(sorted, sale.quantity);
    ConsumeTotal(sorted, sale.quantity);
    MatchedAt(fills, sale, brackets);
    MatchedSharesAreFillShares(fills, sale, brackets);
  }

  function MatchedShares(m: MatchedLot): real { m.quantity }

  lemma {:induction false} MatchedSharesAreFillShares(fills: seq<Fill>, sale: Sale, brackets: seq<TaxBracket>)
    requires AllTaxable(fills, sale, brackets)
    ensures SumBy(AllMatched(fills, sale, brackets), MatchedShares) == SumBy(fills, FillShares)
  {
    if fills != [] {
      MatchedSharesAreFillShares(fills[1..], sale, brackets);
      assert AllMatched(fills, sale, brackets)[1..] == AllMatched(fills[1..], sale, brackets);
    }
  }

  // ---- When it fails -----------------------------------------------------------------------------

  function OpenPart(lot: BuyLot): real { if lot.quantity > 0.0 then lot.quantity else 0.0 }

  lemma {:induction false} OpenSharesAreParts(lots: seq<BuyLot>)
    ensures Shares(Open(lots)) == SumBy(lots, OpenPart)
  {
    if lots != [] {
      OpenSharesAreParts(lots[1..]);
      OpenSplits(lots);
      if lots[0].quantity > 0.0 {
        SumCons(lots[0], Open(lots[1..]), LotShares);
      } else {
        assert [] + Open(lots[1..]) == Open(lots[1..]);
      }
    }
  }

  lemma OpenSharesAreOrderFree(lots: seq<BuyLot>, shuffled: seq<BuyLot>)
    requires multiset(lots) == multiset(shuffled)
    ensures Shares(Open(lots)) == Shares(Open(shuffled))
  {
    OpenSharesAreParts(lots);
    OpenSharesAreParts(shuffled);
    SumPermutes(lots, shuffled, OpenPart);
  }

  lemma SortedSharesAreSame(lots: seq<BuyLot>)
    requires AllOpen(lots)
    ensures AllOpen(Sort(lots, OlderOrSame)) && Shares(Sort(lots, OlderOrSame)) == Shares(lots)
  {
    var sorted := Sort(lots, OlderOrSame);
    SortPermutes(lots, OlderOrSame);
    SortMembers(lots, OlderOrSame);
    forall k | 0 <= k < |sorted|
      ensures sorted[k].quantity > 0.0
    {
      assert sorted[k] in lots;
    }
    OpenSharesAreOrderFree(sorted, lots);
    OpenOfAllOpen(sorted);
    OpenOfAllOpen(lots);
  }

  /** Every sale takes the same from both lists. */
  ghost predicate SoldAlike(lots: seq<BuyLot>, others: seq<BuyLot>) {
    forall q :: Consume(lots, q) == Consume(others, q)
  }

  lemma SoldAlikeIsSame(lots: seq<BuyLot>, others: seq<BuyLot>)
    requires AllOpen(lots) && AllOpen(others) && Shares(lots) == Shares(others) && SoldAlike(lots, others)
    ensures lots == others
  {
    assert Consume(lots, Shares(lots)) == Consume(others, Shares(lots));
    ConsumeEverything(lots);
    ConsumeEverything(others);
    forall k | 0 <= k < |lots|
      ensures lots[k] == others[k]
    {
      assert Fill(lots[k], lots[k].quantity) == Fill(others[k], others[k].quantity);
    }
  }

  /** Open lots are used in list order, whatever is sold, exactly when the list is in match order. */
  lemma ListOrderIsMatchOrderExactly(lots: seq<BuyLot>)
    requires AllOpen(lots)
    ensures SoldAlike(Sort(lots, OlderOrSame), lots) <==> Sorted(lots, OlderOrSame)
  {
    var sorted := Sort(lots, OlderOrSame);
    if Sorted(lots, OlderOrSame) {
      SortOfSorted(lots, OlderOrSame);
    }
    if SoldAlike(sorted, lots) {
      SortedSharesAreSame(lots);
      SoldAlikeIsSame(sorted, lots);
      SortSorts(lots, OlderOrSame);
    }
  }

  ghost predicate SomeUntaxable(fills: seq<Fill>, sale: Sale, brackets: seq<TaxBracket>) {
    exists f :: f in fills && !Taxable(f, sale, brackets)
  }

  /** Which error a match reports, if any, given what it would use and how many open shares there are. */
  ghost predicate FailsAs(
    r: Result<CgtResult, TaxError>, fills: seq<Fill>, held: real, sale: Sale, brackets: seq<TaxBracket>)
  {
    && (r == Failure(InvalidQuantity) <==> sale.quantity <= 0.0)
    && (r == Failure(NoApplicableTaxRule) <==> sale.quantity > 0.0 && SomeUntaxable(fills, sale, brackets))
    && (sale.quantity > 0.0 && r != Failure(NoApplicableTaxRule) ==>
          if held < sale.quantity then r == Failure(InsufficientLots(sale.quantity - held)) else r.Success?)
  }

  lemma MatchInOrderFailsExactly(sorted: seq<BuyLot>, sale: Sale, brackets: seq<TaxBracket>)
    ensures FailsAs(MatchInOrder(sorted, sale, brackets), Consume(sorted, sale.quantity), Shares(Open(sorted)), sale,
                    brackets)
  {
    if sale.quantity > 0.0 {
      var fills := Consume(sorted, sale.quantity);
      UntaxableFill(fills, sale, brackets);
      ConsumeTotal(sorted, sale.quantity);
    }
  }

  /**
    The three failures, exactly.  A shortage is reported only when everything the sale would use has a
    bracket; with brackets for every gaining lot it is reported exactly when the positive lots hold less
    than the sale, and the amount reported is the difference.
  */
  lemma MatchFailsExactly(lots: seq<BuyLot>, sale: Sale, brackets: seq<TaxBracket>)
    ensures FailsAs(FifoOutcome(lots, sale, brackets), Consume(Sort(lots, OlderOrSame), sale.quantity),
                    Shares(Open(lots)), sale, brackets)
  {
    var sorted := Sort(lots, OlderOrSame);
    SortPermutes(lots, OlderOrSame);
    OpenSharesAreOrderFree(sorted, lots);
    MatchInOrderFailsExactly(sorted, sale, brackets);
  }

  /** Whether the lots can cover a sale does not depend on the seller's tax status. */
  lemma StatusDoesNotAffectCover(lots: seq<BuyLot>, sale: Sale, other: Sale, brackets: seq<TaxBracket>)
    requires other == sale.(isFiler := other.isFiler)
    requires FifoOutcome(lots, sale, brackets).Success?
    ensures FifoOutcome(lots, other, brackets).Success?
         || FifoOutcome(lots, other, brackets) == Failure(NoApplicableTaxRule)
  {
    MatchFailsExactly(lots, sale, brackets);
    MatchFailsExactly(lots, other, brackets);
  }

  // ---- The amounts -------------------------------------------------------------------------------

  /** Each matched lot carries the tax that `CalculateCgt` gives for that pair alone. */
  lemma MatchedLotAgreesWithCalculateCgt(f: Fill, sale: Sale, brackets: seq<TaxBracket>)
    requires f.take > 0.0
    ensures CalculateCgt(f.lot.pricePerShare, sale.price, f.take, HoldingDays(f.lot, sale), sale.isFiler,
                         sale.date, brackets)
         == if Taxable(f, sale, brackets) then Success(MatchedOf(f, sale, brackets).cgt)
            else Failure(NoApplicableTaxRule)
  {
    FindBracketIsMostSpecific(brackets, sale.date, sale.isFiler, HoldingDays(f.lot, sale));
  }

  ghost predicate RatesInRange(brackets: seq<TaxBracket>) {
    forall b :: b in brackets ==> 0.0 <= b.ratePct <= 100.0
  }

  lemma TaxPaisaBounds(gain: real, rate: real)
    requires gain > 0.0 && 0.0 <= rate <= 100.0
    ensures 0 <= TaxPaisa(gain, rate) <= Paisa(gain)
  {
    var t := gain * rate / 100.0;
    assert 0.0 <= gain * rate <= gain * 100.0;
    assert 0.0 <= t <= gain;
    HalfUp2Monotone(0.0, t);
    HalfUp2Monotone(t, gain);
    PaisaOfCents(0);
  }

  /** Rounded tax lies between nothing and the rounded gain, and a loss is not taxed. */
  lemma FillCgtBounds(f: Fill, sale: Sale, brackets: seq<TaxBracket>)
    requires RatesInRange(brackets)
    ensures 0 <= FillCgtPaisa(f, sale, brackets)
    ensures FillCgtPaisa(f, sale, brackets) <= (if GrossGain(f, sale) > 0.0 then Paisa(GrossGain(f, sale)) else 0)
  {
    if GrossGain(f, sale) > 0.0 && Taxable(f, sale, brackets) {
      FindBracketIsMostSpecific(brackets, sale.date, sale.isFiler, HoldingDays(f.lot, sale));
      TaxPaisaBounds(GrossGain(f, sale), FillRate(f, sale, brackets).value);
    } else if GrossGain(f, sale) > 0.0 {
      HalfUp2Monotone(0.0, GrossGain(f, sale));
      PaisaOfCents(0);
    }
  }

  function TotalCgtPaisa(fills: seq<Fill>, sale: Sale, brackets: seq<TaxBracket>): int {
    if fills == [] then 0
    else FillCgtPaisa(fills[0], sale, brackets) + TotalCgtPaisa(fills[1..], sale, brackets)
  }

  function TotalGainPaisa(fills: seq<Fill>, sale: Sale): int {
    if fills == [] then 0 else Paisa(GrossGain(fills[0], sale)) + TotalGainPaisa(fills[1..], sale)
  }

  lemma {:induction false} MatchedSums(fills: seq<Fill>, sale: Sale, brackets: seq<TaxBracket>)
    requires AllTaxable(fills, sale, brackets)
    ensures SumBy(AllMatched(fills, sale, brackets), MatchedCgt)
         == TotalCgtPaisa(fills, sale, brackets) as real / 100.0
    ensures SumBy(AllMatched(fills, sale, brackets), MatchedGain) == TotalGainPaisa(fills, sale) as real / 100.0
  {
    if fills != [] {
      MatchedSums(fills[1..], sale, brackets);
      assert AllMatched(fills, sale, brackets)[1..] == AllMatched(fills[1..], sale, brackets);
      assert AllMatched(fills, sale, brackets)[0] == MatchedOf(fills[0], sale, brackets);
    }
  }

  lemma SummaryTotalsAreExact(fills: seq<Fill>, sale: Sale, brackets: seq<TaxBracket>)
    requires AllTaxable(fills, sale, brackets)
    ensures var r := Summary(fills, sale, brackets);
      && r.totalCgt == TotalCgtPaisa(fills, sale, brackets) as real / 100.0
      && r.totalGrossGain == TotalGainPaisa(fills, sale) as real / 100.0
  {
    MatchedSums(fills, sale, brackets);
    PaisaOfCents(TotalCgtPaisa(fills, sale, brackets));
    PaisaOfCents(TotalGainPaisa(fills, sale));
  }

  /** The totals are sums of whole paisa, so rounding them once more changes nothing. */
  lemma TotalsAreExact(lots: seq<BuyLot>, sale: Sale, brackets: seq<TaxBracket>)
    requires FifoOutcome(lots, sale, brackets).Success?
    ensures var r := FifoOutcome(lots, sale, brackets).value;
      && r.totalCgt == SumBy(r.matched, MatchedCgt)
      && r.totalGrossGain == SumBy(r.matched, MatchedGain)
  {
    var fills := Consume(Sort(lots, OlderOrSame), sale.quantity);
    SummaryTotalsAreExact(fills, sale, brackets);
    MatchedSums(fills, sale, brackets);
  }

  /** `b` is `a` up to the rounding of `n` amounts to whole paisa. */
  predicate WithinHalfPaisaEach(a: real, b: real, n: nat) {
    -0.005 * n as real <= a - b <= 0.005 * n as real
  }

  /** The reported gain is within half a paisa per matched lot of the exact gain. */
  lemma {:induction false} GainDrift(fills: seq<Fill>, sale: Sale)
    ensures WithinHalfPaisaEach(ExactGain(fills, sale.price), TotalGainPaisa(fills, sale) as real / 100.0, |fills|)
  {
    if fills != [] {
      GainDrift(fills[1..], sale);
      HalfUp2Close(GrossGain(fills[0], sale));
    }
  }

  // ---- Selling in two steps ----------------------------------------------------------------------

  /** The two pieces of a split fill are taxed within one paisa of the whole, on the same exact gain. */
  lemma SplitFill(lot: BuyLot, rest: BuyLot, x: real, y: real, sale: Sale, brackets: seq<TaxBracket>)
    requires x > 0.0 && y > 0.0 && rest == lot.(quantity := rest.quantity)
    ensures var whole, f, g := Fill(lot, x + y), Fill(lot, x), Fill(rest, y);
      && GrossGain(whole, sale) == GrossGain(f, sale) + GrossGain(g, sale)
      && FillRate(whole, sale, brackets) == FillRate(f, sale, brackets) == FillRate(g, sale, brackets)
      && -1 <= FillCgtPaisa(f, sale, brackets) + FillCgtPaisa(g, sale, brackets)
               - FillCgtPaisa(whole, sale, brackets) <= 1
  {
    var whole, f, g := Fill(lot, x + y), Fill(lot, x), Fill(rest, y);
    GainSplits(lot.pricePerShare, sale.price, x, y);
    if GrossGain(whole, sale) > 0.0 && Taxable(whole, sale, brackets) {
      TaxSplits(GrossGain(whole, sale), GrossGain(f, sale), GrossGain(g, sale), FillRate(whole, sale, brackets).value);
    }
  }

  lemma GainSplits(buy: real, sell: real, x: real, y: real)
    requires x > 0.0 && y > 0.0
    ensures Gain(buy, sell, x + y) == Gain(buy, sell, x) + Gain(buy, sell, y)
    ensures Gain(buy, sell, x) > 0.0 <==> sell > buy
    ensures Gain(buy, sell, y) > 0.0 <==> sell > buy
    ensures Gain(buy, sell, x + y) > 0.0 <==> sell > buy
  {
  }

  lemma TaxSplits(whole: real, x: real, y: real, rate: real)
    requires whole == x + y
    ensures -1 <= TaxPaisa(x, rate) + TaxPaisa(y, rate) - TaxPaisa(whole, rate) <= 1
  {
    var a, b := x * rate / 100.0, y * rate / 100.0;
    assert whole * rate / 100.0 == a + b;
    SplitRounding(a, b);
  }

  /** `whole` is `f` and `g` put together, where `g` comes from what `f` left of the same lot. */
  ghost predicate Joins(whole: Fill, f: Fill, g: Fill) {
    && f.take > 0.0 && g.take > 0.0
    && whole == Fill(f.lot, f.take + g.take)
    && g.lot == f.lot.(quantity := g.lot.quantity)
  }

  /** `whole` is `first` followed by `second`, up to joining the last of the one to the first of the other. */
  ghost predicate TwoParts(whole: seq<Fill>, first: seq<Fill>, second: seq<Fill>) {
    if first == [] then whole == second
    else if whole == [] then false
    else
      || (whole[0] == first[0] && TwoParts(whole[1..], first[1..], second))
      || (|first| == 1 && second != [] && Joins(whole[0], first[0], second[0]) && whole[1..] == second[1..])
  }

  lemma {:induction false} TwoStepFills(lots: seq<BuyLot>, a: real, b: real)
    requires NonNegative(lots) && a >= 0.0 && b > 0.0
    ensures TwoParts(Consume(lots, a + b), Consume(lots, a), Consume(Deduct(lots, a), b))
  {
    if a == 0.0 || lots == [] {
      assert Consume(lots, a) == [];
    } else {
      var lot, rest, h := lots[0], lots[1..], lots[0].quantity;
      DeductSplits(lots, a);
      if h == 0.0 {
        assert Deduct(lots, a)[1..] == Deduct(rest, a);
        TwoStepFills(rest, a, b);
      } else if h <= a {
        assert Deduct(lots, a)[1..] == Deduct(rest, a - h);
        ConsumeSplits(lots, a);
        ConsumeSplits(lots, a + b);
        assert a + b - h == (a - h) + b;
        TwoStepFills(rest, a - h, b);
      } else {
        var y := Min(h - a, b);
        assert Deduct(lots, a) == [lot.(quantity := h - a)] + rest;
        ConsumeSplits(lots, a);
        ConsumeSplits(lots, a + b);
        ConsumeSplits(Deduct(lots, a), b);
        assert Min(h, a + b) == a + y && a + b - (a + y) == b - y;
      }
    }
  }

  lemma {:induction false} TwoPartsTax(
    whole: seq<Fill>, first: seq<Fill>, second: seq<Fill>, sale: Sale, brackets: seq<TaxBracket>)
    requires TwoParts(whole, first, second)
    ensures -1 <= TotalCgtPaisa(first, sale, brackets) + TotalCgtPaisa(second, sale, brackets)
                  - TotalCgtPaisa(whole, sale, brackets) <= 1
  {
    if first != [] {
      if whole[0] == first[0] && TwoParts(whole[1..], first[1..], second) {
        TwoPartsTax(whole[1..], first[1..], second, sale, brackets);
      } else {
        SplitFill(first[0].lot, second[0].lot, first[0].take, second[0].take, sale, brackets);
      }
    }
  }

  lemma {:induction false} TwoPartsGain(
    whole: seq<Fill>, first: seq<Fill>, second: seq<Fill>, sale: Sale, brackets: seq<TaxBracket>)
    requires TwoParts(whole, first, second)
    ensures ExactGain(whole, sale.price) == ExactGain(first, sale.price) + ExactGain(second, sale.price)
  {
    if first != [] {
      if whole[0] == first[0] && TwoParts(whole[1..], first[1..], second) {
        TwoPartsGain(whole[1..], first[1..], second, sale, brackets);
      } else {
        SplitFill(first[0].lot, second[0].lot, first[0].take, second[0].take, sale, brackets);
      }
    }
  }

  lemma {:induction false} TwoPartsTaxable(
    whole: seq<Fill>, first: seq<Fill>, second: seq<Fill>, sale: Sale, brackets: seq<TaxBracket>)
    requires TwoParts(whole, first, second)
    ensures AllTaxable(whole, sale, brackets)
       <==> AllTaxable(first, sale, brackets) && AllTaxable(second, sale, brackets)
  {
    if first != [] {
      if whole[0] == first[0] && TwoParts(whole[1..], first[1..], second) {
        TwoPartsTaxable(whole[1..], first[1..], second, sale, brackets);
      } else {
        SplitFill(first[0].lot, second[0].lot, first[0].take, second[0].take, sale, brackets);
      }
    }
  }

  lemma DeductKeepsOrder(lots: seq<BuyLot>, a: real)
    requires Sorted(lots, OlderOrSame)
    ensures Sort(Deduct(lots, a), OlderOrSame) == Deduct(lots, a)
  {
    DeductKeepsTerms(lots, a);
    SortOfSorted(Deduct(lots, a), OlderOrSame);
  }

  lemma OutcomeInOrder(lots: seq<BuyLot>, sale: Sale, q: real, brackets: seq<TaxBracket>)
    requires NonNegative(lots) && q > 0.0
    ensures var r, fills := MatchInOrder(lots, sale.(quantity := q), brackets), Consume(lots, q);
      && (r.Success? <==> AllTaxable(fills, sale, brackets) && q <= Shares(lots))
      && (r.Success? ==> r.value.totalCgt == TotalCgtPaisa(fills, sale, brackets) as real / 100.0)
  {
    var fills := Consume(lots, q);
    ConsumeTotal(lots, q);
    OpenKeepsShares(lots);
    SaleSizeDoesNotMatter(fills, sale, q, brackets);
    if AllTaxable(fills, sale, brackets) {
      SummaryTotalsAreExact(fills, sale.(quantity := q), brackets);
    }
  }

  lemma SortKeepsSigns(lots: seq<BuyLot>)
    requires NonNegative(lots)
    ensures NonNegative(Sort(lots, OlderOrSame))
  {
    var sorted := Sort(lots, OlderOrSame);
    SortMembers(lots, OlderOrSame);
    forall k | 0 <= k < |sorted|
      ensures sorted[k].quantity >= 0.0
    {
      assert sorted[k] in lots;
    }
  }

  /** What is left of sorted lots after a sale is still sorted: matching it sorts nothing. */
  lemma MatchingWhatIsLeft(lots: seq<BuyLot>, a: real, sale: Sale, brackets: seq<TaxBracket>)
    ensures var left := Deduct(Sort(lots, OlderOrSame), a);
      FifoOutcome(left, sale, brackets) == MatchInOrder(left, sale, brackets)
  {
    SortSorts(lots, OlderOrSame);
    DeductKeepsOrder(Sort(lots, OlderOrSame), a);
  }

  /** Selling `a + b` shares at once succeeds exactly when selling `a` and then `b` from what is left does. */
  lemma TwoStepsSucceedTogether(lots: seq<BuyLot>, sale: Sale, a: real, b: real, brackets: seq<TaxBracket>)
    requires NonNegative(lots) && a > 0.0 && b > 0.0
    ensures MatchInOrder(lots, sale.(quantity := a + b), brackets).Success?
      <==> && MatchInOrder(lots, sale.(quantity := a), brackets).Success?
           && MatchInOrder(Deduct(lots, a), sale.(quantity := b), brackets).Success?
  {
    var left := Deduct(lots, a);
    DeductConserves(lots, a);
    OutcomeInOrder(lots, sale, a + b, brackets);
    OutcomeInOrder(lots, sale, a, brackets);
    OutcomeInOrder(left, sale, b, brackets);
    TwoStepFills(lots, a, b);
    TwoPartsTaxable(Consume(lots, a + b), Consume(lots, a), Consume(left, b), sale, brackets);
  }

  /** The two ways realise the same exact gain, and their tax differs by at most one paisa. */
  lemma TwoStepsTaxWithinOnePaisa(lots: seq<BuyLot>, sale: Sale, a: real, b: real, brackets: seq<TaxBracket>)
    requires NonNegative(lots) && a > 0.0 && b > 0.0
    requires MatchInOrder(lots, sale.(quantity := a + b), brackets).Success?
    requires MatchInOrder(lots, sale.(quantity := a), brackets).Success?
    requires MatchInOrder(Deduct(lots, a), sale.(quantity := b), brackets).Success?
    ensures ExactGain(Consume(lots, a + b), sale.price)
         == ExactGain(Consume(lots, a), sale.price) + ExactGain(Consume(Deduct(lots, a), b), sale.price)
    ensures -0.01 <= MatchInOrder(lots, sale.(quantity := a + b), brackets).value.totalCgt
                     - MatchInOrder(lots, sale.(quantity := a), brackets).value.totalCgt
                     - MatchInOrder(Deduct(lots, a), sale.(quantity := b), brackets).value.totalCgt <= 0.01
  {
    var left := Deduct(lots, a);
    DeductConserves(lots, a);
    OutcomeInOrder(lots, sale, a + b, brackets);
    OutcomeInOrder(lots, sale, a, brackets);
    OutcomeInOrder(left, sale, b, brackets);
    TwoStepFills(lots, a, b);
    TwoPartsTax(Consume(lots, a + b), Consume(lots, a), Consume(left, b), sale, brackets);
    TwoPartsGain(Consume(lots, a + b), Consume(lots, a), Consume(left, b), sale, brackets);
  }

  lemma {:induction false} SaleSizeDoesNotMatter(fills: seq<Fill>, sale: Sale, q: real, brackets: seq<TaxBracket>)
    ensures AllTaxable(fills, sale.(quantity := q), brackets) == AllTaxable(fills, sale, brackets)
    ensures TotalCgtPaisa(fills, sale.(quantity := q), brackets) == TotalCgtPaisa(fills, sale, brackets)
  {
    var other := sale.(quantity := q);
    forall f: Fill
      ensures FillRate(f, other, brackets) == FillRate(f, sale, brackets)
    {
    }
    if fills != [] {
      SaleSizeDoesNotMatter(fills[1..], sale, q, brackets);
    }
  }

  /**
    The two steps as the application takes them: the second sale is matched against the lots the first
    one leaves, re-sorted.  Both succeed or neither does, and the taxes differ by at most one paisa.
  */
  lemma SellingInTwoSteps(lots: seq<BuyLot>, sale: Sale, a: real, b: real, brackets: seq<TaxBracket>)
    requires NonNegative(lots) && a > 0.0 && b > 0.0
    ensures var whole := FifoOutcome(lots, sale.(quantity := a + b), brackets);
      var first := FifoOutcome(lots, sale.(quantity := a), brackets);
      var second := FifoOutcome(Deduct(Sort(lots, OlderOrSame), a), sale.(quantity := b), brackets);
      && (whole.Success? <==> first.Success? && second.Success?)
      && (whole.Success? ==>
            -0.01 <= whole.value.totalCgt - first.value.totalCgt - second.value.totalCgt <= 0.01)
  {
    var sorted := Sort(lots, OlderOrSame);
    SortKeepsSigns(lots);
    MatchingWhatIsLeft(lots, a, sale.(quantity := b), brackets);
    TwoStepsSucceedTogether(sorted, sale, a, b, brackets);
    if MatchInOrder(sorted, sale.(quantity := a + b), brackets).Success? {
      TwoStepsTaxWithinOnePaisa(sorted, sale, a, b, brackets);
    }
  }
}
