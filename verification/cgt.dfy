/**
  The capital gains tax engine of psx_api/tax/cgt.py: bracket lookup, the tax on one matched pair and
  the FIFO match of one sale against the open lots.
*/
module Cgt {
  import opened Wrappers
  import opened Rounding
  import opened Sorting
  import opened Sums
  import opened Lots

  datatype TaxBracket = TaxBracket(
    effectiveFrom: int,
    effectiveTo: Option<int>,
    isFiler: bool,
    minHoldingDays: int,
    maxHoldingDays: Option<int>,
    ratePct: real)

  datatype Sale = Sale(quantity: real, price: real, date: int, isFiler: bool)

  datatype MatchedLot = MatchedLot(
    transactionId: int,
    buyDate: int,
    sellDate: int,
    quantity: real,
    buyPrice: real,
    sellPrice: real,
    holdingPeriodDays: int,
    grossGain: real,
    cgtRatePct: real,
    cgt: real)

  datatype CgtResult = CgtResult(
    matched: seq<MatchedLot>,
    totalGrossGain: real,
    totalCgt: real,
    weightedAvgBuyPrice: real)

  datatype TaxError = InvalidQuantity | NoApplicableTaxRule | InsufficientLots(short: real)

  // ---- Bracket lookup ----------------------------------------------------------------------------

  const UNBOUNDED := 1_000_000_000

  predicate BracketMatches(b: TaxBracket, sellDate: int, isFiler: bool, holdingDays: int) {
    && b.isFiler == isFiler
    && b.effectiveFrom <= sellDate
    && (b.effectiveTo.Some? ==> sellDate <= b.effectiveTo.value)
    && b.minHoldingDays <= holdingDays
    && (b.maxHoldingDays.Some? ==> holdingDays <= b.maxHoldingDays.value)
  }

  function HoldingSpan(b: TaxBracket): int {
    if b.maxHoldingDays.Some? then b.maxHoldingDays.value - b.minHoldingDays else UNBOUNDED
  }

  function DateSpan(b: TaxBracket): int {
    if b.effectiveTo.Some? then b.effectiveTo.value - b.effectiveFrom else UNBOUNDED
  }

  predicate AtLeastAsSpecific(a: TaxBracket, b: TaxBracket) {
    HoldingSpan(a) < HoldingSpan(b) || (HoldingSpan(a) == HoldingSpan(b) && DateSpan(a) <= DateSpan(b))
  }

  function Candidates(brackets: seq<TaxBracket>, sellDate: int, isFiler: bool, holdingDays: int): seq<TaxBracket> {
    Filter(brackets, b => BracketMatches(b, sellDate, isFiler, holdingDays))
  }

  function FindBracket(brackets: seq<TaxBracket>, sellDate: int, isFiler: bool, holdingDays: int)
    : Result<TaxBracket, TaxError>
  {
    var candidates := Candidates(brackets, sellDate, isFiler, holdingDays);
    if candidates == [] then Failure(NoApplicableTaxRule)
    else Success(Sort(candidates, AtLeastAsSpecific)[0])
  }

  /** The lookup fails exactly when no bracket matches; otherwise none that matches is more specific. */
  lemma FindBracketIsMostSpecific(brackets: seq<TaxBracket>, sellDate: int, isFiler: bool, holdingDays: int)
    ensures var r := FindBracket(brackets, sellDate, isFiler, holdingDays);
      && (r.Failure? ==> r.error == NoApplicableTaxRule)
      && (r.Failure? <==> forall b :: b in brackets ==> !BracketMatches(b, sellDate, isFiler, holdingDays))
      && (r.Success? ==> r.value in brackets && BracketMatches(r.value, sellDate, isFiler, holdingDays))
      && (r.Success? ==> forall b :: b in brackets && BracketMatches(b, sellDate, isFiler, holdingDays) ==>
            AtLeastAsSpecific(r.value, b))
  {
    var candidates := Candidates(brackets, sellDate, isFiler, holdingDays);
    FilterMembers(brackets, b => BracketMatches(b, sellDate, isFiler, holdingDays));
    assert forall b :: b in brackets && BracketMatches(b, sellDate, isFiler, holdingDays) ==> b in candidates;
    if candidates != [] {
      FirstIsMostSpecific(candidates);
      assert candidates[0] in candidates;
    }
  }

  lemma FirstIsMostSpecific(candidates: seq<TaxBracket>)
    requires candidates != []
    ensures Sort(candidates, AtLeastAsSpecific)[0] in candidates
    ensures forall b :: b in candidates ==> AtLeastAsSpecific(Sort(candidates, AtLeastAsSpecific)[0], b)
  {
    var sorted := Sort(candidates, AtLeastAsSpecific);
    SortSorts(candidates, AtLeastAsSpecific);
    SortMembers(candidates, AtLeastAsSpecific);
    assert sorted[0] in sorted;
  }

  /** Among equally specific candidates the one listed first wins. */
  lemma {:induction false} TiesGoToTheFirst(candidates: seq<TaxBracket>)
    requires candidates != []
    ensures exists k :: (
      && 0 <= k < |candidates|
      && candidates[k] == Sort(candidates, AtLeastAsSpecific)[0]
      && (forall j :: 0 <= j < k ==> !AtLeastAsSpecific(candidates[j], candidates[k])))
  {
    var rest := candidates[1..];
    var sorted := Sort(candidates, AtLeastAsSpecific);
    if rest == [] || AtLeastAsSpecific(candidates[0], Sort(rest, AtLeastAsSpecific)[0]) {
      assert sorted[0] == candidates[0];
    } else {
      TiesGoToTheFirst(rest);
      var k :| 0 <= k < |rest| && rest[k] == Sort(rest, AtLeastAsSpecific)[0]
            && forall j :: 0 <= j < k ==> !AtLeastAsSpecific(rest[j], rest[k]);
      assert sorted[0] == candidates[k + 1];
      forall j | 0 <= j < k + 1
        ensures !AtLeastAsSpecific(candidates[j], candidates[k + 1])
      {
        if j > 0 {
          assert candidates[j] == rest[j - 1];
        }
      }
    }
  }

  // ---- Tax on one matched pair -------------------------------------------------------------------

  function Gain(buyPrice: real, sellPrice: real, quantity: real): real { (sellPrice - buyPrice) * quantity }

  /** The unrounded gain of a list of fills at one sale price. */
  function ExactGain(fills: seq<Fill>, price: real): real {
    if fills == [] then 0.0
    else Gain(fills[0].lot.pricePerShare, price, fills[0].take) + ExactGain(fills[1..], price)
  }

  /** Tax in whole paisa on a gain at a percentage rate. */
  function TaxPaisa(gain: real, ratePct: real): int { Paisa(gain * ratePct / 100.0) }

  function GrossGain(f: Fill, sale: Sale): real { Gain(f.lot.pricePerShare, sale.price, f.take) }

  function HoldingDays(lot: BuyLot, sale: Sale): int { sale.date - lot.buyDate }

  /** The rate applied to a fill: zero on a loss, else that of the bracket in force. */
  function FillRate(f: Fill, sale: Sale, brackets: seq<TaxBracket>): Result<real, TaxError> {
    if GrossGain(f, sale) > 0.0 then
      var b :- FindBracket(brackets, sale.date, sale.isFiler, HoldingDays(f.lot, sale));
      Success(b.ratePct)
    else
      Success(0.0)
  }

  predicate Taxable(f: Fill, sale: Sale, brackets: seq<TaxBracket>) {
    FillRate(f, sale, brackets).Success?
  }

  predicate AllTaxable(fills: seq<Fill>, sale: Sale, brackets: seq<TaxBracket>) {
    fills == [] || (Taxable(fills[0], sale, brackets) && AllTaxable(fills[1..], sale, brackets))
  }

  /** Tax on a fill in whole paisa; 0 on a loss, and 0 where no bracket applies. */
  function FillCgtPaisa(f: Fill, sale: Sale, brackets: seq<TaxBracket>): int {
    if GrossGain(f, sale) > 0.0 && Taxable(f, sale, brackets)
    then TaxPaisa(GrossGain(f, sale), FillRate(f, sale, brackets).value)
    else 0
  }

  function MatchedOf(f: Fill, sale: Sale, brackets: seq<TaxBracket>): MatchedLot
    requires Taxable(f, sale, brackets)
  {
    MatchedLot(
      f.lot.transactionId, f.lot.buyDate, sale.date, f.take, f.lot.pricePerShare, sale.price,
      HoldingDays(f.lot, sale), HalfUp2(GrossGain(f, sale)), FillRate(f, sale, brackets).value,
      FillCgtPaisa(f, sale, brackets) as real / 100.0)
  }

  function AllMatched(fills: seq<Fill>, sale: Sale, brackets: seq<TaxBracket>): (r: seq<MatchedLot>)
    requires AllTaxable(fills, sale, brackets)
    ensures |r| == |fills|
  {
    if fills == [] then []
    else [MatchedOf(fills[0], sale, brackets)] + AllMatched(fills[1..], sale, brackets)
  }

  lemma {:induction false} TaxableAppend(fills: seq<Fill>, more: seq<Fill>, sale: Sale, brackets: seq<TaxBracket>)
    ensures AllTaxable(fills + more, sale, brackets)
      <==> AllTaxable(fills, sale, brackets) && AllTaxable(more, sale, brackets)
  {
    if fills == [] {
      assert fills + more == more;
    } else {
      assert (fills + more)[1..] == fills[1..] + more;
      TaxableAppend(fills[1..], more, sale, brackets);
    }
  }

  lemma {:induction false} MatchedSnoc(fills: seq<Fill>, f: Fill, sale: Sale, brackets: seq<TaxBracket>)
    requires AllTaxable(fills, sale, brackets) && Taxable(f, sale, brackets)
    ensures AllTaxable(fills + [f], sale, brackets)
    ensures AllMatched(fills + [f], sale, brackets)
         == AllMatched(fills, sale, brackets) + [MatchedOf(f, sale, brackets)]
  {
    if fills == [] {
      assert [f][1..] == [];
    } else {
      assert (fills + [f])[1..] == fills[1..] + [f];
      MatchedSnoc(fills[1..], f, sale, brackets);
    }
  }

  lemma {:induction false} MatchedAt(fills: seq<Fill>, sale: Sale, brackets: seq<TaxBracket>)
    requires AllTaxable(fills, sale, brackets)
    ensures forall k :: 0 <= k < |fills| ==> Taxable(fills[k], sale, brackets)
    ensures forall k :: 0 <= k < |fills| ==>
      AllMatched(fills, sale, brackets)[k] == MatchedOf(fills[k], sale, brackets)
  {
    if fills != [] {
      MatchedAt(fills[1..], sale, brackets);
    }
  }

  lemma {:induction false} UntaxableFill(fills: seq<Fill>, sale: Sale, brackets: seq<TaxBracket>)
    ensures AllTaxable(fills, sale, brackets) <==> forall f :: f in fills ==> Taxable(f, sale, brackets)
  {
    if fills != [] {
      assert fills == [fills[0]] + fills[1..];
      UntaxableFill(fills[1..], sale, brackets);
    }
  }

  /**
    CGT on one pair; the holding period is given by the caller.  Fails on a non-positive quantity, and on
    a gain for which there is no bracket.
  */
  function CalculateCgt(
    buyPrice: real, sellPrice: real, quantity: real, holdingDays: int, isFiler: bool, sellDate: int,
    brackets: seq<TaxBracket>): (r: Result<real, TaxError>)
  {
    if quantity <= 0.0 then Failure(InvalidQuantity)
    else
      var gross := Gain(buyPrice, sellPrice, quantity);
      if gross <= 0.0 then Success(0.0)
      else
        var b :- FindBracket(brackets, sellDate, isFiler, holdingDays);
        Success(TaxPaisa(gross, b.ratePct) as real / 100.0)
  }

  // ---- The FIFO match ----------------------------------------------------------------------------

  function MatchedGain(m: MatchedLot): real { m.grossGain }
  function MatchedCgt(m: MatchedLot): real { m.cgt }

  function AverageCost(cost: real, shares: real): real {
    if shares > 0.0 then HalfUp4(cost / shares) else 0.0
  }

  function Summary(fills: seq<Fill>, sale: Sale, brackets: seq<TaxBracket>): CgtResult
    requires AllTaxable(fills, sale, brackets)
  {
    var matched := AllMatched(fills, sale, brackets);
    var shares := SumBy(fills, FillShares);
    CgtResult(
      matched,
      HalfUp2(SumBy(matched, MatchedGain)),
      HalfUp2(SumBy(matched, MatchedCgt)),
      AverageCost(SumBy(fills, FillCost), shares))
  }

  /** The match on lots already in age order: a missing bracket is reported before a shortage. */
  function MatchInOrder(sorted: seq<BuyLot>, sale: Sale, brackets: seq<TaxBracket>): Result<CgtResult, TaxError> {
    if sale.quantity <= 0.0 then Failure(InvalidQuantity)
    else
      var fills := Consume(sorted, sale.quantity);
      var short := sale.quantity - SumBy(fills, FillShares);
      if !AllTaxable(fills, sale, brackets) then Failure(NoApplicableTaxRule)
      else if short > 0.0 then Failure(InsufficientLots(short))
      else Success(Summary(fills, sale, brackets))
  }

  /** What a FIFO match must return, said without the loop. */
  function FifoOutcome(lots: seq<BuyLot>, sale: Sale, brackets: seq<TaxBracket>): Result<CgtResult, TaxError> {
    MatchInOrder(Sort(lots, OlderOrSame), sale, brackets)
  }

  lemma ConsumeAt(lots: seq<BuyLot>, i: nat, remaining: real)
    requires i < |lots| && remaining > 0.0
    ensures lots[i].quantity <= 0.0 ==> Consume(lots[i..], remaining) == Consume(lots[i + 1..], remaining)
    ensures lots[i].quantity > 0.0 ==>
      var take := Min(lots[i].quantity, remaining);
      Consume(lots[i..], remaining) == [Fill(lots[i], take)] + Consume(lots[i + 1..], remaining - take)
  {
    assert lots[i..][1..] == lots[i + 1..];
    assert lots[i..][0] == lots[i];
  }

  /** Where the loop of `MatchFifo` stands before lot `i`: it has used `fills`, and the rest is to come. */
  ghost predicate Progress(
    sorted: seq<BuyLot>, i: nat, fills: seq<Fill>, remaining: real, matched: seq<MatchedLot>,
    totalQty: real, weightedCost: real, sale: Sale, brackets: seq<TaxBracket>)
  {
    && i <= |sorted|
    && remaining >= 0.0
    && Consume(sorted, sale.quantity) == fills + Consume(sorted[i..], remaining)
    && AllTaxable(fills, sale, brackets)
    && matched == AllMatched(fills, sale, brackets)
    && totalQty == SumBy(fills, FillShares) == sale.quantity - remaining
    && weightedCost == SumBy(fills, FillCost)
  }

  lemma ProgressUse(
    sorted: seq<BuyLot>, i: nat, fills: seq<Fill>, remaining: real, matched: seq<MatchedLot>,
    totalQty: real, weightedCost: real, sale: Sale, brackets: seq<TaxBracket>)
    requires Progress(sorted, i, fills, remaining, matched, totalQty, weightedCost, sale, brackets)
    requires i < |sorted| && remaining > 0.0 && sorted[i].quantity > 0.0
    ensures var take := Min(sorted[i].quantity, remaining); var f := Fill(sorted[i], take);
      if Taxable(f, sale, brackets) then
        Progress(sorted, i + 1, fills + [f], remaining - take, matched + [MatchedOf(f, sale, brackets)],
                 totalQty + take, weightedCost + Value(f.lot.pricePerShare, take), sale, brackets)
      else
        FailsForWantOfRule(sorted, sale, brackets)
  {
    var take := Min(sorted[i].quantity, remaining);
    var f := Fill(sorted[i], take);
    ConsumeAt(sorted, i, remaining);
    var rest := Consume(sorted[i + 1..], remaining - take);
    assert Consume(sorted, sale.quantity) == (fills + [f]) + rest;
    if Taxable(f, sale, brackets) {
      SumSnoc(fills, f, FillShares);
      SumSnoc(fills, f, FillCost);
      MatchedSnoc(fills, f, sale, brackets);
    } else {
      TaxableAppend(fills + [f], rest, sale, brackets);
      TaxableAppend(fills, [f], sale, brackets);
    }
  }

  ghost predicate FailsForWantOfRule(sorted: seq<BuyLot>, sale: Sale, brackets: seq<TaxBracket>) {
    !AllTaxable(Consume(sorted, sale.quantity), sale, brackets)
  }

  lemma ProgressSkip(
    sorted: seq<BuyLot>, i: nat, fills: seq<Fill>, remaining: real, matched: seq<MatchedLot>,
    totalQty: real, weightedCost: real, sale: Sale, brackets: seq<TaxBracket>)
    requires Progress(sorted, i, fills, remaining, matched, totalQty, weightedCost, sale, brackets)
    requires i < |sorted| && (remaining <= 0.0 || sorted[i].quantity <= 0.0)
    ensures Progress(sorted, i + 1, fills, remaining, matched, totalQty, weightedCost, sale, brackets)
  {
    if remaining > 0.0 {
      ConsumeAt(sorted, i, remaining);
    }
  }

  lemma ProgressDone(
    sorted: seq<BuyLot>, i: nat, fills: seq<Fill>, remaining: real, matched: seq<MatchedLot>,
    totalQty: real, weightedCost: real, sale: Sale, brackets: seq<TaxBracket>)
    requires sale.quantity > 0.0
    requires Progress(sorted, i, fills, remaining, matched, totalQty, weightedCost, sale, brackets)
    requires i == |sorted| || remaining <= 0.0
    ensures MatchInOrder(sorted, sale, brackets)
         == if remaining > 0.0 then Failure(InsufficientLots(remaining))
            else Success(CgtResult(
              matched, HalfUp2(SumBy(matched, MatchedGain)), HalfUp2(SumBy(matched, MatchedCgt)),
              AverageCost(weightedCost, totalQty)))
  {
    assert Consume(sorted[i..], remaining) == [];
    assert Consume(sorted, sale.quantity) == fills;
  }

  /** One lot's worth of the loop body: bracket lookup, rounding and the matched-lot record. */
  method MatchLot(lot: BuyLot, take: real, sale: Sale, brackets: seq<TaxBracket>)
    returns (r: Result<MatchedLot, TaxError>)
    ensures var f := Fill(lot, take);
      r == if Taxable(f, sale, brackets) then Success(MatchedOf(f, sale, brackets)) else Failure(NoApplicableTaxRule)
  {
    var holdingDays := sale.date - lot.buyDate;
    var grossGain := Gain(lot.pricePerShare, sale.price, take);
    var cgt, rate := 0.0, 0.0;
    if grossGain > 0.0 {
      var bracket := FindBracket(brackets, sale.date, sale.isFiler, holdingDays);
      if bracket.Failure? {
        return Failure(bracket.error);
      }
      cgt := TaxPaisa(grossGain, bracket.value.ratePct) as real / 100.0;
      rate := bracket.value.ratePct;
    }
    r := Success(MatchedLot(
      lot.transactionId, lot.buyDate, sale.date, take, lot.pricePerShare, sale.price, holdingDays,
      HalfUp2(grossGain), rate, cgt));
  }

  method MatchFifo(lots: seq<BuyLot>, sale: Sale, brackets: seq<TaxBracket>)
    returns (r: Result<CgtResult, TaxError>)
    ensures r == FifoOutcome(lots, sale, brackets)
  {
    if sale.quantity <= 0.0 {
      return Failure(InvalidQuantity);
    }
    var sorted := Sort(lots, OlderOrSame);
    var remaining := sale.quantity;
    var matched: seq<MatchedLot> := [];
    var totalQty, weightedCost := 0.0, 0.0;
    ghost var fills: seq<Fill> := [];
    assert sorted[0..] == sorted;
    var i := 0;
    while i < |sorted| && remaining > 0.0
      invariant Progress(sorted, i, fills, remaining, matched, totalQty, weightedCost, sale, brackets)
    {
      var lot := sorted[i];
      if lot.quantity <= 0.0 {
        ProgressSkip(sorted, i, fills, remaining, matched, totalQty, weightedCost, sale, brackets);
      } else {
        var take := Min(lot.quantity, remaining);
        ProgressUse(sorted, i, fills, remaining, matched, totalQty, weightedCost, sale, brackets);
        var m := MatchLot(lot, take, sale, brackets);
        if m.Failure? {
          return Failure(m.error);
        }
        matched := matched + [m.value];
        fills := fills + [Fill(lot, take)];
        weightedCost := weightedCost + Value(lot.pricePerShare, take);
        totalQty := totalQty + take;
        remaining := remaining - take;
      }
      i := i + 1;
    }
    ProgressDone(sorted, i, fills, remaining, matched, totalQty, weightedCost, sale, brackets);
    if remaining > 0.0 {
      return Failure(InsufficientLots(remaining));
    }
    var totalGross := SumBy(matched, MatchedGain);
    var totalCgt := SumBy(matched, MatchedCgt);
    r := Success(CgtResult(
      matched, HalfUp2(totalGross), HalfUp2(totalCgt), AverageCost(weightedCost, totalQty)));
  }
}
