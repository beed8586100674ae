/**
  Buy lots and the two ways the repository uses them up: `Consume` lists what one sale takes from each
  lot, oldest first; `Deduct` is the loop `take = min(...); open_qty -= take; remaining -= take`.
*/
module Lots {
  import opened Rounding
  import opened Sorting
  import opened Sums

  datatype BuyLot = BuyLot(transactionId: int, buyDate: int, quantity: real, pricePerShare: real)

  /** The part of a lot that a sale uses up. */
  datatype Fill = Fill(lot: BuyLot, take: real)

  function Value(price: real, quantity: real): real { price * quantity }

  function LotShares(lot: BuyLot): real { lot.quantity }
  function LotCost(lot: BuyLot): real { Value(lot.pricePerShare, lot.quantity) }
  function FillShares(f: Fill): real { f.take }
  function FillCost(f: Fill): real { Value(f.lot.pricePerShare, f.take) }

  function Shares(lots: seq<BuyLot>): real { SumBy(lots, LotShares) }
  function Cost(lots: seq<BuyLot>): real { SumBy(lots, LotCost) }

  predicate IsOpen(lot: BuyLot) { lot.quantity > 0.0 }
  function Open(lots: seq<BuyLot>): seq<BuyLot> { Filter(lots, IsOpen) }

  predicate NonNegative(lots: seq<BuyLot>) { forall k :: 0 <= k < |lots| ==> lots[k].quantity >= 0.0 }

  /** FIFO order: purchase date first, transaction id second. */
  predicate OlderOrSame(a: BuyLot, b: BuyLot) {
    a.buyDate < b.buyDate || (a.buyDate == b.buyDate && a.transactionId <= b.transactionId)
  }

  function Consume(lots: seq<BuyLot>, q: real): seq<Fill> {
    if lots == [] || q <= 0.0 then []
    else if lots[0].quantity <= 0.0 then Consume(lots[1..], q)
    else
      var take := Min(lots[0].quantity, q);
      [Fill(lots[0], take)] + Consume(lots[1..], q - take)
  }

  function Deduct(lots: seq<BuyLot>, q: real): (r: seq<BuyLot>)
    ensures |r| == |lots|
  {
    if lots == [] || q <= 0.0 then lots
    else
      var take := Min(lots[0].quantity, q);
      [lots[0].(quantity := lots[0].quantity - take)] + Deduct(lots[1..], q - take)
  }

  lemma {:induction false} SharesNonNegative(lots: seq<BuyLot>)
    requires NonNegative(lots)
    ensures Shares(lots) >= 0.0
  {
    SumNonNegative(lots, LotShares);
  }

  lemma OpenSplits(lots: seq<BuyLot>)
    requires lots != []
    ensures Open(lots) == (if lots[0].quantity > 0.0 then [lots[0]] else []) + Open(lots[1..])
  {
  }

  lemma ConsumeSplits(lots: seq<BuyLot>, q: real)
    requires lots != [] && q > 0.0 && lots[0].quantity > 0.0
    ensures var take := Min(lots[0].quantity, q);
      Consume(lots, q) == [Fill(lots[0], take)] + Consume(lots[1..], q - take)
  {
  }

  lemma {:induction false} OpenSharesNonNegative(lots: seq<BuyLot>)
    ensures Shares(Open(lots)) >= 0.0
  {
    FilterMembers(lots, IsOpen);
    SumNonNegative(Open(lots), LotShares);
  }

  // ---- What a sale takes -------------------------------------------------------------------------

  /** A sale takes `q` shares, or everything when the open lots hold less. */
  lemma {:induction false} ConsumeTotal(lots: seq<BuyLot>, q: real)
    requires q >= 0.0
    ensures SumBy(Consume(lots, q), FillShares) == Min(q, Shares(Open(lots)))
  {
    OpenSharesNonNegative(lots);
    if lots != [] && q > 0.0 {
      OpenSplits(lots);
      OpenSharesNonNegative(lots[1..]);
      if lots[0].quantity > 0.0 {
        var take := Min(lots[0].quantity, q);
        ConsumeSplits(lots, q);
        ConsumeTotal(lots[1..], q - take);
        SumCons(lots[0], Open(lots[1..]), LotShares);
        SumCons(Fill(lots[0], take), Consume(lots[1..], q - take), FillShares);
      } else {
        assert Open(lots) == Open(lots[1..]);
        ConsumeTotal(lots[1..], q);
      }
    }
  }

  /** From each lot touched it takes something, and no more than the lot holds. */
  lemma {:induction false} ConsumeTakes(lots: seq<BuyLot>, q: real)
    ensures forall k :: 0 <= k < |Consume(lots, q)| ==>
      0.0 < Consume(lots, q)[k].take <= Consume(lots, q)[k].lot.quantity
  {
    if lots != [] && q > 0.0 {
      if lots[0].quantity > 0.0 {
        ConsumeSplits(lots, q);
        ConsumeTakes(lots[1..], q - Min(lots[0].quantity, q));
      } else {
        ConsumeTakes(lots[1..], q);
      }
    }
  }

  /** Deduction changes quantities only. */
  lemma {:induction false} DeductKeepsTerms(lots: seq<BuyLot>, q: real)
    ensures forall k :: 0 <= k < |lots| ==> Deduct(lots, q)[k] == lots[k].(quantity := Deduct(lots, q)[k].quantity)
  {
    if lots != [] && q > 0.0 {
      DeductSplits(lots, q);
      DeductKeepsTerms(lots[1..], q - Min(lots[0].quantity, q));
    }
  }

  /** It takes them from a prefix of the open lots, using up every lot but the last one touched. */
  lemma {:induction false} ConsumeIsPrefix(lots: seq<BuyLot>, q: real)
    ensures |Consume(lots, q)| <= |Open(lots)|
    ensures forall k :: 0 <= k < |Consume(lots, q)| ==> Consume(lots, q)[k].lot == Open(lots)[k]
    ensures forall k :: 0 <= k < |Consume(lots, q)| - 1 ==>
      Consume(lots, q)[k].take == Consume(lots, q)[k].lot.quantity
  {
    if lots != [] && q > 0.0 {
      OpenSplits(lots);
      if lots[0].quantity > 0.0 {
        var take := Min(lots[0].quantity, q);
        ConsumeSplits(lots, q);
        ConsumeIsPrefix(lots[1..], q - take);
      } else {
        assert Open(lots) == Open(lots[1..]);
        ConsumeIsPrefix(lots[1..], q);
      }
    }
  }

  // ---- What remains ------------------------------------------------------------------------------

  lemma DeductSplits(lots: seq<BuyLot>, q: real)
    requires lots != [] && q > 0.0
    ensures var take := Min(lots[0].quantity, q);
      Deduct(lots, q) == [lots[0].(quantity := lots[0].quantity - take)] + Deduct(lots[1..], q - take)
  {
  }

  lemma {:induction false} DeductConserves(lots: seq<BuyLot>, q: real)
    requires NonNegative(lots) && q >= 0.0
    ensures NonNegative(Deduct(lots, q))
    ensures Shares(Deduct(lots, q)) == Shares(lots) - Min(q, Shares(lots))
  {
    SharesNonNegative(lots);
    if lots != [] && q > 0.0 {
      var take := Min(lots[0].quantity, q);
      DeductConserves(lots[1..], q - take);
      SharesNonNegative(lots[1..]);
      DeductSplits(lots, q);
      SumCons(lots[0].(quantity := lots[0].quantity - take), Deduct(lots[1..], q - take), LotShares);
    }
  }

  lemma ValueSplits(price: real, a: real, b: real)
    ensures Value(price, a + b) == Value(price, a) + Value(price, b)
  {
  }

  /** A measure of lots that a partial use splits without loss, such as shares or cost. */
  ghost predicate Splits(lotMeasure: BuyLot -> real, fillMeasure: Fill -> real) {
    && (forall lot: BuyLot, take: real :: lotMeasure(lot.(quantity := lot.quantity - take))
          == lotMeasure(lot) - fillMeasure(Fill(lot, take)))
    && (forall lot: BuyLot :: fillMeasure(Fill(lot, 0.0)) == 0.0)
  }

  lemma FillsSplit(lots: seq<BuyLot>, q: real, fillMeasure: Fill -> real)
    requires lots != [] && q > 0.0 && lots[0].quantity >= 0.0
    requires fillMeasure(Fill(lots[0], 0.0)) == 0.0
    ensures var take := Min(lots[0].quantity, q);
      SumBy(Consume(lots, q), fillMeasure)
      == fillMeasure(Fill(lots[0], take)) + SumBy(Consume(lots[1..], q - take), fillMeasure)
  {
    var take := Min(lots[0].quantity, q);
    if lots[0].quantity > 0.0 {
      ConsumeSplits(lots, q);
      SumCons(Fill(lots[0], take), Consume(lots[1..], q - take), fillMeasure);
    } else {
      assert take == 0.0 && q - take == q;
      assert Consume(lots, q) == Consume(lots[1..], q);
    }
  }

  lemma {:induction false} DeductConservesMeasure(
    lots: seq<BuyLot>, q: real, lotMeasure: BuyLot -> real, fillMeasure: Fill -> real)
    requires NonNegative(lots) && Splits(lotMeasure, fillMeasure)
    ensures SumBy(Deduct(lots, q), lotMeasure) == SumBy(lots, lotMeasure) - SumBy(Consume(lots, q), fillMeasure)
  {
    if lots != [] && q > 0.0 {
      var lot, rest, take := lots[0], lots[1..], Min(lots[0].quantity, q);
      var less := lot.(quantity := lot.quantity - take);
      var left := Deduct(rest, q - take);
      DeductConservesMeasure(rest, q - take, lotMeasure, fillMeasure);
      assert SumBy(Deduct(lots, q), lotMeasure) == lotMeasure(less) + SumBy(left, lotMeasure) by {
        DeductSplits(lots, q);
        SumCons(less, left, lotMeasure);
      }
      FillsSplit(lots, q, fillMeasure);
      assert lotMeasure(less) == lotMeasure(lot) - fillMeasure(Fill(lot, take));
    }
  }

  /** The cost of what is left plus the cost of what was taken is the cost before. */
  lemma DeductConservesCost(lots: seq<BuyLot>, q: real)
    requires NonNegative(lots)
    ensures Cost(Deduct(lots, q)) == Cost(lots) - SumBy(Consume(lots, q), FillCost)
  {
    forall lot: BuyLot, take: real
      ensures LotCost(lot.(quantity := lot.quantity - take)) == LotCost(lot) - FillCost(Fill(lot, take))
    {
      ValueSplits(lot.pricePerShare, lot.quantity - take, take);
    }
    DeductConservesMeasure(lots, q, LotCost, FillCost);
  }

  /** Deducting twice is deducting the sum: the heart of replacing many sells by their total. */
  lemma {:induction false} DeductTwice(lots: seq<BuyLot>, a: real, b: real)
    requires NonNegative(lots) && a >= 0.0 && b >= 0.0
    ensures Deduct(Deduct(lots, a), b) == Deduct(lots, a + b)
  {
    if lots != [] && a > 0.0 && b > 0.0 {
      var lot, rest := lots[0], lots[1..];
      assert lots == [lot] + rest;
      if lot.quantity <= a {
        var left := a - lot.quantity;
        DeductTwice(rest, left, b);
        DeductAfterUsingUp(lot, rest, Deduct(rest, left), Deduct(rest, left + b), a, b, left);
      } else {
        DeductAfterTakingPart(lot, rest, a, b);
      }
    }
  }

  function Emptied(lot: BuyLot): BuyLot { lot.(quantity := 0.0) }

  lemma UsesUp(lot: BuyLot, rest: seq<BuyLot>, q: real, left: real)
    requires q > 0.0 && lot.quantity <= q && left == q - lot.quantity
    ensures Deduct([lot] + rest, q) == [Emptied(lot)] + Deduct(rest, left)
  {
    assert ([lot] + rest)[1..] == rest;
  }

  lemma TakesPart(lot: BuyLot, rest: seq<BuyLot>, q: real)
    requires 0.0 < q <= lot.quantity
    ensures Deduct([lot] + rest, q) == [lot.(quantity := lot.quantity - q)] + rest
  {
    assert ([lot] + rest)[1..] == rest;
  }

  lemma DeductAfterUsingUp(
    lot: BuyLot, rest: seq<BuyLot>, once: seq<BuyLot>, twice: seq<BuyLot>, a: real, b: real, left: real)
    requires 0.0 <= lot.quantity <= a && 0.0 < a && 0.0 < b && left == a - lot.quantity
    requires once == Deduct(rest, left) && twice == Deduct(once, b) && twice == Deduct(rest, left + b)
    ensures Deduct(Deduct([lot] + rest, a), b) == Deduct([lot] + rest, a + b)
  {
    UsesUp(lot, rest, a, left);
    UsesUp(lot, rest, a + b, left + b);
    UsesUp(Emptied(lot), once, b, b);
  }

  lemma DeductAfterTakingPart(lot: BuyLot, rest: seq<BuyLot>, a: real, b: real)
    requires 0.0 < a < lot.quantity && 0.0 < b
    ensures Deduct(Deduct([lot] + rest, a), b) == Deduct([lot] + rest, a + b)
  {
    var left := lot.(quantity := lot.quantity - a);
    TakesPart(lot, rest, a);
    if b <= left.quantity {
      TakesPart(left, rest, b);
      TakesPart(lot, rest, a + b);
    } else {
      UsesUp(left, rest, b, b - left.quantity);
      UsesUp(lot, rest, a + b, b - left.quantity);
    }
  }

  /** Lots bought later are untouched while the earlier ones cover the deduction. */
  lemma {:induction false} DeductAppend(lots: seq<BuyLot>, more: seq<BuyLot>, q: real)
    requires NonNegative(lots) && q <= Shares(lots)
    ensures Deduct(lots + more, q) == Deduct(lots, q) + more
  {
    if lots == [] {
      assert lots + more == more;
    } else if q <= 0.0 {
    } else {
      var take := Min(lots[0].quantity, q);
      assert (lots + more)[1..] == lots[1..] + more;
      SharesNonNegative(lots[1..]);
      DeductAppend(lots[1..], more, q - take);
    }
  }

  /** Once everything is gone, deducting more changes nothing. */
  lemma {:induction false} DeductEverything(lots: seq<BuyLot>, q: real)
    requires NonNegative(lots) && q >= Shares(lots)
    ensures Deduct(lots, q) == Deduct(lots, Shares(lots))
    ensures Open(Deduct(lots, q)) == []
  {
    SharesNonNegative(lots);
    var gone := Deduct(lots, Shares(lots));
    DeductConserves(lots, Shares(lots));
    NothingLeft(gone);
    DeductTwice(lots, Shares(lots), q - Shares(lots));
    DeductNothing(gone, q - Shares(lots));
  }

  lemma {:induction false} NothingLeft(lots: seq<BuyLot>)
    requires NonNegative(lots) && Shares(lots) == 0.0
    ensures forall k :: 0 <= k < |lots| ==> lots[k].quantity == 0.0
    ensures Open(lots) == []
  {
    if lots != [] {
      SharesNonNegative(lots[1..]);
      NothingLeft(lots[1..]);
      OpenSplits(lots);
    }
  }

  lemma {:induction false} DeductNothing(lots: seq<BuyLot>, q: real)
    requires forall k :: 0 <= k < |lots| ==> lots[k].quantity == 0.0
    ensures Deduct(lots, q) == lots
  {
    if lots != [] && q > 0.0 {
      DeductSplits(lots, q);
      DeductNothing(lots[1..], q);
    }
  }

  lemma {:induction false} OpenKeepsShares(lots: seq<BuyLot>)
    requires NonNegative(lots)
    ensures Shares(Open(lots)) == Shares(lots)
    ensures Cost(Open(lots)) == Cost(lots)
  {
    if lots != [] {
      OpenKeepsShares(lots[1..]);
    }
  }

  lemma {:induction false} ConsumeOpen(lots: seq<BuyLot>, q: real)
    ensures Consume(Open(lots), q) == Consume(lots, q)
  {
    if lots != [] {
      if lots[0].quantity > 0.0 {
        assert Open(lots)[1..] == Open(lots[1..]);
        ConsumeOpen(lots[1..], q - Min(lots[0].quantity, q));
      } else {
        ConsumeOpen(lots[1..], q);
      }
    }
  }

  lemma {:induction false} OpenAfterDeduct(lots: seq<BuyLot>, q: real)
    requires NonNegative(lots)
    ensures Open(Deduct(Open(lots), q)) == Open(Deduct(lots, q))
  {
    if lots != [] && q > 0.0 {
      var rest, take := lots[1..], Min(lots[0].quantity, q);
      OpenSplits(lots);
      DeductSplits(lots, q);
      OpenAfterDeduct(rest, q - take);
      OpenSplits(Deduct(lots, q));
      if lots[0].quantity > 0.0 {
        DeductSplits(Open(lots), q);
        OpenSplits(Deduct(Open(lots), q));
      }
    } else {
      OpenTwice(lots);
    }
  }

  lemma {:induction false} OpenTwice(lots: seq<BuyLot>)
    ensures Open(Open(lots)) == Open(lots)
  {
    if lots != [] {
      OpenTwice(lots[1..]);
      OpenSplits(lots);
      if lots[0].quantity > 0.0 {
        OpenSplits(Open(lots));
      }
    }
  }

  /** Only lots of the list are used. */
  lemma {:induction false} ConsumeUsesLots(lots: seq<BuyLot>, q: real)
    ensures forall f :: f in Consume(lots, q) ==> f.lot in lots
  {
    if lots != [] && q > 0.0 {
      if lots[0].quantity > 0.0 {
        ConsumeSplits(lots, q);
        ConsumeUsesLots(lots[1..], q - Min(lots[0].quantity, q));
      } else {
        ConsumeUsesLots(lots[1..], q);
      }
    }
  }

  // ---- Lists of open lots ------------------------------------------------------------------------

  predicate AllOpen(lots: seq<BuyLot>) { forall k :: 0 <= k < |lots| ==> lots[k].quantity > 0.0 }

  lemma {:induction false} OpenOfAllOpen(lots: seq<BuyLot>)
    requires AllOpen(lots)
    ensures Open(lots) == lots
  {
    if lots != [] {
      OpenOfAllOpen(lots[1..]);
      OpenSplits(lots);
    }
  }

  lemma OpenIsAllOpen(lots: seq<BuyLot>)
    ensures AllOpen(Open(lots))
  {
    FilterMembers(lots, IsOpen);
    forall k | 0 <= k < |Open(lots)|
      ensures Open(lots)[k].quantity > 0.0
    {
      assert Open(lots)[k] in Open(lots);
    }
  }

  lemma {:induction false} ConsumeEverything(lots: seq<BuyLot>)
    requires AllOpen(lots)
    ensures |Consume(lots, Shares(lots))| == |lots|
    ensures forall k :: 0 <= k < |lots| ==> Consume(lots, Shares(lots))[k] == Fill(lots[k], lots[k].quantity)
  {
    if lots != [] {
      SharesNonNegative(lots[1..]);
      ConsumeSplits(lots, Shares(lots));
      ConsumeEverything(lots[1..]);
    }
  }
}
