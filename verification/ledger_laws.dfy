/**
  The three forms of the open-lots computation compared: when they agree, what each conserves, and
  exactly how the two shortcuts go wrong when a history is not covered or a bracket is missing.
*/
module LedgerLaws {
  import opened Rounding
  import opened Sorting
  import opened Sums
  import opened Lots
  import opened Cgt
  import opened Ledger

  // ---- Covered histories -------------------------------------------------------------------------

  /** Shares bought less shares sold, as the rows state them. */
  function Net(h: seq<Transaction>): real { Shares(Bought(h)) - Sold(h) }

  /** No sell ever exceeds what was bought before it. */
  predicate Covered(h: seq<Transaction>) {
    h == [] || (Covered(h[..|h| - 1]) && Net(h) >= 0.0)
  }

  /** `Covered` says what it should: at no point have more shares been sold than bought. */
  lemma {:induction false} CoveredAtEveryPoint(h: seq<Transaction>)
    ensures Covered(h) <==> forall k :: 0 <= k <= |h| ==> Net(h[..k]) >= 0.0
  {
    if h == [] {
      assert Net([]) == 0.0;
    } else {
      var before := h[..|h| - 1];
      CoveredAtEveryPoint(before);
      assert h[..|h|] == h;
      assert forall k :: 0 <= k <= |before| ==> before[..k] == h[..k];
    }
  }

  /** The least net position ever reached, counting the empty start. */
  function Lowest(h: seq<Transaction>): real {
    if h == [] then 0.0 else Min(Lowest(h[..|h| - 1]), Net(h))
  }

  lemma {:induction false} BoughtNonNegative(h: seq<Transaction>)
    requires RowsAllowed(h)
    ensures NonNegative(Bought(h))
  {
    if h != [] {
      var before, t := h[..|h| - 1], h[|h| - 1];
      assert h == before + [t];
      BoughtNonNegative(before);
      BoughtSnoc(before, t);
    }
  }

  lemma NetSnoc(h: seq<Transaction>, t: Transaction)
    ensures Net(h + [t])
         == Net(h) + (if IsAcquisition(t) then t.quantity else if IsSell(t) then -t.quantity else 0.0)
  {
    BoughtSnoc(h, t);
    SumFilterSnoc(h, t, IsSell, TxnShares);
    if IsAcquisition(t) {
      SumSnoc(Bought(h), LotOf(t), LotShares);
    } else {
      assert Bought(h) + [] == Bought(h);
    }
  }

  lemma {:induction false} LowestIsLeast(h: seq<Transaction>)
    ensures forall k :: 0 <= k <= |h| ==> Lowest(h) <= Net(h[..k])
    ensures exists k :: 0 <= k <= |h| && Lowest(h) == Net(h[..k])
    ensures Lowest(h) <= 0.0
  {
    if h == [] {
      assert h[..0] == [];
      assert Net(h[..0]) == 0.0;
    } else {
      var before := h[..|h| - 1];
      LowestIsLeast(before);
      forall k | 0 <= k <= |h|
        ensures Lowest(h) <= Net(h[..k])
      {
        if k < |h| {
          assert h[..k] == before[..k];
        } else {
          assert h[..k] == h;
        }
      }
      if Lowest(h) == Net(h) {
        assert h[..|h|] == h;
      } else {
        var k :| 0 <= k <= |before| && Lowest(before) == Net(before[..k]);
        assert h[..k] == before[..k];
      }
    }
  }

  // ---- What the replay does ----------------------------------------------------------------------

  /** Shares the replay has really taken: what was sold, less what it dropped for want of lots. */
  function Used(h: seq<Transaction>): real { Sold(h) + Lowest(h) }

  lemma UsedSnoc(h: seq<Transaction>, t: Transaction)
    requires t.quantity > 0.0
    ensures Used(h + [t]) == if IsSell(t) then Min(Shares(Bought(h)), Used(h) + t.quantity) else Used(h)
  {
    assert (h + [t])[..|h + [t]| - 1] == h;
    NetSnoc(h, t);
    SumFilterSnoc(h, t, IsSell, TxnShares);
    LowestIsLeast(h);
    assert h[..|h|] == h;
  }

  /** At every point the replay has taken its shares from the front of everything bought so far. */
  lemma {:induction false} ReplayIsOneDeduction(h: seq<Transaction>)
    requires RowsAllowed(h)
    ensures Held(h) == Deduct(Bought(h), Used(h))
    ensures 0.0 <= Used(h) <= Shares(Bought(h))
  {
    if h != [] {
      var before, t := h[..|h| - 1], h[|h| - 1];
      assert h == before + [t];
      ReplayIsOneDeduction(before);
      ReplayStep(before, t);
    }
  }

  lemma ReplayStep(h: seq<Transaction>, t: Transaction)
    requires RowsAllowed(h) && RowAllowed(t)
    requires Held(h) == Deduct(Bought(h), Used(h)) && 0.0 <= Used(h) <= Shares(Bought(h))
    ensures Held(h + [t]) == Deduct(Bought(h + [t]), Used(h + [t]))
    ensures 0.0 <= Used(h + [t]) <= Shares(Bought(h + [t]))
  {
    BoughtNonNegative(h);
    HeldSnoc(h, t);
    BoughtSnoc(h, t);
    UsedSnoc(h, t);
    UseGrows(Bought(h), Used(h), t, Bought(h + [t]), Used(h + [t]));
  }

  /** The same step on lots alone. */
  lemma UseGrows(lots: seq<BuyLot>, used: real, t: Transaction, lots': seq<BuyLot>, used': real)
    requires NonNegative(lots) && 0.0 <= used <= Shares(lots) && t.quantity > 0.0
    requires lots' == lots + if IsAcquisition(t) then [LotOf(t)] else []
    requires used' == if IsSell(t) then Min(Shares(lots), used + t.quantity) else used
    ensures 0.0 <= used' <= Shares(lots')
    ensures Deduct(lots', used')
         == if IsAcquisition(t) then Deduct(lots, used) + [LotOf(t)]
            else if IsSell(t) then Deduct(Deduct(lots, used), t.quantity)
            else Deduct(lots, used)
  {
    if IsAcquisition(t) {
      DeductAppend(lots, [LotOf(t)], used);
      SumSnoc(lots, LotOf(t), LotShares);
    } else {
      assert lots' == lots;
      if IsSell(t) {
        DeductTwice(lots, used, t.quantity);
        if used + t.quantity >= Shares(lots) {
          DeductEverything(lots, used + t.quantity);
        }
      }
    }
  }

  /** The position the replay ends with: the net position measured from its lowest point. */
  lemma ReplayPosition(h: seq<Transaction>)
    requires RowsAllowed(h)
    ensures Shares(Open(Held(h))) == Net(h) - Lowest(h)
  {
    ReplayIsOneDeduction(h);
    BoughtNonNegative(h);
    DeductConserves(Bought(h), Used(h));
    OpenKeepsShares(Held(h));
  }

  lemma BulkPosition(h: seq<Transaction>)
    requires RowsAllowed(h)
    ensures Shares(BulkOpen(h)) == Max(0.0, Net(h))
  {
    SoldNonNegative(h);
    BoughtNonNegative(h);
    DeductConserves(Bought(h), Sold(h));
    OpenKeepsShares(Deduct(Bought(h), Sold(h)));
  }

  lemma SoldNonNegative(h: seq<Transaction>)
    requires RowsAllowed(h)
    ensures Sold(h) >= 0.0
  {
    FilterMembers(h, IsSell);
    SumNonNegative(Filter(h, IsSell), TxnShares);
  }

  // ---- Replay against bulk deduction -------------------------------------------------------------

  /** The history never dips below where it ends; a covered history never does. */
  ghost predicate NeverDipsBelowItsEnd(h: seq<Transaction>) {
    forall k :: 0 <= k <= |h| ==> Net(h[..k]) >= Min(0.0, Net(h))
  }

  /**
    Deducting the total of the sells leaves the replay's open lots exactly when the history never dips
    below where it ends; otherwise the replay, which drops what a sell could not find, ends with more.
  */
  lemma BulkAgreesWithReplayExactly(h: seq<Transaction>)
    requires RowsAllowed(h)
    ensures Slots(BulkOpen(h)) == Slots(Open(Held(h))) <==> NeverDipsBelowItsEnd(h)
    ensures NeverDipsBelowItsEnd(h) ==> BulkOpen(h) == Open(Held(h))
    ensures !NeverDipsBelowItsEnd(h) ==> Shares(Open(Held(h))) > Shares(BulkOpen(h))
  {
    ReplayPosition(h);
    BulkPosition(h);
    LowestIsLeast(h);
    assert h[..|h|] == h;
    ReplayIsOneDeduction(h);
    BoughtNonNegative(h);
    if NeverDipsBelowItsEnd(h) {
      assert Lowest(h) == Min(0.0, Net(h));
      if Net(h) < 0.0 {
        DeductEverything(Bought(h), Sold(h));
      }
    } else {
      SlotsKeepShares(BulkOpen(h));
      SlotsKeepShares(Open(Held(h)));
    }
  }

  function SlotShares(s: Slot): real { s.quantity }

  lemma {:induction false} SlotsKeepShares(lots: seq<BuyLot>)
    ensures SumBy(Slots(lots), SlotShares) == Shares(lots)
  {
    if lots != [] {
      SlotsKeepShares(lots[1..]);
    }
  }

  lemma CoveredAgrees(h: seq<Transaction>)
    requires RowsAllowed(h) && Covered(h)
    ensures Lowest(h) == 0.0 && Used(h) == Sold(h)
    ensures Held(h) == Deduct(Bought(h), Sold(h))
    ensures BulkOpen(h) == Open(Held(h))
  {
    LowestIsLeast(h);
    CoveredAtEveryPoint(h);
    ReplayIsOneDeduction(h);
  }

  lemma CoveredNeverDips(h: seq<Transaction>)
    requires Covered(h)
    ensures NeverDipsBelowItsEnd(h)
  {
    CoveredAtEveryPoint(h);
  }

  /** A shortage that is later made up by a purchase is where the two part. */
  lemma UncoveredSellIsForgiven()
    ensures exists h :: RowsAllowed(h) && BulkOpen(h) == [] && Shares(Open(Held(h))) == 5.0
  {
    var sell := Transaction(1, "OGDC", Sell, 10, 5.0, 100.0, 0.0, 0.0, 0.0, 0.0);
    var buy := Transaction(2, "OGDC", Buy, 11, 5.0, 100.0, 0.0, 0.0, 0.0, 0.0);
    var h := ([] + [sell]) + [buy];
    NetSnoc([], sell);
    NetSnoc([sell], buy);
    assert [] + [sell] == [sell];
    assert [sell][..0] == [] && h[..1] == [sell];
    assert Net([]) == 0.0;
    assert Lowest([sell]) == -5.0;
    ReplayPosition(h);
    BulkPosition(h);
    var lots := BulkOpen(h);
    SoldNonNegative(h);
    BoughtNonNegative(h);
    assert Net(h) == 0.0;
    DeductEverything(Bought(h), Sold(h));
  }

  // ---- Conservation ------------------------------------------------------------------------------

  lemma {:induction false} GainIsProceedsLessCost(fills: seq<Fill>, price: real)
    ensures ExactGain(fills, price) == Value(price, SumBy(fills, FillShares)) - SumBy(fills, FillCost)
  {
    if fills != [] {
      GainIsProceedsLessCost(fills[1..], price);
      GainOfOne(fills[0], price, SumBy(fills[1..], FillShares));
    }
  }

  lemma GainOfOne(f: Fill, price: real, rest: real)
    ensures Gain(f.lot.pricePerShare, price, f.take) + Value(price, rest)
         == Value(price, f.take + rest) - FillCost(f)
  {
  }

  /** Proceeds of the shares the replay could match. */
  function MatchedProceeds(h: seq<Transaction>): real {
    if h == [] then 0.0
    else MatchedProceeds(h[..|h| - 1]) + Value(h[|h| - 1].price, SumBy(LastFills(h), FillShares))
  }

  function Proceeds(h: seq<Transaction>): real { SumBy(Filter(h, IsSell), TxnValue) }

  /** Realised profit plus everything invested is the proceeds plus the cost of what is still held. */
  lemma {:induction false} ReplayConserves(h: seq<Transaction>)
    requires RowsAllowed(h)
    ensures Realized(h) + Invested(h) == MatchedProceeds(h) + Cost(Open(Held(h)))
  {
    HeldNonNegative(h);
    OpenKeepsShares(Held(h));
    if h != [] {
      var before, t := h[..|h| - 1], h[|h| - 1];
      assert h == before + [t];
      ReplayConserves(before);
      HeldNonNegative(before);
      OpenKeepsShares(Held(before));
      HeldSnoc(before, t);
      SumFilterSnoc(before, t, IsAcquisition, TxnValue);
      if IsAcquisition(t) {
        SumSnoc(Held(before), LotOf(t), LotCost);
        assert Value(t.price, 0.0) == 0.0;
      } else if IsSell(t) {
        DeductConservesCost(Held(before), t.quantity);
        GainIsProceedsLessCost(Consume(Held(before), t.quantity), t.price);
      } else {
        assert Value(t.price, 0.0) == 0.0;
      }
    }
  }

  lemma {:induction false} CoveredProceeds(h: seq<Transaction>)
    requires RowsAllowed(h) && Covered(h)
    ensures MatchedProceeds(h) == Proceeds(h)
  {
    if h != [] {
      var before, t := h[..|h| - 1], h[|h| - 1];
      assert h == before + [t];
      CoveredProceeds(before);
      SumFilterSnoc(before, t, IsSell, TxnValue);
      if IsSell(t) {
        CoveredSellIsFilled(before, t);
      } else {
        assert Value(t.price, 0.0) == 0.0;
      }
    }
  }

  lemma CoveredBefore(before: seq<Transaction>, t: Transaction)
    requires Covered(before + [t]) && RowsAllowed(before + [t])
    ensures Covered(before) && Net(before + [t]) >= 0.0 && RowsAllowed(before) && RowAllowed(t)
  {
    var h := before + [t];
    assert h[..|h| - 1] == before && h[|before|] == t;
    forall k | 0 <= k < |before|
      ensures RowAllowed(before[k])
    {
      assert before[k] == h[k];
    }
  }

  lemma CoveredSellIsFilled(before: seq<Transaction>, t: Transaction)
    requires RowsAllowed(before + [t]) && Covered(before + [t]) && IsSell(t)
    ensures t.quantity <= Shares(Held(before))
    ensures SumBy(Consume(Held(before), t.quantity), FillShares) == t.quantity
  {
    CoveredBefore(before, t);
    CoveredAgrees(before);
    ReplayPosition(before);
    HeldNonNegative(before);
    OpenKeepsShares(Held(before));
    NetSnoc(before, t);
    ConsumeTotal(Held(before), t.quantity);
  }

  /** On a covered history: realised + invested = all sell proceeds + cost of the open lots. */
  lemma CoveredConservation(h: seq<Transaction>)
    requires RowsAllowed(h) && Covered(h)
    ensures Realized(h) + Invested(h) == Proceeds(h) + Cost(Open(Held(h)))
  {
    ReplayConserves(h);
    CoveredProceeds(h);
  }
}
