/**
  What a corporate event does to a shareholder: the restated price of a holding before new shares came is
  its value spread over all of them, and that before a dividend is the price less the dividend.
*/
module EventLaws {
  import opened Wrappers
  import opened Rounding
  import opened Sorting
  import opened Adjustments
  import opened AdjustmentLaws

  // ---- One event ---------------------------------------------------------------------------------

  /** N new shares for each M held, both known. */
  predicate GivesShares(e: CorporateEvent) {
    && (e.action == Split || e.action == Bonus || e.action == Rights)
    && e.ratioNumerator.Some? && e.ratioDenominator.Some?
    && e.ratioNumerator.value != 0 && e.ratioDenominator.value > 0
  }

  function HeldBefore(e: CorporateEvent): real
    requires GivesShares(e)
  {
    e.ratioDenominator.value as real
  }

  function HeldAfter(e: CorporateEvent): real
    requires GivesShares(e)
  {
    (e.ratioDenominator.value + e.ratioNumerator.value) as real
  }

  predicate CancelsAllShares(e: CorporateEvent) { GivesShares(e) && HeldAfter(e) == 0.0 }

  /** A price restated for an event after it. */
  function Restated(e: CorporateEvent, price: real): real {
    if GivesShares(e) then if HeldAfter(e) == 0.0 then price else price * (HeldBefore(e) / HeldAfter(e))
    else if e.action == DividendCash && e.amountPerShare.Some? then price - e.amountPerShare.value
    else price
  }

  /** The holding is worth the same before and after: M shares at the old price, M + N at the restated one. */
  lemma HoldingKeepsItsValue(e: CorporateEvent, price: real)
    requires GivesShares(e) && !CancelsAllShares(e)
    ensures EventToAdjustment(e).Success?
    ensures Times(Apply(EventToAdjustment(e).value, price), HeldAfter(e)) == Times(price, HeldBefore(e))
    ensures Times(Restated(e, price), HeldAfter(e)) == Times(price, HeldBefore(e))
  {
    var before, after := HeldBefore(e), HeldAfter(e);
    var factor := before / after;
    assert factor * after == before;
    assert price * factor * after == price * (factor * after);
    assert Apply(Affine(factor, 0.0), price) == price * factor;
  }

  /** Exactly the events that take all shares away cannot be converted; the others restate every price. */
  lemma EventRestates(e: CorporateEvent, price: real)
    ensures EventToAdjustment(e).Failure? <==> CancelsAllShares(e)
    ensures EventToAdjustment(e).Success? ==> Apply(EventToAdjustment(e).value, price) == Restated(e, price)
  {
  }

  // ---- Many events -------------------------------------------------------------------------------

  /** A price restated for the later ones of a list of events, in the order of the list. */
  function RestatedBy(events: seq<CorporateEvent>, date: int, price: real): real {
    if events == [] then price
    else RestatedBy(events[1..], date, if events[0].exDate > date then Restated(events[0], price) else price)
  }

  ghost predicate Converts(events: seq<CorporateEvent>, adjs: seq<Adjustment>) {
    && |events| == |adjs|
    && forall k :: 0 <= k < |events| ==>
         adjs[k].exDate == events[k].exDate && EventToAdjustment(events[k]) == Success(adjs[k].change)
  }

  lemma {:induction false} ConvertedConverts(events: seq<CorporateEvent>)
    requires Converted(events).Success?
    ensures Converts(events, Converted(events).value)
  {
    if events != [] {
      ConvertedConverts(events[..|events| - 1]);
    }
  }

  lemma {:induction false} FoldRestates(events: seq<CorporateEvent>, adjs: seq<Adjustment>, date: int, price: real)
    requires Converts(events, adjs)
    ensures Fold(After(adjs, date), price) == RestatedBy(events, date, price)
  {
    if events != [] {
      var rest := adjs[1..];
      if events[0].exDate > date {
        EventRestates(events[0], price);
        FoldRestates(events[1..], rest, date, Restated(events[0], price));
        assert ([adjs[0]] + After(rest, date))[1..] == After(rest, date);
      } else {
        FoldRestates(events[1..], rest, date, price);
      }
    }
  }

  /**
    The report: every close restated for the events after its date, newest first, no lower than 0.01, to the
    nearest unit of the fourth place.
  */
  lemma ReportIsRestated(prices: seq<PriceRow>, events: seq<CorporateEvent>, k: nat)
    requires AdjustOutcome(prices, events).Success? && k < |prices|
    ensures var row, out := Sort(prices, RowsByDate)[k], AdjustOutcome(prices, events).value;
      var exact := RestatedBy(Sort(events, NewestFirst), row.date, row.close);
      && |out| == |prices| && out[k].date == row.date && out[k].close == row.close && out[k].adjustedClose.Some?
      && IsNearest(10000.0, out[k].adjustedClose.value, if exact > 0.01 then exact else 0.01)
  {
    var sorted, rows := Sort(events, NewestFirst), Sort(prices, RowsByDate);
    AdjustedRowsAt(Converted(sorted).value, rows, k);
    ConvertedConverts(sorted);
    FoldRestates(sorted, Converted(sorted).value, rows[k].date, rows[k].close);
    HalfUpIsNearest(Max(RestatedBy(sorted, rows[k].date, rows[k].close), 0.01));
  }

  lemma AdjustedKeepOrder(adjs: seq<Adjustment>, rows: seq<PriceRow>)
    requires rows != [] && Sorted(rows, RowsByDate)
    ensures Sorted(AdjustedRows(adjs, rows), RowsByDate)
  {
    AdjustedRowsAt(adjs, rows, 0);
    forall i, j | 0 <= i < j < |rows|
      ensures RowsByDate(AdjustedRows(adjs, rows)[i], AdjustedRows(adjs, rows)[j])
    {
      AdjustedRowsAt(adjs, rows, i);
      AdjustedRowsAt(adjs, rows, j);
      assert RowsByDate(rows[i], rows[j]);
    }
  }

  /** Rows come out oldest first, and nothing comes out exactly when some event cancels all shares. */
  lemma ReportFailsExactly(prices: seq<PriceRow>, events: seq<CorporateEvent>)
    ensures AdjustOutcome(prices, events).Failure?
       <==> prices != [] && exists e :: e in events && CancelsAllShares(e)
    ensures prices != [] && AdjustOutcome(prices, events).Success? ==>
              Sorted(AdjustOutcome(prices, events).value, RowsByDate)
  {
    ConvertibleExactly(Sort(events, NewestFirst));
    SortMembers(events, NewestFirst);
    forall e
      ensures EventToAdjustment(e).Failure? <==> CancelsAllShares(e)
    {
      EventRestates(e, 0.0);
    }
    if AdjustOutcome(prices, events).Success? && prices != [] {
      SortSorts(prices, RowsByDate);
      AdjustedKeepOrder(Converted(Sort(events, NewestFirst)).value, Sort(prices, RowsByDate));
    }
  }

  /** One row and one event after it. */
  lemma OneEventIsReported(row: PriceRow, e: CorporateEvent)
    requires e.exDate > row.date && !CancelsAllShares(e)
    ensures var out := AdjustOutcome([row], [e]);
      && out.Success? && |out.value| == 1 && out.value[0].adjustedClose.Some?
      && var exact := Restated(e, row.close);
         IsNearest(10000.0, out.value[0].adjustedClose.value, if exact > 0.01 then exact else 0.01)
  {
    EventRestates(e, row.close);
    assert [row][1..] == [] && [e][1..] == [] && [e][..0] == [];
    assert Sort([row], RowsByDate) == [row] && Sort([e], NewestFirst) == [e];
    assert Converted([e][..0]) == Success([]);
    assert Converted([e]).Success?;
    ReportIsRestated([row], [e], 0);
    assert RestatedBy([e], row.date, row.close) == RestatedBy([], row.date, Restated(e, row.close));
  }

  // ---- A holding through many events -------------------------------------------------------------

  predicate AllGiveShares(events: seq<CorporateEvent>) {
    forall k :: 0 <= k < |events| ==> GivesShares(events[k]) && !CancelsAllShares(events[k])
  }

  /** What one share before all later events has become, as a fraction: shares after over shares before. */
  function SharesBefore(events: seq<CorporateEvent>, date: int): real
    requires AllGiveShares(events)
  {
    if events == [] then 1.0
    else
      var rest := SharesBefore(events[1..], date);
      if events[0].exDate > date then Times(HeldBefore(events[0]), rest) else rest
  }

  function SharesAfter(events: seq<CorporateEvent>, date: int): real
    requires AllGiveShares(events)
  {
    if events == [] then 1.0
    else
      var rest := SharesAfter(events[1..], date);
      if events[0].exDate > date then Times(HeldAfter(events[0]), rest) else rest
  }

  lemma Regroup(restated: real, after: real, before: real, price: real, restAfter: real, restBefore: real, value: real)
    requires Times(restated, after) == Times(price, before) && Times(value, restAfter) == Times(restated, restBefore)
    ensures Times(value, Times(after, restAfter)) == Times(price, Times(before, restBefore))
  {
    assert value * (after * restAfter) == after * (value * restAfter);
    assert after * (restated * restBefore) == restated * after * restBefore;
    assert price * before * restBefore == price * (before * restBefore);
  }

  /** Through any number of splits, bonuses and rights issues a holding keeps its value. */
  lemma {:induction false} HoldingKeepsItsValueThroughout(events: seq<CorporateEvent>, date: int, price: real)
    requires AllGiveShares(events)
    ensures Times(RestatedBy(events, date, price), SharesAfter(events, date))
         == Times(price, SharesBefore(events, date))
  {
    if events != [] {
      var e, rest := events[0], events[1..];
      if e.exDate > date {
        var restated := Restated(e, price);
        HoldingKeepsItsValue(e, price);
        HoldingKeepsItsValueThroughout(rest, date, restated);
        Regroup(restated, HeldAfter(e), HeldBefore(e), price, SharesAfter(rest, date), SharesBefore(rest, date),
                RestatedBy(rest, date, restated));
      } else {
        HoldingKeepsItsValueThroughout(rest, date, price);
      }
    }
  }
}
