/**
  Backward price adjustment, psx_ingest/adjustments.py: one pass over the prices, newest first, with a
  pointer into the events and a cumulative affine map, against the quadratic algorithm of its docstring.
*/
module Adjustments {
  import opened Wrappers
  import opened Rounding
  import opened Sorting

  datatype Action = Split | Bonus | Rights | DividendCash | DividendStock | Agm

  datatype CorporateEvent = CorporateEvent(
    exDate: int, action: Action, amountPerShare: Option<real>, ratioNumerator: Option<int>,
    ratioDenominator: Option<int>)

  datatype PriceRow = PriceRow(date: int, close: real, adjustedClose: Option<real>)

  /** P becomes P * mult - addend. */
  datatype Affine = Affine(mult: real, addend: real)

  const IDENTITY := Affine(1.0, 0.0)

  function Apply(f: Affine, price: real): real { price * f.mult - f.addend }

  datatype Adjustment = Adjustment(exDate: int, change: Affine)

  datatype AdjustError = DivisionByZero

  predicate IsRatioAction(a: Action) { a == Split || a == Bonus || a == Rights }

  /** A usable ratio: both parts present and non-zero, the denominator positive. */
  predicate HasRatio(e: CorporateEvent) {
    && e.ratioNumerator.Some? && e.ratioDenominator.Some?
    && e.ratioNumerator.value != 0 && e.ratioDenominator.value > 0
  }

  /** M / (M + N) for N new shares per M held; a numerator of -M divides by zero. */
  function EventToAdjustment(e: CorporateEvent): Result<Affine, AdjustError> {
    if IsRatioAction(e.action) then
      if HasRatio(e) then
        var num, den := e.ratioNumerator.value, e.ratioDenominator.value;
        if den + num == 0 then Failure(DivisionByZero)
        else Success(Affine(den as real / (den + num) as real, 0.0))
      else
        Success(IDENTITY)
    else if e.action == DividendCash then
      Success(Affine(1.0, if e.amountPerShare.Some? then e.amountPerShare.value else 0.0))
    else
      Success(IDENTITY)
  }

  // ---- Orders ------------------------------------------------------------------------------------

  predicate NewestFirst(a: CorporateEvent, b: CorporateEvent) { a.exDate >= b.exDate }
  predicate RowsByDate(a: PriceRow, b: PriceRow) { a.date <= b.date }

  function Converted(events: seq<CorporateEvent>): Result<seq<Adjustment>, AdjustError> {
    if events == [] then Success([])
    else
      var n := |events| - 1;
      var earlier :- Converted(events[..n]);
      var change :- EventToAdjustment(events[n]);
      Success(earlier + [Adjustment(events[n].exDate, change)])
  }

  // ---- The meaning: one row at a time ------------------------------------------------------------

  /** The adjustments that come after a date, in the order given. */
  function After(adjs: seq<Adjustment>, date: int): seq<Adjustment> {
    if adjs == [] then []
    else if adjs[0].exDate > date then [adjs[0]] + After(adjs[1..], date)
    else After(adjs[1..], date)
  }

  /** A price carried through a list of adjustments, one after the other. */
  function Fold(adjs: seq<Adjustment>, price: real): real {
    if adjs == [] then price else Fold(adjs[1..], Apply(adjs[0].change, price))
  }

  function Finish(value: real): real { HalfUp4(Max(value, 0.01)) }

  /** A row's adjusted close: its close folded through exactly the later events, newest first. */
  function AdjustedRow(adjs: seq<Adjustment>, row: PriceRow): PriceRow {
    PriceRow(row.date, row.close, Some(Finish(Fold(After(adjs, row.date), row.close))))
  }

  function AdjustedRows(adjs: seq<Adjustment>, rows: seq<PriceRow>): seq<PriceRow> {
    if rows == [] then [] else [AdjustedRow(adjs, rows[0])] + AdjustedRows(adjs, rows[1..])
  }

  function AdjustOutcome(prices: seq<PriceRow>, events: seq<CorporateEvent>): Result<seq<PriceRow>, AdjustError> {
    if prices == [] then Success(prices)
    else
      var adjs :- Converted(Sort(events, NewestFirst));
      Success(AdjustedRows(adjs, Sort(prices, RowsByDate)))
  }

  // ---- The cumulative map ------------------------------------------------------------------------

  /** One event more in the cumulative multiplier and addend. */
  function Then(f: Affine, g: Affine): Affine { Affine(f.mult * g.mult, f.addend * g.mult + g.addend) }

  function Compose(adjs: seq<Adjustment>): Affine {
    if adjs == [] then IDENTITY else Then(Compose(adjs[..|adjs| - 1]), adjs[|adjs| - 1].change)
  }

  lemma ThenApplies(f: Affine, g: Affine, price: real)
    ensures Apply(Then(f, g), price) == Apply(g, Apply(f, price))
  {
    assert price * (f.mult * g.mult) == price * f.mult * g.mult;
    assert (price * f.mult - f.addend) * g.mult == price * f.mult * g.mult - f.addend * g.mult;
  }

  lemma {:induction false} FoldThenOne(adjs: seq<Adjustment>, last: Adjustment, price: real)
    ensures Fold(adjs + [last], price) == Apply(last.change, Fold(adjs, price))
  {
    if adjs == [] {
      assert [last][1..] == [];
    } else {
      assert (adjs + [last])[1..] == adjs[1..] + [last];
      FoldThenOne(adjs[1..], last, Apply(adjs[0].change, price));
    }
  }

  /** One multiplication and one subtraction do the work of the whole list. */
  lemma {:induction false} ComposeIsFold(adjs: seq<Adjustment>, price: real)
    ensures Apply(Compose(adjs), price) == Fold(adjs, price)
  {
    if adjs != [] {
      var init, last := adjs[..|adjs| - 1], adjs[|adjs| - 1];
      assert adjs == init + [last];
      ComposeIsFold(init, price);
      ThenApplies(Compose(init), last.change, price);
      FoldThenOne(init, last, price);
    }
  }

  // ---- The pointer -------------------------------------------------------------------------------

  ghost predicate Descending(adjs: seq<Adjustment>) {
    forall i, j :: 0 <= i < j < |adjs| ==> adjs[i].exDate >= adjs[j].exDate
  }

  /** With newest events first, the later ones are the ones before the pointer. */
  lemma {:induction false} AfterIsPrefix(adjs: seq<Adjustment>, n: nat, date: int)
    requires n <= |adjs|
    requires forall k :: 0 <= k < n ==> adjs[k].exDate > date
    requires forall k :: n <= k < |adjs| ==> adjs[k].exDate <= date
    ensures After(adjs, date) == adjs[..n]
  {
    if adjs != [] {
      if n == 0 {
        AfterIsPrefix(adjs[1..], 0, date);
      } else {
        AfterIsPrefix(adjs[1..], n - 1, date);
        assert adjs[..n] == [adjs[0]] + adjs[1..][..n - 1];
      }
    }
  }

  lemma {:induction false} ConvertedKeepDates(events: seq<CorporateEvent>)
    requires Converted(events).Success?
    ensures |Converted(events).value| == |events|
    ensures forall k :: 0 <= k < |events| ==> Converted(events).value[k].exDate == events[k].exDate
  {
    if events != [] {
      ConvertedKeepDates(events[..|events| - 1]);
    }
  }

  lemma ConvertedKeepOrder(events: seq<CorporateEvent>)
    requires Sorted(events, NewestFirst) && Converted(events).Success?
    ensures Descending(Converted(events).value)
  {
    ConvertedKeepDates(events);
    var adjs := Converted(events).value;
    forall i, j | 0 <= i < j < |adjs|
      ensures adjs[i].exDate >= adjs[j].exDate
    {
      assert NewestFirst(events[i], events[j]);
    }
  }

  /** One event that cannot be converted stops the whole computation. */
  lemma {:induction false} FirstFailureStops(events: seq<CorporateEvent>, i: nat)
    requires i <= |events| && Converted(events[..i]).Failure?
    ensures Converted(events) == Converted(events[..i])
    decreases |events| - i
  {
    if i == |events| {
      assert events[..i] == events;
    } else {
      assert events[..i + 1][..i] == events[..i];
      FirstFailureStops(events, i + 1);
    }
  }

  /** Moves the pointer past every event later than `date`, composing as it goes. */
  method Advance(adjs: seq<Adjustment>, from: nat, start: Affine, date: int) returns (idx: nat, cumulative: Affine)
    requires from <= |adjs| && Descending(adjs) && start == Compose(adjs[..from])
    requires forall k :: 0 <= k < from ==> adjs[k].exDate > date
    ensures from <= idx <= |adjs|
    ensures forall k :: 0 <= k < idx ==> adjs[k].exDate > date
    ensures adjs[..idx] == After(adjs, date)
    ensures cumulative == Compose(adjs[..idx])
  {
    idx, cumulative := from, start;
    while idx < |adjs| && adjs[idx].exDate > date
      invariant from <= idx <= |adjs|
      invariant forall k :: 0 <= k < idx ==> adjs[k].exDate > date
      invariant cumulative == Compose(adjs[..idx])
    {
      assert adjs[..idx + 1][..idx] == adjs[..idx];
      cumulative := Then(cumulative, adjs[idx].change);
      idx := idx + 1;
    }
    AfterIsPrefix(adjs, idx, date);
  }

  method BuildAdjustments(events: seq<CorporateEvent>) returns (r: Result<seq<Adjustment>, AdjustError>)
    ensures r == Converted(events)
  {
    var adjs: seq<Adjustment> := [];
    for i := 0 to |events|
      invariant Converted(events[..i]) == Success(adjs)
    {
      assert events[..i + 1][..i] == events[..i];
      var change := EventToAdjustment(events[i]);
      if change.Failure? {
        FirstFailureStops(events, i + 1);
        return Failure(change.error);
      }
      adjs := adjs + [Adjustment(events[i].exDate, change.value)];
    }
    assert events[..|events|] == events;
    r := Success(adjs);
  }

  function Reversed<T>(s: seq<T>): seq<T> {
    if s == [] then [] else [s[|s| - 1]] + Reversed(s[..|s| - 1])
  }

  /** One row of the backward pass. */
  method AdjustRow(adjs: seq<Adjustment>, from: nat, start: Affine, row: PriceRow)
    returns (idx: nat, cumulative: Affine, r: PriceRow)
    requires from <= |adjs| && Descending(adjs) && start == Compose(adjs[..from])
    requires forall k :: 0 <= k < from ==> adjs[k].exDate > row.date
    ensures idx <= |adjs| && cumulative == Compose(adjs[..idx])
    ensures forall k :: 0 <= k < idx ==> adjs[k].exDate > row.date
    ensures r == AdjustedRow(adjs, row)
  {
    idx, cumulative := Advance(adjs, from, start, row.date);
    ComposeIsFold(adjs[..idx], row.close);
    var adjClose := row.close * cumulative.mult - cumulative.addend;
    assert adjClose == Fold(After(adjs, row.date), row.close);
    adjClose := Max(adjClose, 0.01);
    adjClose := HalfUp4(adjClose);
    r := PriceRow(row.date, row.close, Some(adjClose));
  }

  lemma ReversedSnoc<T>(s: seq<T>, x: T)
    ensures Reversed(s + [x]) == [x] + Reversed(s)
  {
    assert (s + [x])[..|s|] == s;
  }

  /** The backward pass over rows already in date order. */
  method BackwardPass(adjs: seq<Adjustment>, rows: seq<PriceRow>) returns (r: seq<PriceRow>)
    requires Descending(adjs) && Sorted(rows, RowsByDate)
    ensures r == AdjustedRows(adjs, rows)
  {
    var cumulative, adjIdx := IDENTITY, 0;
    var result: seq<PriceRow> := [];
    var n := |rows|;
    while n > 0
      invariant 0 <= n <= |rows| && 0 <= adjIdx <= |adjs|
      invariant cumulative == Compose(adjs[..adjIdx])
      invariant forall k :: 0 <= k < adjIdx ==> n < |rows| && adjs[k].exDate > rows[n].date
      invariant Reversed(result) == AdjustedRows(adjs, rows[n..])
    {
      n := n - 1;
      assert n + 1 < |rows| ==> RowsByDate(rows[n], rows[n + 1]);
      var adjusted;
      adjIdx, cumulative, adjusted := AdjustRow(adjs, adjIdx, cumulative, rows[n]);
      ReversedSnoc(result, adjusted);
      result := result + [adjusted];
      assert rows[n..][1..] == rows[n + 1..];
    }
    assert rows[0..] == rows;
    r := Reversed(result);
  }

  method ComputeAdjustedPrices(prices: seq<PriceRow>, events: seq<CorporateEvent>)
    returns (r: Result<seq<PriceRow>, AdjustError>)
    ensures r == AdjustOutcome(prices, events)
  {
    if prices == [] {
      return Success(prices);
    }
    var sortedPrices := Sort(prices, RowsByDate);
    var sortedEvents := Sort(events, NewestFirst);
    SortSorts(prices, RowsByDate);
    SortSorts(events, NewestFirst);
    var built := BuildAdjustments(sortedEvents);
    if built.Failure? {
      return Failure(built.error);
    }
    ConvertedKeepOrder(sortedEvents);
    var rows := BackwardPass(built.value, sortedPrices);
    r := Success(rows);
  }
}
