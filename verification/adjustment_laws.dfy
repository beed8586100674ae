/**
  What the price adjustment promises: it computes what the quadratic algorithm of the docstring of
  psx_ingest/adjustments.py computes, it never raises a price, and it does not depend on the order in
  which events are listed as long as events tied on their ex-date commute.
*/
module AdjustmentLaws {
  import opened Wrappers
  import opened Rounding
  import opened Sorting
  import opened Adjustments
  import opened Folds

  // ---- The quadratic algorithm -------------------------------------------------------------------

  /** Crossing one ex-date: every older price goes through the change. */
  function Cross(adj: Adjustment, rows: seq<PriceRow>, values: seq<real>): (r: seq<real>)
    requires |rows| == |values|
    ensures |r| == |rows|
  {
    if rows == [] then []
    else
      var first := if rows[0].date < adj.exDate then Apply(adj.change, values[0]) else values[0];
      [first] + Cross(adj, rows[1..], values[1..])
  }

  /** Events outermost, newest first; each one rewrites all the prices before it. */
  function Quadratic(adjs: seq<Adjustment>, rows: seq<PriceRow>, values: seq<real>): (r: seq<real>)
    requires |rows| == |values|
    ensures |r| == |rows|
  {
    if adjs == [] then values else Quadratic(adjs[1..], rows, Cross(adjs[0], rows, values))
  }

  function Closes(rows: seq<PriceRow>): (r: seq<real>)
    ensures |r| == |rows|
  {
    if rows == [] then [] else [rows[0].close] + Closes(rows[1..])
  }

  lemma {:induction false} ClosesAt(rows: seq<PriceRow>, k: nat)
    requires k < |rows|
    ensures Closes(rows)[k] == rows[k].close
  {
    if k > 0 {
      ClosesAt(rows[1..], k - 1);
    }
  }

  lemma {:induction false} CrossAt(adj: Adjustment, rows: seq<PriceRow>, values: seq<real>, k: nat)
    requires k < |rows| == |values|
    ensures Cross(adj, rows, values)[k] == if rows[k].date < adj.exDate then Apply(adj.change, values[k]) else values[k]
  {
    if k > 0 {
      CrossAt(adj, rows[1..], values[1..], k - 1);
    }
  }

  lemma {:induction false} QuadraticIsFold(adjs: seq<Adjustment>, rows: seq<PriceRow>, values: seq<real>, k: nat)
    requires k < |rows| == |values|
    ensures Quadratic(adjs, rows, values)[k] == Fold(After(adjs, rows[k].date), values[k])
  {
    if adjs != [] {
      CrossAt(adjs[0], rows, values, k);
      QuadraticIsFold(adjs[1..], rows, Cross(adjs[0], rows, values), k);
      assert ([adjs[0]] + After(adjs[1..], rows[k].date))[1..] == After(adjs[1..], rows[k].date);
    }
  }

  lemma {:induction false} AdjustedRowsAt(adjs: seq<Adjustment>, rows: seq<PriceRow>, k: nat)
    requires k < |rows|
    ensures |AdjustedRows(adjs, rows)| == |rows|
    ensures AdjustedRows(adjs, rows)[k] == AdjustedRow(adjs, rows[k])
  {
    if k > 0 {
      AdjustedRowsAt(adjs, rows[1..], k - 1);
    } else if |rows| > 1 {
      AdjustedRowsAt(adjs, rows[1..], 0);
    }
  }

  /**
    The one-pass algorithm refines the quadratic one: row by row, in date order, the adjusted close is
    the quadratic algorithm's value, clamped and rounded once at the end.
  */
  lemma OnePassRefinesQuadratic(prices: seq<PriceRow>, events: seq<CorporateEvent>, k: nat)
    requires AdjustOutcome(prices, events).Success? && k < |prices|
    ensures Converted(Sort(events, NewestFirst)).Success?
    ensures var rows := Sort(prices, RowsByDate);
            var adjs := Converted(Sort(events, NewestFirst)).value;
            var out := AdjustOutcome(prices, events).value;
            && |out| == |prices|
            && out[k].date == rows[k].date && out[k].close == rows[k].close
            && out[k].adjustedClose == Some(Finish(Quadratic(adjs, rows, Closes(rows))[k]))
  {
    var rows := Sort(prices, RowsByDate);
    var adjs := Converted(Sort(events, NewestFirst)).value;
    AdjustedRowsAt(adjs, rows, k);
    ClosesAt(rows, k);
    QuadraticIsFold(adjs, rows, Closes(rows), k);
  }

  /** What an event does to earlier prices; one that cannot be converted does nothing. */
  function Change(e: CorporateEvent): Affine {
    match EventToAdjustment(e)
    case Success(change) => change
    case Failure(_) => IDENTITY
  }

  // ---- Bounds ------------------------------------------------------------------------------------

  /** New shares come in positive numbers and dividends are not negative. */
  predicate Ordinary(e: CorporateEvent) {
    && (IsRatioAction(e.action) && HasRatio(e) ==> e.ratioNumerator.value > 0)
    && (e.action == DividendCash && e.amountPerShare.Some? ==> e.amountPerShare.value >= 0.0)
  }

  predicate Lowers(f: Affine) { 0.0 < f.mult <= 1.0 && f.addend >= 0.0 }

  lemma OrdinaryLowers(e: CorporateEvent)
    requires Ordinary(e)
    ensures EventToAdjustment(e).Success? && Lowers(EventToAdjustment(e).value)
  {
    if IsRatioAction(e.action) && HasRatio(e) {
      var num, den := e.ratioNumerator.value as real, e.ratioDenominator.value as real;
      assert EventToAdjustment(e).value.mult == den / (den + num);
      FractionBelowOne(den, den + num);
    }
  }

  lemma FractionBelowOne(a: real, b: real)
    requires 0.0 < a <= b
    ensures 0.0 < a / b <= 1.0
  {
  }

  lemma {:induction false} AllLower(events: seq<CorporateEvent>)
    requires forall e :: e in events ==> Ordinary(e)
    ensures Converted(events).Success?
    ensures forall adj :: adj in Converted(events).value ==> Lowers(adj.change)
  {
    if events != [] {
      AllLower(events[..|events| - 1]);
      OrdinaryLowers(events[|events| - 1]);
    }
  }

  lemma ApplyLowers(f: Affine, price: real, cap: real)
    requires Lowers(f) && price <= cap && 0.0 <= cap
    ensures Apply(f, price) <= cap
  {
    ScaledDown(price, cap, f.mult);
  }

  lemma ScaledDown(price: real, cap: real, mult: real)
    requires 0.0 < mult <= 1.0 && price <= cap && 0.0 <= cap
    ensures price * mult <= cap
  {
    NonNegativeProduct(cap - price, mult);
    NonNegativeProduct(cap, 1.0 - mult);
    assert (cap - price) * mult == cap * mult - price * mult;
    assert cap * (1.0 - mult) == cap - cap * mult;
  }

  lemma NonNegativeProduct(a: real, b: real)
    requires a >= 0.0 && b >= 0.0
    ensures a * b >= 0.0
  {
  }

  lemma {:induction false} FoldLowers(adjs: seq<Adjustment>, date: int, price: real, cap: real)
    requires forall adj :: adj in adjs ==> Lowers(adj.change)
    requires price <= cap && 0.0 <= cap
    ensures Fold(After(adjs, date), price) <= cap
  {
    if adjs != [] {
      if adjs[0].exDate > date {
        ApplyLowers(adjs[0].change, price, cap);
        FoldLowers(adjs[1..], date, Apply(adjs[0].change, price), cap);
        assert ([adjs[0]] + After(adjs[1..], date))[1..] == After(adjs[1..], date);
      } else {
        FoldLowers(adjs[1..], date, price, cap);
      }
    }
  }

  /** A price of at least one paisa written with four decimal places. */
  predicate Quoted(close: real) { close >= 0.01 && HalfUp4(close) == close }

  lemma FinishBounds(value: real, close: real)
    requires Quoted(close) && value <= close
    ensures 0.01 <= Finish(value) <= close
  {
    var v := Max(value, 0.01);
    NearestHalfUpMonotone(10000.0 * v, 10000.0 * close);
    NearestHalfUpMonotone(10000.0 * 0.01, 10000.0 * v);
    NearestHalfUpIsUnique(10000.0 * 0.01, 100);
  }

  /** No adjusted close exceeds its close or falls below one paisa. */
  lemma AdjustingOnlyLowers(prices: seq<PriceRow>, events: seq<CorporateEvent>, k: nat)
    requires forall row :: row in prices ==> Quoted(row.close)
    requires forall e :: e in events ==> Ordinary(e)
    requires k < |prices|
    ensures AdjustOutcome(prices, events).Success? && |AdjustOutcome(prices, events).value| == |prices|
    ensures var row := AdjustOutcome(prices, events).value[k];
            row.adjustedClose.Some? && 0.01 <= row.adjustedClose.value <= row.close
  {
    var rows, sorted := Sort(prices, RowsByDate), Sort(events, NewestFirst);
    SortMembers(prices, RowsByDate);
    SortMembers(events, NewestFirst);
    AllLower(sorted);
    var adjs := Converted(sorted).value;
    AdjustedRowsAt(adjs, rows, k);
    assert rows[k] in prices;
    FoldLowers(adjs, rows[k].date, rows[k].close, rows[k].close);
    FinishBounds(Fold(After(adjs, rows[k].date), rows[k].close), rows[k].close);
  }

  /** A row with no later event keeps its quoted close. */
  lemma RowWithNoLaterEventIsUntouched(adjs: seq<Adjustment>, row: PriceRow)
    requires Quoted(row.close)
    requires forall adj :: adj in adjs ==> adj.exDate <= row.date
    ensures AdjustedRow(adjs, row).adjustedClose == Some(row.close)
  {
    assert forall k :: 0 <= k < |adjs| ==> adjs[k] in adjs;
    AfterIsPrefix(adjs, 0, row.date);
  }

  /** A price in this row that no later change moves: those changes are all the identity, and only then. */
  lemma {:induction false} UnmovedExactly(adjs: seq<Adjustment>, date: int, price: real)
    requires price > 0.0 && forall adj :: adj in adjs ==> Lowers(adj.change)
    ensures Fold(After(adjs, date), price) == price
       <==> forall adj :: adj in adjs && adj.exDate > date ==> adj.change == IDENTITY
  {
    if adjs != [] {
      var first, rest := adjs[0], adjs[1..];
      assert forall adj :: adj in adjs <==> adj == first || adj in rest;
      assert ([first] + After(rest, date))[1..] == After(rest, date);
      if first.exDate <= date || first.change == IDENTITY {
        UnmovedExactly(rest, date, price);
        assert Apply(IDENTITY, price) == price;
      } else {
        var lower := Apply(first.change, price);
        OtherChangesLower(first.change, price);
        FoldLowers(rest, date, lower, Max(lower, 0.0));
      }
    }
  }

  lemma OtherChangesLower(f: Affine, price: real)
    requires Lowers(f) && f != IDENTITY && price > 0.0
    ensures Apply(f, price) < price
  {
    if f.mult < 1.0 {
      assert price * f.mult < price * 1.0;
    }
  }

  lemma {:induction false} ConversionOf(events: seq<CorporateEvent>)
    requires Converted(events).Success?
    ensures forall adj :: adj in Converted(events).value
              <==> exists e :: e in events && adj == Adjustment(e.exDate, Change(e))
  {
    if events != [] {
      var init, last := events[..|events| - 1], events[|events| - 1];
      ConversionOf(init);
      assert forall e :: e in events <==> e in init || e == last;
    }
  }

  ghost predicate OnlyIdentitiesAfter(events: seq<CorporateEvent>, date: int) {
    forall e :: e in events && e.exDate > date ==> Change(e) == IDENTITY
  }

  /** When a row keeps its close, before clamping and rounding: if and only if no later event changes prices. */
  lemma RowKeepsItsCloseExactly(prices: seq<PriceRow>, events: seq<CorporateEvent>, k: nat)
    requires k < |prices| && forall e :: e in events ==> Ordinary(e)
    requires Sort(prices, RowsByDate)[k].close > 0.0
    ensures Converted(Sort(events, NewestFirst)).Success?
    ensures var row := Sort(prices, RowsByDate)[k];
            Fold(After(Converted(Sort(events, NewestFirst)).value, row.date), row.close) == row.close
            <==> OnlyIdentitiesAfter(events, row.date)
  {
    var row, sorted := Sort(prices, RowsByDate)[k], Sort(events, NewestFirst);
    SortMembers(events, NewestFirst);
    AllLower(sorted);
    ConversionOf(sorted);
    var adjs := Converted(sorted).value;
    UnmovedExactly(adjs, row.date, row.close);
    if forall adj :: adj in adjs && adj.exDate > row.date ==> adj.change == IDENTITY {
      forall e | e in events && e.exDate > row.date
        ensures Change(e) == IDENTITY
      {
        assert Adjustment(e.exDate, Change(e)) in adjs;
      }
    }
  }

  /** The reported close hides a fall of less than half a unit of the fourth place, and any fall at the clamp. */
  lemma ReportedCloseIsKeptExactly(value: real, close: real)
    requires Quoted(close) && value <= close
    ensures Finish(value) == close <==> close == 0.01 || value >= close - 0.00005
  {
    var n := NearestHalfUp(10000.0 * close);
    assert 10000.0 * close == n as real && n >= 100;
    NearestHalfUpIsUnique(100.0, 100);
    if close == 0.01 {
      FinishBounds(value, close);
    } else if value >= close - 0.00005 {
      NearestHalfUpIsUnique(10000.0 * Max(value, 0.01), n);
    }
  }

  // ---- The order in which events are listed ------------------------------------------------------

  predicate Commute(f: Affine, g: Affine) { Then(f, g).addend == Then(g, f).addend }

  ghost predicate AgreeOnEveryPrice(f: Affine, g: Affine) {
    forall price :: Apply(g, Apply(f, price)) == Apply(f, Apply(g, price))
  }

  lemma CommutingChanges(f: Affine, g: Affine, price: real)
    requires Commute(f, g)
    ensures Apply(g, Apply(f, price)) == Apply(f, Apply(g, price))
  {
    ThenApplies(f, g, price);
    ThenApplies(g, f, price);
    assert Then(f, g) == Then(g, f);
  }

  /** The addend test is exact: it holds just when the two changes agree on every price. */
  lemma CommuteExactly(f: Affine, g: Affine)
    ensures Commute(f, g) <==> AgreeOnEveryPrice(f, g)
  {
    if Commute(f, g) {
      forall price
        ensures Apply(g, Apply(f, price)) == Apply(f, Apply(g, price))
      {
        CommutingChanges(f, g, price);
      }
    } else {
      ThenApplies(f, g, 0.0);
      ThenApplies(g, f, 0.0);
      assert Apply(g, Apply(f, 0.0)) != Apply(f, Apply(g, 0.0));
    }
  }

  /** What an event does to a price of a date. */
  function Crossing(date: int): (CorporateEvent, real) -> real {
    (e: CorporateEvent, price) => if e.exDate > date then Apply(Change(e), price) else price
  }

  ghost predicate TiesCommute(events: seq<CorporateEvent>) {
    forall e, f :: e in events && f in events && e.exDate == f.exDate ==> Commute(Change(e), Change(f))
  }

  lemma CrossingTwo(e: CorporateEvent, f: CorporateEvent, date: int, price: real)
    ensures Crossing(date)(e, Crossing(date)(f, price))
         == var inner := if f.exDate > date then Apply(Change(f), price) else price;
            if e.exDate > date then Apply(Change(e), inner) else inner
  {
  }

  lemma CrossingsSwapAt(e: CorporateEvent, f: CorporateEvent, date: int, price: real)
    requires e.exDate == f.exDate && Commute(Change(e), Change(f))
    ensures Crossing(date)(e, Crossing(date)(f, price)) == Crossing(date)(f, Crossing(date)(e, price))
  {
    CommutingChanges(Change(e), Change(f), price);
    CrossingTwo(e, f, date, price);
    CrossingTwo(f, e, date, price);
  }

  lemma CrossingsSwap(e: CorporateEvent, f: CorporateEvent, date: int)
    requires e.exDate == f.exDate && Commute(Change(e), Change(f))
    ensures Swappable(Crossing(date), e, f)
  {
    var step := Crossing(date);
    forall price
      ensures step(e, step(f, price)) == step(f, step(e, price))
    {
      CrossingsSwapAt(e, f, date, price);
    }
  }

  lemma TiesSwapAtEveryDate(events: seq<CorporateEvent>, date: int)
    requires TiesCommute(events)
    ensures TiesSwap(events, NewestFirst, Crossing(date))
  {
    forall e, f | e in events && f in events && NewestFirst(e, f) && NewestFirst(f, e)
      ensures Swappable(Crossing(date), e, f)
    {
      CrossingsSwap(e, f, date);
    }
  }

  lemma {:induction false} AfterSnoc(adjs: seq<Adjustment>, last: Adjustment, date: int)
    ensures After(adjs + [last], date) == After(adjs, date) + if last.exDate > date then [last] else []
  {
    if adjs == [] {
      assert [last][1..] == [];
    } else {
      assert (adjs + [last])[1..] == adjs[1..] + [last];
      AfterSnoc(adjs[1..], last, date);
    }
  }

  lemma {:induction false} FoldByIsFold(events: seq<CorporateEvent>, date: int, price: real)
    requires Converted(events).Success?
    ensures FoldBy(events, Crossing(date), price) == Fold(After(Converted(events).value, date), price)
  {
    if events != [] {
      var init, last := events[..|events| - 1], events[|events| - 1];
      FoldByIsFold(init, date, price);
      var adj := Adjustment(last.exDate, EventToAdjustment(last).value);
      AfterSnoc(Converted(init).value, adj, date);
      FoldThenOne(After(Converted(init).value, date), adj, price);
      assert After(Converted(init).value, date) + [] == After(Converted(init).value, date);
    }
  }

  lemma {:induction false} ConvertibleExactly(events: seq<CorporateEvent>)
    ensures Converted(events).Success? <==> forall e :: e in events ==> EventToAdjustment(e).Success?
  {
    if events != [] {
      var init, last := events[..|events| - 1], events[|events| - 1];
      ConvertibleExactly(init);
      assert events == init + [last];
    }
  }

  ghost predicate SameFolds(a: seq<Adjustment>, b: seq<Adjustment>) {
    forall date, price :: Fold(After(a, date), price) == Fold(After(b, date), price)
  }

  lemma {:induction false} SameRows(a: seq<Adjustment>, b: seq<Adjustment>, rows: seq<PriceRow>)
    requires SameFolds(a, b)
    ensures AdjustedRows(a, rows) == AdjustedRows(b, rows)
  {
    if rows != [] {
      SameRows(a, b, rows[1..]);
    }
  }

  lemma SameEvents(s: seq<CorporateEvent>, t: seq<CorporateEvent>)
    requires multiset(s) == multiset(t) && TiesCommute(s)
    requires Sorted(s, NewestFirst) && Sorted(t, NewestFirst)
    requires Converted(s).Success? && Converted(t).Success?
    ensures SameFolds(Converted(s).value, Converted(t).value)
  {
    forall date, price
      ensures Fold(After(Converted(s).value, date), price) == Fold(After(Converted(t).value, date), price)
    {
      TiesSwapAtEveryDate(s, date);
      SameFold(s, t, NewestFirst, Crossing(date), price);
      FoldByIsFold(s, date, price);
      FoldByIsFold(t, date, price);
    }
  }

  lemma SortedEvents(events: seq<CorporateEvent>)
    ensures Sorted(Sort(events, NewestFirst), NewestFirst)
    ensures multiset(Sort(events, NewestFirst)) == multiset(events)
    ensures TiesCommute(events) ==> TiesCommute(Sort(events, NewestFirst))
  {
    SortSorts(events, NewestFirst);
    SortPermutes(events, NewestFirst);
    SortMembers(events, NewestFirst);
  }

  lemma SameConversions(s: seq<CorporateEvent>, t: seq<CorporateEvent>)
    requires multiset(s) == multiset(t)
    ensures Converted(s).Success? == Converted(t).Success?
  {
    SameElements(s, t);
    ConvertibleExactly(s);
    ConvertibleExactly(t);
  }

  /** The result depends only on which events there are, as soon as events tied on a date commute. */
  lemma EventOrderDoesNotMatter(prices: seq<PriceRow>, events: seq<CorporateEvent>, shuffled: seq<CorporateEvent>)
    requires multiset(events) == multiset(shuffled) && TiesCommute(events)
    ensures AdjustOutcome(prices, events) == AdjustOutcome(prices, shuffled)
  {
    var s, t := Sort(events, NewestFirst), Sort(shuffled, NewestFirst);
    SortedEvents(events);
    SortedEvents(shuffled);
    SameConversions(s, t);
    if Converted(s).Success? {
      SameEvents(s, t);
      SameRows(Converted(s).value, Converted(t).value, Sort(prices, RowsByDate));
    } else {
      assert Converted(s).error == DivisionByZero == Converted(t).error;
    }
  }

  /** The adjusted close of a single price, for events already newest first. */
  lemma SinglePrice(price: PriceRow, events: seq<CorporateEvent>)
    requires Sorted(events, NewestFirst)
    requires forall e :: e in events ==> EventToAdjustment(e).Success?
    ensures var value := FoldBy(events, Crossing(price.date), price.close);
            AdjustOutcome([price], events) == Success([PriceRow(price.date, price.close, Some(Finish(value)))])
  {
    SortOfSorted(events, NewestFirst);
    SortOfSorted([price], RowsByDate);
    ConvertibleExactly(events);
    FoldByIsFold(events, price.date, price.close);
    AdjustedRowsAt(Converted(events).value, [price], 0);
    assert AdjustedRows(Converted(events).value, [price]) == [AdjustedRow(Converted(events).value, price)];
  }

  lemma QuotientNonzero(a: real, b: real)
    requires a != 0.0 && b != 0.0
    ensures a / b != 0.0
  {
    assert (a / b) * b == a;
  }

  /** No event multiplies prices by zero. */
  lemma ChangeIsNonzero(e: CorporateEvent)
    ensures Change(e).mult != 0.0
  {
    if IsRatioAction(e.action) && HasRatio(e) && EventToAdjustment(e).Success? {
      var num, den := e.ratioNumerator.value, e.ratioDenominator.value;
      QuotientNonzero(den as real, (den + num) as real);
    }
  }

  lemma SolveApply(f: Affine, value: real) returns (price: real)
    requires f.mult != 0.0
    ensures Apply(f, price) == value
  {
    price := (value + f.addend) / f.mult;
    assert price * f.mult == value + f.addend;
  }

  /** Above and below a rounding boundary the reported prices differ. */
  lemma AcrossTheBoundary(value: real)
    requires value < 1.00005
    ensures Finish(value) != Finish(1.00005)
  {
    NearestHalfUpIsUnique(10000.0 * 1.00005, 10001);
    assert 10000.0 * Max(value, 0.01) < 10000.5;
  }

  /** Two changes that do not commute report different prices for some price. */
  lemma SomePriceTells(f: Affine, g: Affine) returns (price: real)
    requires f.mult != 0.0 && g.mult != 0.0 && !Commute(f, g)
    ensures Finish(Apply(g, Apply(f, price))) != Finish(Apply(f, Apply(g, price)))
  {
    var fg, gf := Then(f, g), Then(g, f);
    NonzeroProduct(f.mult, g.mult);
    assert gf.mult == fg.mult;
    price := SolveApply(if fg.addend < gf.addend then fg else gf, 1.00005);
    ThenApplies(f, g, price);
    ThenApplies(g, f, price);
    AcrossTheBoundary(if fg.addend < gf.addend then Apply(gf, price) else Apply(fg, price));
  }

  lemma NonzeroProduct(a: real, b: real)
    requires a != 0.0 && b != 0.0
    ensures a * b != 0.0
  {
  }

  /** Every price is what the events make of some earlier price. */
  lemma {:induction false} SolveFold(events: seq<CorporateEvent>, date: int, value: real) returns (price: real)
    ensures FoldBy(events, Crossing(date), price) == value
  {
    if events == [] {
      price := value;
    } else {
      var init, last := events[..|events| - 1], events[|events| - 1];
      var before := value;
      if last.exDate > date {
        ChangeIsNonzero(last);
        before := SolveApply(Change(last), value);
      }
      price := SolveFold(init, date, before);
    }
  }

  lemma {:induction false} OldEventsDoNothing(
    events: seq<CorporateEvent>, older: seq<CorporateEvent>, date: int, price: real)
    requires forall e :: e in older ==> e.exDate <= date
    ensures FoldBy(events + older, Crossing(date), price) == FoldBy(events, Crossing(date), price)
  {
    if older == [] {
      assert events + older == events;
    } else {
      var init, last := older[..|older| - 1], older[|older| - 1];
      assert events + older == events + init + [last];
      OldEventsDoNothing(events, init, date, price);
      FoldSnoc(events + init, last, Crossing(date), price);
    }
  }

  function OnOrAfter(date: int): CorporateEvent -> bool { (e: CorporateEvent) => e.exDate >= date }
  function Before(date: int): CorporateEvent -> bool { (e: CorporateEvent) => e.exDate < date }

  /** A listing in order, in which two tied events stand side by side, behind all others of their day. */
  function Listing(rest: seq<CorporateEvent>, e: CorporateEvent, f: CorporateEvent): seq<CorporateEvent> {
    Sort(Filter(rest, OnOrAfter(e.exDate)), NewestFirst) + [e, f]
    + Sort(Filter(rest, Before(e.exDate)), NewestFirst)
  }

  lemma SortedFilter(rest: seq<CorporateEvent>, keep: CorporateEvent -> bool)
    ensures Sorted(Sort(Filter(rest, keep), NewestFirst), NewestFirst)
    ensures multiset(Sort(Filter(rest, keep), NewestFirst)) == multiset(Filter(rest, keep))
    ensures forall x :: x in Sort(Filter(rest, keep), NewestFirst) ==> keep(x)
  {
    SortSorts(Filter(rest, keep), NewestFirst);
    SortPermutes(Filter(rest, keep), NewestFirst);
    SortMembers(Filter(rest, keep), NewestFirst);
    FilterMembers(rest, keep);
  }

  lemma SideBySideIsSorted(
    newer: seq<CorporateEvent>, e: CorporateEvent, f: CorporateEvent, older: seq<CorporateEvent>)
    requires Sorted(newer, NewestFirst) && Sorted(older, NewestFirst) && e.exDate == f.exDate
    requires forall x :: x in newer ==> x.exDate >= e.exDate
    requires forall x :: x in older ==> x.exDate < e.exDate
    ensures Sorted(newer + [e, f] + older, NewestFirst)
  {
    SortedAppend(newer, [e, f], NewestFirst);
    assert forall x :: x in newer + [e, f] ==> x.exDate >= e.exDate;
    SortedAppend(newer + [e, f], older, NewestFirst);
  }

  lemma ListingIsSorted(rest: seq<CorporateEvent>, e: CorporateEvent, f: CorporateEvent)
    requires e.exDate == f.exDate
    ensures Sorted(Listing(rest, e, f), NewestFirst)
  {
    var newer, older := OnOrAfter(e.exDate), Before(e.exDate);
    SortedFilter(rest, newer);
    SortedFilter(rest, older);
    SideBySideIsSorted(Sort(Filter(rest, newer), NewestFirst), e, f, Sort(Filter(rest, older), NewestFirst));
  }

  lemma ListingElements(rest: seq<CorporateEvent>, e: CorporateEvent, f: CorporateEvent)
    ensures multiset(Listing(rest, e, f)) == multiset(rest) + multiset{e} + multiset{f}
  {
    SortedFilter(rest, OnOrAfter(e.exDate));
    SortedFilter(rest, Before(e.exDate));
    FilterPartition(rest, OnOrAfter(e.exDate), Before(e.exDate));
  }

  lemma SideBySideFold(
    newer: seq<CorporateEvent>, e: CorporateEvent, f: CorporateEvent, older: seq<CorporateEvent>, price: real)
    requires e.exDate == f.exDate && forall x :: x in older ==> x.exDate < e.exDate
    ensures var step := Crossing(e.exDate - 1);
            FoldBy(newer + [e, f] + older, step, price)
            == Apply(Change(f), Apply(Change(e), FoldBy(newer, step, price)))
  {
    var step := Crossing(e.exDate - 1);
    OldEventsDoNothing(newer + [e, f], older, e.exDate - 1, price);
    assert newer + [e, f] == newer + [e] + [f];
    FoldSnoc(newer + [e], f, step, price);
    FoldSnoc(newer, e, step, price);
  }

  /** What a listing reports the day before the tie: the two events in their order, on some price. */
  lemma ListingFold(rest: seq<CorporateEvent>, e: CorporateEvent, f: CorporateEvent, price: real)
    requires e.exDate == f.exDate
    ensures var newer := Sort(Filter(rest, OnOrAfter(e.exDate)), NewestFirst);
            var step := Crossing(e.exDate - 1);
            FoldBy(Listing(rest, e, f), step, price) == Apply(Change(f), Apply(Change(e), FoldBy(newer, step, price)))
  {
    SortedFilter(rest, Before(e.exDate));
    SideBySideFold(Sort(Filter(rest, OnOrAfter(e.exDate)), NewestFirst), e, f,
                   Sort(Filter(rest, Before(e.exDate)), NewestFirst), price);
  }

  ghost predicate AllConvertible(events: seq<CorporateEvent>) {
    forall e :: e in events ==> EventToAdjustment(e).Success?
  }

  lemma ListingReports(rest: seq<CorporateEvent>, e: CorporateEvent, f: CorporateEvent, row: PriceRow, value: real)
    requires AllConvertible(Listing(rest, e, f)) && e.exDate == f.exDate && row.date == e.exDate - 1
    requires FoldBy(Sort(Filter(rest, OnOrAfter(e.exDate)), NewestFirst), Crossing(row.date), row.close) == value
    ensures AdjustOutcome([row], Listing(rest, e, f))
         == Success([PriceRow(row.date, row.close, Some(Finish(Apply(Change(f), Apply(Change(e), value)))))])
  {
    ListingIsSorted(rest, e, f);
    ListingFold(rest, e, f, row.close);
    SinglePrice(row, Listing(rest, e, f));
  }

  ghost predicate Differs(prices: seq<PriceRow>, events: seq<CorporateEvent>, shuffled: seq<CorporateEvent>) {
    multiset(events) == multiset(shuffled) && AdjustOutcome(prices, events) != AdjustOutcome(prices, shuffled)
  }

  /** Two tied events that do not commute, with whatever other events there are: two listings differ. */
  lemma TwoListingsDiffer(rest: seq<CorporateEvent>, e: CorporateEvent, f: CorporateEvent) returns (row: PriceRow)
    requires AllConvertible(rest + [e] + [f]) && e.exDate == f.exDate && !Commute(Change(e), Change(f))
    ensures Differs([row], Listing(rest, e, f), Listing(rest, f, e))
  {
    ChangeIsNonzero(e);
    ChangeIsNonzero(f);
    var value := SomePriceTells(Change(e), Change(f));
    var close := SolveFold(Sort(Filter(rest, OnOrAfter(e.exDate)), NewestFirst), e.exDate - 1, value);
    row := PriceRow(e.exDate - 1, close, None);
    ListingElements(rest, e, f);
    ListingElements(rest, f, e);
    SameElements(Listing(rest, e, f), rest + [e] + [f]);
    SameElements(Listing(rest, f, e), rest + [e] + [f]);
    ListingReports(rest, e, f, row, value);
    ListingReports(rest, f, e, row, value);
  }

  lemma TakeOne(events: seq<CorporateEvent>, e: CorporateEvent) returns (rest: seq<CorporateEvent>)
    requires e in events
    ensures multiset(events) == multiset(rest + [e])
    ensures forall x :: x in events && x != e ==> x in rest
  {
    var i :| 0 <= i < |events| && events[i] == e;
    rest := Without(events, i);
    WithoutElements(events, i);
    SameElements(events, rest + [e]);
  }

  lemma TakeOut(events: seq<CorporateEvent>, e: CorporateEvent, f: CorporateEvent) returns (rest: seq<CorporateEvent>)
    requires e in events && f in events && e != f
    ensures multiset(events) == multiset(rest + [e] + [f])
  {
    var one := TakeOne(events, e);
    rest := TakeOne(one, f);
  }

  /**
    When the order of listing can change what is reported, for some prices: if and only if all events can
    be converted and two of them, tied on their ex-date, do not commute.
  */
  lemma OrderMattersExactly(events: seq<CorporateEvent>)
    ensures (exists prices, shuffled :: Differs(prices, events, shuffled))
       <==> AllConvertible(events) && !TiesCommute(events)
  {
    if AllConvertible(events) && !TiesCommute(events) {
      var e, f :| e in events && f in events && e.exDate == f.exDate && !Commute(Change(e), Change(f));
      var rest := TakeOut(events, e, f);
      SameElements(events, rest + [e] + [f]);
      var row := TwoListingsDiffer(rest, e, f);
      ListingElements(rest, e, f);
      assert Differs([row], events, Listing(rest, e, f)) || Differs([row], events, Listing(rest, f, e));
    }
    forall prices, shuffled | Differs(prices, events, shuffled)
      ensures AllConvertible(events) && !TiesCommute(events)
    {
      DifferingOutcomes(prices, events, shuffled);
    }
  }

  /** With an event that cannot be converted every listing fails alike. */
  lemma UnconvertibleAgree(prices: seq<PriceRow>, events: seq<CorporateEvent>, shuffled: seq<CorporateEvent>)
    requires multiset(events) == multiset(shuffled) && !AllConvertible(events)
    ensures AdjustOutcome(prices, events) == AdjustOutcome(prices, shuffled)
  {
    var s, t := Sort(events, NewestFirst), Sort(shuffled, NewestFirst);
    SortedEvents(events);
    SortedEvents(shuffled);
    SameElements(s, events);
    SameConversions(s, t);
    ConvertibleExactly(s);
    assert Converted(s).error == DivisionByZero == Converted(t).error;
  }

  lemma DifferingOutcomes(prices: seq<PriceRow>, events: seq<CorporateEvent>, shuffled: seq<CorporateEvent>)
    requires Differs(prices, events, shuffled)
    ensures AllConvertible(events) && !TiesCommute(events)
  {
    if TiesCommute(events) {
      EventOrderDoesNotMatter(prices, events, shuffled);
    }
    if !AllConvertible(events) {
      UnconvertibleAgree(prices, events, shuffled);
    }
  }

  /** Histories of ratio events only, or of cash dividends only, have commuting ties. */
  lemma OneKindOfEventCommutes(events: seq<CorporateEvent>)
    requires (forall e :: e in events ==> e.action != DividendCash)
          || (forall e :: e in events ==> !IsRatioAction(e.action))
    ensures TiesCommute(events)
  {
  }

  lemma OneForOne(exDate: int)
    ensures EventToAdjustment(CorporateEvent(exDate, Split, None, Some(1), Some(1))) == Success(Affine(0.5, 0.0))
  {
    assert 1 as real / (1 + 1) as real == 0.5;
  }

  /** The docstring's "most recent close is never adjusted" fails for an event dated after the last price. */
  lemma NewestRowIsAdjustedByALaterEvent()
    ensures var split := CorporateEvent(20, Split, None, Some(1), Some(1));
            AdjustOutcome([PriceRow(10, 200.0, None)], [split]) == Success([PriceRow(10, 200.0, Some(100.0))])
  {
    var split := CorporateEvent(20, Split, None, Some(1), Some(1));
    OneForOne(20);
    SinglePrice(PriceRow(10, 200.0, None), [split]);
    assert [split][..0] == [] && Change(split) == Affine(0.5, 0.0);
    assert FoldBy([split], Crossing(10), 200.0) == 100.0;
    NearestHalfUpIsUnique(10000.0 * 100.0, 1000000);
  }

  /** A split and a dividend on one day: the order in which they are listed changes the price. */
  lemma MixedTiesDependOnOrder()
    ensures var split := CorporateEvent(20, Split, None, Some(1), Some(1));
            var dividend := CorporateEvent(20, DividendCash, Some(10.0), None, None);
            var price := PriceRow(10, 200.0, None);
            && AdjustOutcome([price], [split, dividend]) == Success([PriceRow(10, 200.0, Some(90.0))])
            && AdjustOutcome([price], [dividend, split]) == Success([PriceRow(10, 200.0, Some(95.0))])
  {
    var split := CorporateEvent(20, Split, None, Some(1), Some(1));
    var dividend := CorporateEvent(20, DividendCash, Some(10.0), None, None);
    OneForOne(20);
    assert Change(split) == Affine(0.5, 0.0) && Change(dividend) == Affine(1.0, 10.0);
    assert [split, dividend][..1] == [split] && [dividend, split][..1] == [dividend];
    assert [split][..0] == [] && [dividend][..0] == [];
    assert FoldBy([split], Crossing(10), 200.0) == 100.0;
    assert FoldBy([dividend], Crossing(10), 200.0) == 190.0;
    SinglePrice(PriceRow(10, 200.0, None), [split, dividend]);
    SinglePrice(PriceRow(10, 200.0, None), [dividend, split]);
    NearestHalfUpIsUnique(10000.0 * 90.0, 900000);
    NearestHalfUpIsUnique(10000.0 * 95.0, 950000);
  }
}
