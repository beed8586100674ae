/**
  One portfolio's tables and the services over them: entering a transaction, refreshing the holdings
  snapshot, the tax simulation and the liquidation estimate.
*/
module Portfolio {
  import opened Wrappers
  import opened Rounding
  import opened Sorting
  import opened Sums
  import opened Lots
  import opened Cgt
  import opened Ledger
  import opened LedgerLaws
  import CgtLaws

  // ---- The holdings snapshot ---------------------------------------------------------------------

  datatype Holding = Holding(
    quantity: real, avgCost: real, totalInvested: real, realizedPnl: real, dividends: real)

  function AverageOf(cost: real, shares: real): real { if shares > 0.0 then cost / shares else 0.0 }

  /** The row for a history, or none when there is nothing to show. */
  function SnapshotOf(h: seq<Transaction>): Option<Holding> {
    var lots := Open(Held(h));
    if Shares(lots) == 0.0 && Dividends(h) == 0.0 && Realized(h) == 0.0 then None
    else Some(Holding(
      Shares(lots), HalfEven4(AverageOf(Cost(lots), Shares(lots))), HalfEven2(Invested(h)),
      HalfEven2(Realized(h)), HalfEven2(Dividends(h))))
  }

  function SlotCost(s: Slot): real { Value(s.price, s.quantity) }

  lemma {:induction false} SlotSums(lots: seq<BuyLot>)
    ensures SumBy(Slots(lots), SlotShares) == Shares(lots)
    ensures SumBy(Slots(lots), SlotCost) == Cost(lots)
  {
    if lots != [] {
      SlotSums(lots[1..]);
    }
  }

  lemma {:induction false} SlotsAppend(a: seq<BuyLot>, b: seq<BuyLot>)
    ensures Slots(a + b) == Slots(a) + Slots(b)
  {
    if a == [] {
      assert a + b == b;
    } else {
      assert (a + b)[1..] == a[1..] + b;
      SlotsAppend(a[1..], b);
    }
  }

  /** One turn of the queue loop: the front lot is used up and popped, or reduced by all that is wanted. */
  lemma PopOnce(lots: seq<BuyLot>, q: real, price: real)
    requires AllOpen(lots) && lots != [] && q > 0.0
    ensures var take := Min(lots[0].quantity, q);
      var left := if lots[0].quantity - take == 0.0 then lots[1..]
                  else [lots[0].(quantity := lots[0].quantity - take)] + lots[1..];
      && AllOpen(left)
      && Open(Deduct(lots, q)) == Open(Deduct(left, q - take))
      && ExactGain(Consume(lots, q), price)
         == Gain(lots[0].pricePerShare, price, take) + ExactGain(Consume(left, q - take), price)
  {
    var take := Min(lots[0].quantity, q);
    DeductSplits(lots, q);
    OpenSplits(Deduct(lots, q));
    ConsumeSplits(lots, q);
    assert Consume(lots, q)[1..] == Consume(lots[1..], q - take);
    if lots[0].quantity - take != 0.0 {
      assert q - take == 0.0;
    }
  }

  /** Sells from the front of the queue; what the queue cannot supply is dropped without a word. */
  method SellFromQueue(queue: seq<Slot>, quantity: real, price: real, ghost lots: seq<BuyLot>)
    returns (left: seq<Slot>, gain: real)
    requires AllOpen(lots) && queue == Slots(lots)
    ensures left == Slots(Open(Deduct(lots, quantity)))
    ensures gain == ExactGain(Consume(lots, quantity), price)
  {
    left, gain := queue, 0.0;
    var remaining := quantity;
    ghost var now := lots;
    while remaining > 0.0 && left != []
      invariant AllOpen(now) && left == Slots(now)
      invariant Open(Deduct(lots, quantity)) == Open(Deduct(now, remaining))
      invariant ExactGain(Consume(lots, quantity), price) == gain + ExactGain(Consume(now, remaining), price)
      decreases |left| + if remaining > 0.0 then 1 else 0
    {
      PopOnce(now, remaining, price);
      var take := Min(left[0].quantity, remaining);
      gain := gain + Gain(left[0].price, price, take);
      left := left[0 := Slot(left[0].quantity - take, left[0].price)];
      remaining := remaining - take;
      if left[0].quantity == 0.0 {
        left := left[1..];
        now := now[1..];
      } else {
        now := [now[0].(quantity := now[0].quantity - take)] + now[1..];
        assert remaining == 0.0;
      }
    }
    OpenOfAllOpen(now);
  }

  lemma ReplayBuys(h: seq<Transaction>, t: Transaction)
    requires IsAcquisition(t) && RowAllowed(t)
    ensures Slots(Open(Held(h + [t]))) == Slots(Open(Held(h))) + [Slot(t.quantity, t.price)]
  {
    HeldSnoc(h, t);
    FilterAppend(Held(h), [LotOf(t)], IsOpen);
    OpenOfAllOpen([LotOf(t)]);
    SlotsAppend(Open(Held(h)), [LotOf(t)]);
  }

  lemma ReplaySells(h: seq<Transaction>, t: Transaction)
    requires IsSell(t) && RowsAllowed(h)
    ensures AllOpen(Open(Held(h)))
    ensures Open(Held(h + [t])) == Open(Deduct(Open(Held(h)), t.quantity))
    ensures Realized(h + [t]) == Realized(h) + ExactGain(Consume(Open(Held(h)), t.quantity), t.price)
  {
    HeldSnoc(h, t);
    RealizedSnoc(h, t);
    OpenIsAllOpen(Held(h));
    HeldNonNegative(h);
    OpenAfterDeduct(Held(h), t.quantity);
    ConsumeOpen(Held(h), t.quantity);
  }

  lemma ReplayKeeps(h: seq<Transaction>, t: Transaction)
    ensures !IsAcquisition(t) && !IsSell(t) ==> Held(h + [t]) == Held(h)
    ensures !IsSell(t) ==> Realized(h + [t]) == Realized(h)
    ensures Dividends(h + [t]) == Dividends(h) + (if IsDividend(t) then TxnValue(t) else 0.0)
    ensures Invested(h + [t]) == Invested(h) + (if IsAcquisition(t) then TxnValue(t) else 0.0)
  {
    HeldSnoc(h, t);
    RealizedSnoc(h, t);
    SumFilterSnoc(h, t, IsDividend, TxnValue);
    SumFilterSnoc(h, t, IsAcquisition, TxnValue);
  }

  /** The replay of a history: open slots, realised profit, dividends and total invested. */
  method Replay(h: seq<Transaction>) returns (queue: seq<Slot>, realized: real, dividends: real, invested: real)
    requires RowsAllowed(h)
    ensures queue == Slots(Open(Held(h)))
    ensures realized == Realized(h) && dividends == Dividends(h) && invested == Invested(h)
  {
    queue, realized, dividends, invested := [], 0.0, 0.0, 0.0;
    for i := 0 to |h|
      invariant queue == Slots(Open(Held(h[..i])))
      invariant realized == Realized(h[..i])
      invariant dividends == Dividends(h[..i]) && invested == Invested(h[..i])
    {
      var t := h[i];
      ghost var before := h[..i];
      TakeOneMore(h, i);
      ReplayKeeps(before, t);
      if IsAcquisition(t) {
        ReplayBuys(before, t);
        queue := queue + [Slot(t.quantity, t.price)];
        invested := invested + Value(t.price, t.quantity);
      } else if IsSell(t) {
        ReplaySells(before, t);
        var gain;
        queue, gain := SellFromQueue(queue, t.quantity, t.price, Open(Held(before)));
        realized := realized + gain;
      } else if t.kind == Dividend {
        dividends := dividends + Value(t.price, t.quantity);
      }
    }
    assert h[..|h|] == h;
  }

  // ---- Reducing lots by the total of the sells ---------------------------------------------------

  ghost predicate DistinctRows(rows: seq<Transaction>) {
    forall i, j :: 0 <= i < j < |rows| ==> rows[i].id != rows[j].id
  }

  lemma {:induction false} LotsAt(buys: seq<Transaction>)
    ensures forall k :: 0 <= k < |buys| ==> LotsOf(buys)[k] == LotOf(buys[k])
  {
    if buys != [] {
      LotsAt(buys[1..]);
    }
  }

  /** Both index loops: from position n on, each lot gives what it can until nothing more is wanted. */
  function Walk(now: seq<BuyLot>, n: nat, left: real): seq<BuyLot>
    requires n <= |now|
    decreases |now| - n
  {
    if n == |now| || left <= 0.0 then now
    else
      var take := Min(now[n].quantity, left);
      Walk(now[n := now[n].(quantity := now[n].quantity - take)], n + 1, left - take)
  }

  lemma {:induction false} WalkIsDeduct(now: seq<BuyLot>, n: nat, left: real)
    requires n <= |now|
    ensures Walk(now, n, left) == now[..n] + Deduct(now[n..], left)
    decreases |now| - n
  {
    if n == |now| || left <= 0.0 {
      assert Deduct(now[n..], left) == now[n..];
    } else {
      var take := Min(now[n].quantity, left);
      var taken := now[n].(quantity := now[n].quantity - take);
      WalkIsDeduct(now[n := taken], n + 1, left - take);
      DeductSplits(now[n..], left);
      assert now[n..][1..] == now[n + 1..] && now[n := taken][n + 1..] == now[n + 1..];
      assert now[n := taken][..n + 1] == now[..n] + [taken];
    }
  }

  lemma WholeWalk(lots: seq<BuyLot>, q: real)
    ensures Walk(lots, 0, q) == Deduct(lots, q)
  {
    WalkIsDeduct(lots, 0, q);
    assert lots[0..] == lots;
  }

  /** The `open_qty` dictionary as it starts: each purchase with its full quantity. */
  method StartOpenQty(buys: seq<Transaction>) returns (openQty: map<int, real>)
    requires DistinctRows(buys)
    ensures HoldsQuantities(openQty, buys, LotsOf(buys))
  {
    openQty := map[];
    for i := 0 to |buys|
      invariant forall j :: 0 <= j < i ==> buys[j].id in openQty && openQty[buys[j].id] == buys[j].quantity
    {
      openQty := openQty[buys[i].id := buys[i].quantity];
    }
    LotsAt(buys);
  }

  /** The dictionary says what is left of each purchase, as `lots` does. */
  ghost predicate HoldsQuantities(openQty: map<int, real>, buys: seq<Transaction>, lots: seq<BuyLot>) {
    && |lots| == |buys|
    && forall j :: 0 <= j < |buys| ==>
         buys[j].id in openQty && lots[j] == LotOf(buys[j]).(quantity := openQty[buys[j].id])
  }

  lemma HoldsAfterTaking(openQty: map<int, real>, buys: seq<Transaction>, lots: seq<BuyLot>, n: nat, left: real)
    requires DistinctRows(buys) && HoldsQuantities(openQty, buys, lots) && n < |buys|
    ensures HoldsQuantities(openQty[buys[n].id := left], buys, lots[n := lots[n].(quantity := left)])
  {
    forall j | 0 <= j < |buys| && j != n
      ensures buys[j].id != buys[n].id
    {
    }
  }

  /** Reduces the dictionary oldest first by the shares sold so far. */
  method ReduceOpenQty(openQty: map<int, real>, buys: seq<Transaction>, sold: real, ghost lots: seq<BuyLot>)
    returns (r: map<int, real>)
    requires DistinctRows(buys) && HoldsQuantities(openQty, buys, lots)
    ensures HoldsQuantities(r, buys, Deduct(lots, sold))
  {
    r := openQty;
    ghost var now := lots;
    var remaining := sold;
    var n := 0;
    while n < |buys| && remaining > 0.0
      invariant 0 <= n <= |buys| == |now|
      invariant HoldsQuantities(r, buys, now)
      invariant Walk(now, n, remaining) == Walk(lots, 0, sold)
    {
      var take := Min(r[buys[n].id], remaining);
      HoldsAfterTaking(r, buys, now, n, r[buys[n].id] - take);
      r := r[buys[n].id := r[buys[n].id] - take];
      now := now[n := now[n].(quantity := now[n].quantity - take)];
      remaining := remaining - take;
      n := n + 1;
    }
    WholeWalk(lots, sold);
  }

  /**
    The purchases reduced oldest first by the shares sold so far, read back as the lots that still hold
    something.
  */
  method ReduceOpenLots(buys: seq<Transaction>, sold: real) returns (lots: seq<BuyLot>)
    requires DistinctRows(buys)
    ensures lots == Open(Deduct(LotsOf(buys), sold))
  {
    var openQty := StartOpenQty(buys);
    openQty := ReduceOpenQty(openQty, buys, sold, LotsOf(buys));
    ghost var result := Deduct(LotsOf(buys), sold);
    lots := [];
    for i := 0 to |buys|
      invariant lots == Open(result[..i])
    {
      TakeOneMore(result, i);
      FilterAppend(result[..i], [result[i]], IsOpen);
      if openQty[buys[i].id] > 0.0 {
        lots := lots + [BuyLot(buys[i].id, buys[i].date, openQty[buys[i].id], buys[i].price)];
      }
    }
    assert result[..|buys|] == result;
  }

  // ---- Entering a transaction --------------------------------------------------------------------

  datatype EntryError = UnknownSymbol | CannotSave(reason: TaxError)

  /** The CGT written on a new row: that of the match against the lots left by all earlier sells. */
  function EntryCgt(table: seq<Transaction>, row: Transaction, isFiler: bool, brackets: seq<TaxBracket>)
    : Result<real, TaxError>
  {
    if IsSell(row) then
      var r :- FifoOutcome(BulkOpen(History(table, row.symbol)), SaleOf(row, isFiler), brackets);
      Success(r.totalCgt)
    else
      Success(0.0)
  }

  /** What `Create` returns and the table it leaves. */
  function CreateOutcome(
    table: seq<Transaction>, securities: set<string>, row: Transaction, isFiler: bool, brackets: seq<TaxBracket>)
    : (Result<Transaction, EntryError>, seq<Transaction>)
  {
    if row.symbol !in securities then (Failure(UnknownSymbol), table)
    else
      match EntryCgt(table, row, isFiler, brackets)
      case Failure(reason) => (Failure(CannotSave(reason)), table)
      case Success(cgt) => (Success(row.(cgt := cgt)), table + [row.(cgt := cgt)])
  }

  // ---- Liquidation -------------------------------------------------------------------------------

  datatype MarketHolding = MarketHolding(
    symbol: string, quantity: real, lastClose: Option<real>, unrealized: Option<real>)

  predicate Eligible(h: MarketHolding) { h.lastClose.Some? && h.quantity > 0.0 }

  function UnrealizedOrZero(h: MarketHolding): real { if h.unrealized.Some? then h.unrealized.value else 0.0 }

  /** Selling every open lot today. */
  function LiquidationSale(lots: seq<BuyLot>, close: real, today: int, isFiler: bool): Sale {
    Sale(Shares(lots), close, today, isFiler)
  }

  /** Tax on selling everything of one symbol; a symbol without a bracket counts nothing. */
  function LiquidationCgt(
    h: seq<Transaction>, close: real, today: int, isFiler: bool, brackets: seq<TaxBracket>): real
  {
    var lots := BulkOpen(h);
    if lots == [] then 0.0
    else
      var r := FifoOutcome(lots, LiquidationSale(lots, close, today, isFiler), brackets);
      if r.Success? then r.value.totalCgt else 0.0
  }

  function LiquidationTotal(
    table: seq<Transaction>, holdings: seq<MarketHolding>, today: int, isFiler: bool, brackets: seq<TaxBracket>)
    : real
    requires forall k :: 0 <= k < |holdings| ==> holdings[k].lastClose.Some?
  {
    if holdings == [] then 0.0
    else
      var last := holdings[|holdings| - 1];
      LiquidationTotal(table, holdings[..|holdings| - 1], today, isFiler, brackets)
      + LiquidationCgt(History(table, last.symbol), last.lastClose.value, today, isFiler, brackets)
  }

  lemma LiquidationSnoc(
    table: seq<Transaction>, holdings: seq<MarketHolding>, i: nat, today: int, isFiler: bool,
    brackets: seq<TaxBracket>)
    requires i < |holdings| && forall k :: 0 <= k < |holdings| ==> holdings[k].lastClose.Some?
    ensures LiquidationTotal(table, holdings[..i + 1], today, isFiler, brackets)
         == LiquidationTotal(table, holdings[..i], today, isFiler, brackets)
            + LiquidationCgt(
                History(table, holdings[i].symbol), holdings[i].lastClose.value, today, isFiler, brackets)
  {
    assert holdings[..i + 1][..i] == holdings[..i];
  }

  /** Selling exactly what is open can only fail for want of a bracket. */
  lemma LiquidationIsNeverShort(lots: seq<BuyLot>, close: real, today: int, isFiler: bool, brackets: seq<TaxBracket>)
    requires AllOpen(lots) && lots != []
    ensures var r := FifoOutcome(lots, LiquidationSale(lots, close, today, isFiler), brackets);
      r.Success? || r == Failure(NoApplicableTaxRule)
  {
    OpenOfAllOpen(lots);
    SharesNonNegative(lots[1..]);
    CgtLaws.MatchFailsExactly(lots, LiquidationSale(lots, close, today, isFiler), brackets);
  }

  // ---- Facts about queries -----------------------------------------------------------------------

  /** Ordering one symbol's rows or picking them from the ordered table gives the same history. */
  lemma HistoryFromTable(table: seq<Transaction>, symbol: string)
    ensures History(table, symbol) == ForSymbol(Chronological(table), symbol)
  {
    FilterSort(table, ByDate, SymbolIs(symbol));
  }

  lemma {:induction false} DistinctFilter(rows: seq<Transaction>, keep: Transaction -> bool)
    requires DistinctRows(rows)
    ensures DistinctRows(Filter(rows, keep))
  {
    if rows != [] {
      DistinctFilter(rows[1..], keep);
      FilterMembers(rows[1..], keep);
      forall k | 0 <= k < |Filter(rows[1..], keep)|
        ensures Filter(rows[1..], keep)[k].id != rows[0].id
      {
        assert Filter(rows[1..], keep)[k] in rows[1..];
      }
    }
  }

  lemma {:induction false} DistinctSort(rows: seq<Transaction>)
    requires DistinctRows(rows)
    ensures DistinctRows(Chronological(rows))
  {
    if rows != [] {
      DistinctSort(rows[1..]);
      SortMembers(rows[1..], ByDate);
      forall k | 0 <= k < |rows| - 1
        ensures Chronological(rows[1..])[k].id != rows[0].id
      {
        assert Chronological(rows[1..])[k] in rows[1..];
      }
      DistinctInsert(rows[0], Chronological(rows[1..]));
    }
  }

  lemma {:induction false} DistinctInsert(t: Transaction, rows: seq<Transaction>)
    requires DistinctRows(rows) && forall k :: 0 <= k < |rows| ==> rows[k].id != t.id
    ensures DistinctRows(Insert(t, rows, ByDate))
  {
    if rows != [] && !ByDate(t, rows[0]) {
      DistinctInsert(t, rows[1..]);
      var r := Insert(t, rows[1..], ByDate);
      InsertPermutes(t, rows[1..], ByDate);
      SameElements(r, [t] + rows[1..]);
      forall k | 0 <= k < |r|
        ensures r[k].id != rows[0].id
      {
        assert r[k] in [t] + rows[1..];
      }
    }
  }

  lemma HistoryRows(table: seq<Transaction>, symbol: string)
    requires RowsAllowed(table) && DistinctRows(table)
    ensures RowsAllowed(History(table, symbol))
    ensures DistinctRows(Filter(History(table, symbol), IsAcquisition))
  {
    var rows := ForSymbol(table, symbol);
    DistinctFilter(table, SymbolIs(symbol));
    DistinctSort(rows);
    DistinctFilter(History(table, symbol), IsAcquisition);
    FilterMembers(table, SymbolIs(symbol));
    SortMembers(rows, ByDate);
    forall k | 0 <= k < |History(table, symbol)|
      ensures RowAllowed(History(table, symbol)[k])
    {
      assert History(table, symbol)[k] in rows;
    }
  }

  /** A new row of one symbol is not seen by the queries for another. */
  lemma OtherSymbolsUnaffected(table: seq<Transaction>, row: Transaction, symbol: string)
    requires symbol != row.symbol
    ensures History(table + [row], symbol) == History(table, symbol)
  {
    ForSymbolSnoc(table, row, symbol);
    assert ForSymbol(table, symbol) + [] == ForSymbol(table, symbol);
  }

  /** The simulator's `lot["quantity"] -= take` over a symbol's lots. */
  method DecrementLots(lots: seq<BuyLot>, q: real) returns (r: seq<BuyLot>)
    ensures r == Deduct(lots, q)
  {
    r := lots;
    var remaining := q;
    var n := 0;
    while n < |lots| && remaining > 0.0
      invariant 0 <= n <= |lots| == |r|
      invariant Walk(r, n, remaining) == Walk(lots, 0, q)
    {
      var take := Min(r[n].quantity, remaining);
      r := r[n := r[n].(quantity := r[n].quantity - take)];
      remaining := remaining - take;
      n := n + 1;
    }
    WholeWalk(lots, q);
  }

  function LotsFor(lots: map<string, seq<BuyLot>>, symbol: string): seq<BuyLot> {
    if symbol in lots then lots[symbol] else []
  }

  // ---- The tables and the services over them -----------------------------------------------------

  class PortfolioBook {
    const brackets: seq<TaxBracket>
    const securities: set<string>
    var txns: seq<Transaction>           // in creation order
    var holdings: map<string, Holding>

    /** Every symbol's snapshot row is the one its whole history gives. */
    ghost predicate Valid()
      reads this
    {
      && RowsAllowed(txns) && DistinctRows(txns)
      && forall s :: SnapshotMatches(s)
    }

    ghost predicate SnapshotMatches(s: string)
      reads this
    {
      SnapshotOf(History(txns, s)) == if s in holdings then Some(holdings[s]) else None
    }

    constructor (brackets: seq<TaxBracket>, securities: set<string>)
      ensures Valid() && txns == [] && holdings == map[]
      ensures this.brackets == brackets && this.securities == securities
    {
      this.brackets, this.securities := brackets, securities;
      txns, holdings := [], map[];
    }

    method RefreshHoldingsSnapshot(symbol: string)
      requires RowsAllowed(txns) && DistinctRows(txns)
      modifies `holdings
      ensures var snapshot := SnapshotOf(History(txns, symbol));
        holdings == if snapshot.Some? then old(holdings)[symbol := snapshot.value] else old(holdings) - {symbol}
    {
      HistoryRows(txns, symbol);
      var queue, realized, dividends, invested := Replay(History(txns, symbol));
      SlotSums(Open(Held(History(txns, symbol))));
      var openQty, cost := SumBy(queue, SlotShares), SumBy(queue, SlotCost);
      var avgCost := AverageOf(cost, openQty);
      if openQty == 0.0 && dividends == 0.0 && realized == 0.0 {
        holdings := holdings - {symbol};
      } else {
        holdings := holdings[symbol := Holding(
          openQty, HalfEven4(avgCost), HalfEven2(invested), HalfEven2(realized), HalfEven2(dividends))];
      }
    }

    /** CGT for a sell about to be entered. */
    method ComputeSellCgt(row: Transaction, isFiler: bool) returns (r: Result<real, TaxError>)
      requires RowsAllowed(txns) && DistinctRows(txns) && IsSell(row)
      ensures r == EntryCgt(txns, row, isFiler, brackets)
    {
      var h := History(txns, row.symbol);
      HistoryRows(txns, row.symbol);
      var lots := ReduceOpenLots(Filter(h, IsAcquisition), SumBy(Filter(h, IsSell), TxnShares));
      var m := MatchFifo(lots, SaleOf(row, isFiler), brackets);
      r := if m.Success? then Success(m.value.totalCgt) else Failure(m.error);
    }

    /** Adds a row and refreshes the snapshot of its symbol. */
    method Save(entered: Transaction)
      requires Valid() && RowAllowed(entered)
      requires forall k :: 0 <= k < |txns| ==> txns[k].id != entered.id
      modifies this
      ensures Valid() && txns == old(txns) + [entered]
    {
      ghost var before := txns;
      assert forall s :: SnapshotMatches(s);
      txns := txns + [entered];
      RefreshHoldingsSnapshot(entered.symbol);
      forall s
        ensures SnapshotMatches(s)
      {
        if s != entered.symbol {
          assert old(SnapshotMatches(s));
          OtherSymbolsUnaffected(before, entered, s);
        }
      }
    }

    /** Enters a row with its CGT and refreshes the snapshot, or changes nothing. */
    method Create(row: Transaction, isFiler: bool) returns (r: Result<Transaction, EntryError>)
      requires Valid() && RowAllowed(row)
      requires forall k :: 0 <= k < |txns| ==> txns[k].id != row.id
      modifies this
      ensures Valid()
      ensures (r, txns) == CreateOutcome(old(txns), securities, row, isFiler, brackets)
      ensures r.Failure? ==> holdings == old(holdings)
    {
      if row.symbol !in securities {
        return Failure(UnknownSymbol);
      }
      var cgt := 0.0;
      if IsSell(row) {
        var sellCgt := ComputeSellCgt(row, isFiler);
        if sellCgt.Failure? {
          return Failure(CannotSave(sellCgt.error));
        }
        cgt := sellCgt.value;
      }
      var entered := row.(cgt := cgt);
      Save(entered);
      r := Success(entered);
    }

    /** One sell of the simulation: the match under both statuses, the filer's first. */
    method SimulateSell(held: seq<BuyLot>, t: Transaction) returns (e: Result<SellEvent, TaxError>)
      ensures e == SellStep(held, t, brackets)
    {
      var lots := Open(held);
      if lots == [] {
        return Success(NoLots);
      }
      var filer := MatchFifo(lots, SaleOf(t, true), brackets);
      if filer.Failure? {
        return if filer.error == NoApplicableTaxRule then Success(NoRule) else Failure(filer.error);
      }
      var nonFiler := MatchFifo(lots, SaleOf(t, false), brackets);
      if nonFiler.Failure? {
        return if nonFiler.error == NoApplicableTaxRule then Success(NoRule) else Failure(nonFiler.error);
      }
      e := Success(Taxed(filer.value, nonFiler.value));
    }

    /** The simulator's pass over the whole portfolio, all symbols interleaved. */
    method SimulatePortfolio(w: Window) returns (r: Result<SimTotals, TaxError>)
      ensures r == SimTotalsOf(Chronological(txns), brackets, w)
    {
      var rows := Chronological(txns);
      var lotsBySymbol: map<string, seq<BuyLot>> := map[];
      var totals := NO_TOTALS;
      for i := 0 to |rows|
        invariant TracksLots(lotsBySymbol, rows[..i], brackets)
        invariant SimTotalsOf(rows[..i], brackets, w) == Success(totals)
      {
        var t := rows[i];
        var held := LotsFor(lotsBySymbol, t.symbol);
        TakeOneMore(rows, i);
        SimTotalsSnoc(rows[..i], t, brackets, w);
        if IsAcquisition(t) {
          TrackRow(lotsBySymbol, rows[..i], t, held + [LotOf(t)], brackets);
          lotsBySymbol := lotsBySymbol[t.symbol := held + [LotOf(t)]];
        } else if IsSell(t) {
          var e := SimulateSell(held, t);
          if e.Failure? {
            SimFailureSpreads(rows, i + 1, brackets, w);
            return Failure(e.error);
          }
          if e.value.Taxed? {
            if Counts(t, w) {
              totals := AddSale(totals, t, e.value);
            }
            var left := DecrementLots(held, t.quantity);
            TrackRow(lotsBySymbol, rows[..i], t, left, brackets);
            lotsBySymbol := lotsBySymbol[t.symbol := left];
          } else {
            TrackRow(lotsBySymbol, rows[..i], t, held, brackets);
            TrackSame(lotsBySymbol, rows[..i], t, brackets);
          }
        } else {
          TrackSame(lotsBySymbol, rows[..i], t, brackets);
        }
      }
      assert rows[..|rows|] == rows;
      r := Success(totals);
    }

    /** What selling everything at the latest closes would cost in CGT, and what would then be left. */
    method AfterTaxUnrealized(rows: seq<MarketHolding>, today: int, isFiler: bool)
      returns (cgtIfSold: real, afterTax: real)
      requires RowsAllowed(txns) && DistinctRows(txns)
      ensures EligibleHaveClose(rows)
      ensures cgtIfSold == LiquidationTotal(txns, Filter(rows, Eligible), today, isFiler, brackets)
      ensures afterTax == SumBy(Filter(rows, Eligible), UnrealizedOrZero) - cgtIfSold
    {
      var eligible := Filter(rows, Eligible);
      EligibleHaveCloseHolds(rows);
      var grossUnrealized := SumBy(eligible, UnrealizedOrZero);
      var buys, sold := PartitionBySymbol(eligible);
      cgtIfSold := LiquidateAll(eligible, buys, sold, today, isFiler);
      afterTax := grossUnrealized - cgtIfSold;
    }

    /** The loop over the eligible holdings. */
    method LiquidateAll(
      eligible: seq<MarketHolding>, buys: map<string, seq<Transaction>>, sold: map<string, real>,
      today: int, isFiler: bool)
      returns (total: real)
      requires RowsAllowed(txns) && DistinctRows(txns)
      requires forall k :: 0 <= k < |eligible| ==> eligible[k].lastClose.Some?
      requires Partitions(txns, Symbols(eligible), buys, sold)
      ensures total == LiquidationTotal(txns, eligible, today, isFiler, brackets)
    {
      total := 0.0;
      for i := 0 to |eligible|
        invariant total == LiquidationTotal(txns, eligible[..i], today, isFiler, brackets)
      {
        LiquidationSnoc(txns, eligible, i, today, isFiler, brackets);
        assert eligible[i].symbol in Symbols(eligible);
        var cgt := LiquidateHolding(eligible[i], Symbols(eligible), buys, sold, today, isFiler);
        total := total + cgt;
      }
      assert eligible[..|eligible|] == eligible;
    }

    /** One holding of the estimate: reduce its purchases by its sells, and match what is left against one sale. */
    method LiquidateHolding(
      h: MarketHolding, ghost symbols: set<string>, buys: map<string, seq<Transaction>>, sold: map<string, real>,
      today: int, isFiler: bool)
      returns (cgt: real)
      requires RowsAllowed(txns) && DistinctRows(txns) && h.lastClose.Some?
      requires Partitions(txns, symbols, buys, sold) && h.symbol in symbols
      ensures cgt == LiquidationCgt(History(txns, h.symbol), h.lastClose.value, today, isFiler, brackets)
    {
      HistoryRows(txns, h.symbol);
      var lots := ReduceOpenLots(buys[h.symbol], sold[h.symbol]);
      if lots == [] {
        return 0.0;
      }
      OpenIsAllOpen(Deduct(LotsOf(buys[h.symbol]), sold[h.symbol]));
      LiquidationIsNeverShort(lots, h.lastClose.value, today, isFiler, brackets);
      var r := MatchFifo(lots, LiquidationSale(lots, h.lastClose.value, today, isFiler), brackets);
      cgt := if r.Success? then r.value.totalCgt else 0.0;
    }

    /** Splits the batch-loaded rows into purchases and sold quantity per held symbol. */
    method PartitionBySymbol(eligible: seq<MarketHolding>)
      returns (buys: map<string, seq<Transaction>>, sold: map<string, real>)
      ensures Partitions(txns, Symbols(eligible), buys, sold)
    {
      var symbols := Symbols(eligible);
      buys, sold := PartitionRows(symbols, Chronological(txns));
      PartitionDone(txns, symbols, buys, sold);
    }
  }

  function Symbols(rows: seq<MarketHolding>): set<string> { set k | 0 <= k < |rows| :: rows[k].symbol }

  /** For every symbol asked for: its purchases in order, and the total of its sells. */
  ghost predicate Partitions(
    table: seq<Transaction>, symbols: set<string>, buys: map<string, seq<Transaction>>, sold: map<string, real>)
  {
    && buys.Keys == symbols && sold.Keys == symbols
    && (forall s :: s in symbols ==> buys[s] == Filter(History(table, s), IsAcquisition))
    && (forall s :: s in symbols ==> sold[s] == Sold(History(table, s)))
  }

  lemma PartitionDone(
    table: seq<Transaction>, symbols: set<string>, buys: map<string, seq<Transaction>>, sold: map<string, real>)
    requires TracksBuys(symbols, buys, Chronological(table)) && TracksSold(symbols, sold, Chronological(table))
    ensures Partitions(table, symbols, buys, sold)
  {
    forall s | s in symbols
      ensures buys[s] == Filter(History(table, s), IsAcquisition) && sold[s] == Sold(History(table, s))
    {
      HistoryFromTable(table, s);
      assert buys[s] == BuysIn(Chronological(table), s) && sold[s] == SoldIn(Chronological(table), s);
    }
  }

  function BuysIn(rows: seq<Transaction>, s: string): seq<Transaction> { Filter(ForSymbol(rows, s), IsAcquisition) }
  function SoldIn(rows: seq<Transaction>, s: string): real { Sold(ForSymbol(rows, s)) }

  ghost predicate TracksBuys(symbols: set<string>, buys: map<string, seq<Transaction>>, rows: seq<Transaction>) {
    buys.Keys == symbols && forall s :: s in symbols ==> buys[s] == BuysIn(rows, s)
  }

  ghost predicate TracksSold(symbols: set<string>, sold: map<string, real>, rows: seq<Transaction>) {
    sold.Keys == symbols && forall s :: s in symbols ==> sold[s] == SoldIn(rows, s)
  }

  lemma BuysInSnoc(rows: seq<Transaction>, t: Transaction, s: string)
    ensures BuysIn(rows + [t], s)
         == BuysIn(rows, s) + if s == t.symbol && IsAcquisition(t) then [t] else []
  {
    var h := ForSymbol(rows, s);
    ForSymbolSnoc(rows, t, s);
    assert h + [] == h;
    FilterAppend(h, [t], IsAcquisition);
    assert Filter([t], IsAcquisition) == if IsAcquisition(t) then [t] else [];
  }

  lemma SoldInSnoc(rows: seq<Transaction>, t: Transaction, s: string)
    ensures SoldIn(rows + [t], s) == SoldIn(rows, s) + if s == t.symbol && IsSell(t) then t.quantity else 0.0
  {
    var h := ForSymbol(rows, s);
    ForSymbolSnoc(rows, t, s);
    assert h + [] == h;
    SumFilterSnoc(h, t, IsSell, TxnShares);
  }

  lemma BuysStep(
    symbols: set<string>, buys: map<string, seq<Transaction>>, rows: seq<Transaction>, t: Transaction,
    buys': map<string, seq<Transaction>>)
    requires TracksBuys(symbols, buys, rows)
    requires buys' == if t.symbol in symbols && IsAcquisition(t) then buys[t.symbol := buys[t.symbol] + [t]] else buys
    ensures TracksBuys(symbols, buys', rows + [t])
  {
    forall s | s in symbols
      ensures buys'[s] == BuysIn(rows + [t], s)
    {
      BuysInSnoc(rows, t, s);
      assert buys[s] + [] == buys[s];
    }
  }

  lemma SoldStep(
    symbols: set<string>, sold: map<string, real>, rows: seq<Transaction>, t: Transaction, sold': map<string, real>)
    requires TracksSold(symbols, sold, rows)
    requires sold' == if t.symbol in symbols && IsSell(t) then sold[t.symbol := sold[t.symbol] + t.quantity] else sold
    ensures TracksSold(symbols, sold', rows + [t])
  {
    forall s | s in symbols
      ensures sold'[s] == SoldIn(rows + [t], s)
    {
      SoldInSnoc(rows, t, s);
    }
  }

  lemma TracksNothing(symbols: set<string>, buys: map<string, seq<Transaction>>, sold: map<string, real>)
    requires buys.Keys == symbols && sold.Keys == symbols
    requires forall s :: s in symbols ==> buys[s] == [] && sold[s] == 0.0
    ensures TracksBuys(symbols, buys, []) && TracksSold(symbols, sold, [])
  {
  }

  method PartitionRows(symbols: set<string>, rows: seq<Transaction>)
    returns (buys: map<string, seq<Transaction>>, sold: map<string, real>)
    ensures TracksBuys(symbols, buys, rows) && TracksSold(symbols, sold, rows)
  {
    buys := map s | s in symbols :: [];
    sold := map s | s in symbols :: 0.0;
    TracksNothing(symbols, buys, sold);
    var i := 0;
    ghost var seen: seq<Transaction> := [];
    while i < |rows|
      invariant 0 <= i <= |rows| && seen == rows[..i]
      invariant TracksBuys(symbols, buys, seen) && TracksSold(symbols, sold, seen)
    {
      buys, sold := PartitionRow(symbols, buys, sold, rows[i], seen);
      seen := seen + [rows[i]];
      i := i + 1;
    }
    assert seen == rows;
  }

  method PartitionRow(
    symbols: set<string>, buys: map<string, seq<Transaction>>, sold: map<string, real>, t: Transaction,
    ghost before: seq<Transaction>)
    returns (buys': map<string, seq<Transaction>>, sold': map<string, real>)
    requires TracksBuys(symbols, buys, before) && TracksSold(symbols, sold, before)
    ensures TracksBuys(symbols, buys', before + [t]) && TracksSold(symbols, sold', before + [t])
  {
    buys', sold' := buys, sold;
    if t.symbol in symbols {
      if IsSell(t) {
        sold' := sold[t.symbol := sold[t.symbol] + t.quantity];
      } else if IsAcquisition(t) {
        buys' := buys[t.symbol := buys[t.symbol] + [t]];
      }
    }
    BuysStep(symbols, buys, before, t, buys');
    SoldStep(symbols, sold, before, t, sold');
  }

  ghost predicate EligibleHaveClose(rows: seq<MarketHolding>) {
    forall k :: 0 <= k < |Filter(rows, Eligible)| ==> Filter(rows, Eligible)[k].lastClose.Some?
  }

  lemma EligibleHaveCloseHolds(rows: seq<MarketHolding>)
    ensures EligibleHaveClose(rows)
  {
    FilterMembers(rows, Eligible);
    forall k | 0 <= k < |Filter(rows, Eligible)|
      ensures Filter(rows, Eligible)[k].lastClose.Some?
    {
      assert Filter(rows, Eligible)[k] in Filter(rows, Eligible);
    }
  }

  // ---- The simulator's dictionary ----------------------------------------------------------------

  /** The dictionary holds, for every symbol, what the simulator's walk of that symbol alone would. */
  ghost predicate TracksLots(lots: map<string, seq<BuyLot>>, rows: seq<Transaction>, brackets: seq<TaxBracket>) {
    forall s :: LotsFor(lots, s) == SimHeld(ForSymbol(rows, s), brackets)
  }

  lemma TrackRow(
    lots: map<string, seq<BuyLot>>, rows: seq<Transaction>, t: Transaction, left: seq<BuyLot>,
    brackets: seq<TaxBracket>)
    requires TracksLots(lots, rows, brackets)
    requires var held := LotsFor(lots, t.symbol);
      left == if IsAcquisition(t) then held + [LotOf(t)]
              else if IsSell(t) && IsTaxed(SellStep(held, t, brackets)) then Deduct(held, t.quantity)
              else held
    ensures TracksLots(lots[t.symbol := left], rows + [t], brackets)
  {
    forall s
      ensures LotsFor(lots[t.symbol := left], s) == SimHeld(ForSymbol(rows + [t], s), brackets)
    {
      ForSymbolSnoc(rows, t, s);
      assert LotsFor(lots, s) == SimHeld(ForSymbol(rows, s), brackets);
      if s == t.symbol {
        SimHeldSnoc(ForSymbol(rows, s), t, brackets);
      } else {
        assert ForSymbol(rows, s) + [] == ForSymbol(rows, s);
      }
    }
  }

  /** A row that changes no lots: a dividend, or a sell that is skipped. */
  lemma TrackSame(lots: map<string, seq<BuyLot>>, rows: seq<Transaction>, t: Transaction, brackets: seq<TaxBracket>)
    requires TracksLots(lots, rows, brackets) && !IsAcquisition(t)
    requires !(IsSell(t) && IsTaxed(SellStep(LotsFor(lots, t.symbol), t, brackets)))
    ensures TracksLots(lots, rows + [t], brackets)
  {
    var held := LotsFor(lots, t.symbol);
    TrackRow(lots, rows, t, held, brackets);
    forall s
      ensures LotsFor(lots, s) == SimHeld(ForSymbol(rows + [t], s), brackets)
    {
      assert LotsFor(lots[t.symbol := held], s) == LotsFor(lots, s);
    }
  }

  /** A sell that ends the simulation ends it whatever follows. */
  lemma {:induction false} SimFailureSpreads(rows: seq<Transaction>, k: nat, brackets: seq<TaxBracket>, w: Window)
    requires k <= |rows| && SimTotalsOf(rows[..k], brackets, w).Failure?
    ensures SimTotalsOf(rows, brackets, w) == Failure(SimTotalsOf(rows[..k], brackets, w).error)
  {
    if k == |rows| {
      assert rows[..k] == rows;
    } else {
      assert rows[..|rows| - 1][..k] == rows[..k];
      SimFailureSpreads(rows[..|rows| - 1], k, brackets, w);
    }
  }
}
