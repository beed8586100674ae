# Portfolio tax, backtest and billing: a model and its proofs

This project models the hard logic of a Pakistan Stock Exchange portfolio application in Dafny and
proves what it promises.  Seven parts are covered.

- **The FIFO ledger and capital gains tax** (`lots`, `cgt`, `cgt_laws`, `tax_table`, `tax_meaning`, `ledger`,
  `ledger_laws`, `simulator_laws`, `portfolio`, `portfolio_laws`, `account_laws`).  The question "which lots are still
  open" is answered by the application in three ways: a replayed queue, a bulk deduction of all earlier
  sells, and a walk that decrements lots in place.  All three are reduced to one function, `Lots.Deduct`,
  and each is shown to agree with the others exactly when a stated condition holds.  The tax written on a
  sell is shown to be the tax the simulator recomputes for it later.
- **The backtest engine** (`engine`, `engine_laws`, `run_laws`, `trade_laws`): an invariant of every state,
  the cash identity, no look-ahead, drawdown as the deepest fall, and for every trade the signals, prices
  and money behind it.
- **Indicators** (`indicators`, `indicator_laws`, `indicator_meaning`): the array loops compute closed
  specifications, which are prefix stable, stay in range, ignore scale and mean what their names say.
- **Strategies and the strategy builder** (`strategies`, `strategy_builder`, `signal_laws`): causality,
  agreement of the closures' own flag with the engine's position, the time stop, and exactly when each
  strategy is in the market.
- **Price adjustment** (`adjustments`, `adjustment_laws`, `event_laws`, `folds`): the one-pass pointer
  algorithm refines the quadratic algorithm of its documentation, and a holding keeps its value through
  every split, bonus and rights issue.
- **Goals** (`tvm`, `tvm_laws`, `goals`, `goal_laws`): the closed form is the month-by-month account, the
  bisection encloses every exact rate, and it is stated exactly when a bad rating means a missed goal and
  when the advice asks for more and is enough.
- **Billing** (`billing`, `billing_laws`): what holds over every run of sign-ups, checkouts and callbacks.

Code that changes state is a class or a method with loops, proved against a specification function;
the lemmas in the `_laws` and `_meaning` files are about those functions.  What each function computes is
also stated without naming its body: in the fields of the result, in plain arithmetic on the inputs and
in the figures of the source.

## How the source is read

- Money, prices and indicator values are exact reals.  Decimal rounding is explicit (`Rounding`): the tax
  engine and the price adjustment round halves away from zero, the snapshot, the savings and the suggested
  contribution round halves to even, as the source's `quantize` and `round` calls do.
- Dates are day numbers, users, rows and lots are integers (only order and equality matter), a table is a
  sequence in creation order, and a service call is one atomic step.
- `sqrt` is an arbitrary function parameter; every law about Bollinger bands holds for all of them.
- Human-readable reasons and messages are shortened to fixed strings.
- `Entry.bar`, `Trade.entryBar`, `Trade.exitBar` and `UserSubscription.source` are bookkeeping that the
  source does not store; no decision reads them.

Where the source's documentation and its code disagree, the code is modelled:

- A sell that no lots cover raises in the simulator (only a missing bracket is caught), while a sell of a
  symbol with no open lot at all is skipped in silence (`SimulatorLaws.SimulationFailsExactly`).
- `final_equity_pkr` is the last mark before the forced exit, so it exceeds the final cash by that exit's
  commission (`EngineLaws.LedgerIdentity`).
- Stripping time stops is called parser-only but is used at run time; for an `all_of` group it changes
  the outcome (`StrategyBuilder.StripKeepsAllOfExactly`).
- "The most recent close is never adjusted" fails when an event is dated after the last price
  (`AdjustmentLaws.NewestRowIsAdjustedByALaterEvent`).
- The comment on the bisection says 60 iterations, the code does 80.
- `required_cagr` is documented as None when the goal is funded or impossible to reach; it is also None when
  every rate searched overshoots the target, and the summary then says that no rate reaches it
  (`GoalLaws.NoRateExactly`, `GoalLaws.EasyGoalIsRatedUnrealistic`).
- The suggested extension is documented as landing at the feasible rate and the suggested contribution at
  the stretch rate; without a rate they are a fixed twelve months, which may fall short, and a contribution
  for 12% (`GoalLaws.ExtensionReachesExactly`, `GoalLaws.TwelveMonthsCanFallShort`).
- `vol_ma` documents None for its warm-up and returns 0.0.

Properties that turned out false of the code are given with a concrete failing input and the exact
condition under which the code meets them:

- Bulk deduction leaves the replay's lots: fails in `LedgerLaws.UncoveredSellIsForgiven`, holds exactly as
  `LedgerLaws.BulkAgreesWithReplayExactly` says.
- The simulator's walk leaves the replay's lots: `SimulatorLaws.SkippedSellKeepsItsLots`, and, on a ledger
  accepted row by row, under the seeded table among others, `PortfolioLaws.BackDatedPurchaseHidesASale`;
  exactly, `SimulatorLaws.SimulatorAgreesWhenTaxable`.
- Accepted custom rules never raise: `StrategyBuilder.AcceptedRulesCanFail`; exactly,
  `StrategyBuilder.StepFailsExactly`, `StrategyBuilder.RunFailsExactly` and `StrategyBuilder.RefusedExactly`.
- Stripping time stops keeps an all_of group's outcome: `StrategyBuilder.StrippingFiresAnAllOf` and
  `StrategyBuilder.StrippingUncoversAnError`; exactly, `StrategyBuilder.StripKeepsAllOfExactly`.
- The future value rises with the rate: `TvmLaws.FirstContributionIgnoresRate`; exactly,
  `TvmLaws.FutureValueGrowsWithRate`, and for the bisection `TvmLaws.PrecisionExactly`.
- A badly rated goal is missed at 10%: `GoalLaws.EasyGoalIsRatedUnrealistic`; exactly,
  `GoalLaws.BadRatingMissesExactly`.
- The suggested contribution exceeds the present one: `GoalLaws.SuggestionCanBeThePresentOne` and
  `GoalLaws.EasyGoalIsRatedUnrealistic`; exactly, `GoalLaws.SuggestionExceedsExactly` and, over the whole
  analysis, `GoalLaws.AdviceAsksForMoreExactly`.
- The suggested extension makes 8% enough: `GoalLaws.TwelveMonthsCanFallShort`; exactly,
  `GoalLaws.ExtensionReachesExactly`.
- An indicator's entry does not depend on later bars: `IndicatorLaws.WrappedAtrLooksAhead`; exactly,
  `IndicatorLaws.AtrStableExactly`.
- Realized profit is the reported gains up to rounding: `SimulatorLaws.SameDayIdsMatter`; the match sells the
  replay's lots exactly as `SimulatorLaws.MatchSellsReplayLotsExactly` says, and
  `SimulatorLaws.ProfitDriftInGeneral` says by how much the two differ when it does not.
- A liquidation sells the quantity the snapshot shows: `LedgerLaws.UncoveredSellIsForgiven`; exactly,
  `PortfolioLaws.LiquidationSellsTheSnapshot`.
- The newest row keeps its close: `AdjustmentLaws.NewestRowIsAdjustedByALaterEvent`; exactly,
  `AdjustmentLaws.RowKeepsItsCloseExactly`, and as reported `AdjustmentLaws.ReportedCloseIsKeptExactly`.
- The order in which events are listed does not matter: `AdjustmentLaws.MixedTiesDependOnOrder`; exactly,
  `AdjustmentLaws.OrderMattersExactly`.

## Model

| member | source | states |
|---|---|---|
| `Rounding.NearestHalfUp` | psx-api/psx_api/tax/cgt.py:102-103 | a nearest integer, and on a tie the one farther from zero |
| `Rounding.NearestHalfUpIsUnique` | psx-api/psx_api/tax/cgt.py:102-103 | that description leaves only one integer |
| `Rounding.NearestHalfEven` | psx-api/psx_api/services/transaction_service.py:297-300 | a nearest integer, and on a tie the even one (`quantize` without a mode) |
| `Rounding.HalfUp2Monotone` | psx-api/psx_api/tax/cgt.py:102-103 | rounding to paisa never reverses an order |
| `Rounding.SplitRounding` | psx-api/psx_api/tax/cgt.py:272-283 | rounding two parts separately is within one paisa of rounding the whole |
| `Sorting.SortSorts` | psx-api/psx_api/tax/cgt.py:216 | the sort puts its input in key order |
| `Sorting.FilterSort` | psx-api/psx_api/services/transaction_service.py:174-186 | the order is stable: selecting rows and ordering them commute |
| `Lots.ConsumeTotal` | psx-api/psx_api/tax/cgt.py:223-265 | a sale takes its quantity, or everything when the open lots hold less |
| `Lots.ConsumeIsPrefix` | psx-api/psx_api/tax/cgt.py:223-265 | it takes a prefix of the open lots, all but the last of them whole |
| `Lots.DeductConserves` | psx-api/psx_api/services/transaction_service.py:192-197 | deducting removes exactly the shares asked for, as far as there are any |
| `Lots.DeductConservesCost` | psx-api/psx_api/services/transaction_service.py:262-269 | cost before is cost of what is taken plus cost of what is left |
| `Lots.DeductTwice` | psx-api/psx_api/services/transaction_service.py:189-197 | deducting two amounts in turn leaves what deducting their sum leaves |
| `Lots.DeductAppend` | psx-api/psx_api/services/transaction_service.py:257-269 | lots bought later are untouched while earlier ones cover the sale |
| `Cgt.FindBracketIsMostSpecific` | psx-api/psx_api/tax/cgt.py:122-156 | fails only when no bracket matches; otherwise returns a matching one at least as narrow, holding range first, as every other |
| `Cgt.TiesGoToTheFirst` | psx-api/psx_api/tax/cgt.py:155-156 | of equally specific brackets the first listed wins |
| `Cgt.MatchLot` | psx-api/psx_api/tax/cgt.py:229-262 | one matched lot: its rate, its tax and its failure for want of a rule |
| `Cgt.MatchFifo` | psx-api/psx_api/tax/cgt.py:195-285 | the matching loop computes the outcome the laws below describe, errors included |
| `CgtLaws.MatchIgnoresLotOrder` | psx-api/psx_api/tax/cgt.py:214-216 | with distinct ids the result depends only on which lots are passed |
| `CgtLaws.MatchUsesOldestFirst` | psx-api/psx_api/tax/cgt.py:204-265 | a successful match is a prefix of the open lots oldest first, all but the last whole, adding up to the sale |
| `CgtLaws.MatchFailsExactly` | psx-api/psx_api/tax/cgt.py:211-270 | when each of the three errors is raised, if and only if, and the shortfall reported |
| `TaxMeaning.MatchIsRecorded` | psx-api/psx_api/tax/cgt.py:204-265 | every record of a successful match is part of a lot that was passed, with its gain to the nearest paisa and, on a gain, the rate of the bracket in force and that percentage of the gain to the nearest paisa, ties up; else rate and tax are 0; older open lots were sold whole first |
| `TaxMeaning.TotalsOfRecords` | psx-api/psx_api/tax/cgt.py:266-285 | the records add up to the quantity sold, the gain and the tax; the average price is their cost over their shares to the fourth place |
| `TaxMeaning.PairIsTaxed` | psx-api/psx_api/tax/cgt.py:162-192 | the tax on a single pair in every case: percentage of the gain to the nearest paisa, 0 without a gain, or one of the two errors |
| `TaxMeaning.LookupIsInForce` | psx-api/psx_api/tax/cgt.py:106-156 | the bracket found is in force on both inclusive ranges, and no other in force has a narrower range of days held, or the same and a shorter time; none is found when none is in force |
| `CgtLaws.StatusDoesNotAffectCover` | psx-api/psx_api/services/tax_simulator_service.py:178-195 | a sale that matches under one status can fail under the other only for want of a bracket |
| `CgtLaws.MatchedLotAgreesWithCalculateCgt` | psx-api/psx_api/tax/cgt.py:162-192 | the standalone calculation and the matching loop tax a lot alike |
| `CgtLaws.FillCgtBounds` | psx-api/psx_api/tax/cgt.py:233-247 | with rates from 0 to 100 a matched lot pays between nothing and its rounded gain |
| `CgtLaws.TotalsAreExact` | psx-api/psx_api/tax/cgt.py:272-283 | the totals are the paisa of the lots added up; the final rounding changes nothing |
| `CgtLaws.GainDrift` | psx-api/psx_api/tax/cgt.py:233-273 | the rounded gain differs from the exact one by at most half a paisa per matched lot |
| `CgtLaws.SellingInTwoSteps` | psx-api/psx_api/tax/cgt.py:204-285 | selling in two steps from the remaining lots, re-sorted, succeeds exactly when selling at once does, with a tax within one paisa |
| `CgtLaws.TwoStepsSucceedTogether` | psx-api/psx_api/tax/cgt.py:216-270 | selling in two steps succeeds if and only if selling at once does |
| `CgtLaws.TwoStepsTaxWithinOnePaisa` | psx-api/psx_api/tax/cgt.py:216-273 | and has the same exact gain and a tax within one paisa |
| `CgtLaws.TwoStepFills` | psx-api/psx_api/tax/cgt.py:223-265 | the two steps take the same shares of every lot; at most one lot is split |
| `CgtLaws.MatchingWhatIsLeft` | psx-api/psx_api/tax/cgt.py:208-216 | what a first sale leaves is still in match order for the second |
| `TaxTable.SeedHasExactlyOneMatch` | psx-api/alembic/versions/0006_create_tax_rules.py:60-115 | from July 2022 on exactly one seeded bracket matches, for every status and holding period |
| `TaxTable.SeedLookup` | psx-api/alembic/versions/0006_create_tax_rules.py:60-115 | which bracket is found, and that nothing is found before July 2022 or for negative holding periods |
| `TaxMeaning.SeedRates` | psx-api/alembic/versions/0006_create_tax_rules.py:60-115 | the seeded rate per cent for every date, status and holding period; a non-filer pays double until July 2024 |
| `TaxTable.SeedIsFair` | psx-api/alembic/versions/0006_create_tax_rules.py:60-115 | both statuses are covered alike and a filer never has the higher rate |
| `TaxTable.SeedRatesInRange` | psx-api/alembic/versions/0006_create_tax_rules.py:51 | every seeded rate is a percentage |
| `LedgerLaws.CoveredAtEveryPoint` | psx-api/psx_api/services/transaction_service.py:261-269 | the recursive notion of a covered history is: no point has sold more than was bought |
| `LedgerLaws.ReplayIsOneDeduction` | psx-api/psx_api/services/transaction_service.py:257-269 | the replay of any history, covered or not, is one deduction from all purchases |
| `LedgerLaws.BulkAgreesWithReplayExactly` | psx-api/psx_api/services/transaction_service.py:189-208 | bulk deduction and replay leave the same open lots if and only if the net position never dips below zero and its end; otherwise the replay holds more |
| `LedgerLaws.UncoveredSellIsForgiven` | psx-api/psx_api/services/transaction_service.py:262-263 | a history where they differ: an uncovered remainder is dropped by the replay only |
| `LedgerLaws.CoveredAgrees` | psx-api/psx_api/services/transaction_service.py:189-208 | on covered histories both are the deduction of everything sold |
| `LedgerLaws.ReplayConserves` | psx-api/psx_api/services/transaction_service.py:257-275 | on every history realized profit plus total invested is matched proceeds plus cost of open lots |
| `LedgerLaws.CoveredConservation` | psx-api/psx_api/services/transaction_service.py:257-275 | on covered histories these are the full sell proceeds |
| `SimulatorLaws.SimulatorIsOneDeduction` | psx-api/psx_api/services/tax_simulator_service.py:152-215 | on a covered history the in-place walk is one deduction of what was sold and not skipped |
| `SimulatorLaws.SimulatorAgreesExactly` | psx-api/psx_api/services/tax_simulator_service.py:194-215 | it holds exactly the skipped shares more than the replay, and has the replay's lots if and only if it skipped none |
| `SimulatorLaws.SimulatorAgreesWhenTaxable` | psx-api/psx_api/services/tax_simulator_service.py:162-215 | on what can be looked up beforehand: it has the replay's lots if and only if every gain the recorded sells realize has a bracket under both statuses |
| `SimulatorLaws.SkippedSellKeepsItsLots` | psx-api/psx_api/services/tax_simulator_service.py:194-195 | where they differ: lots sold at a gain without a bracket stay open in the simulator |
| `SimulatorLaws.EarlySaleIsSkipped` | psx-api/alembic/versions/0006_create_tax_rules.py:60-115 | under the seeded table every sale at a gain before July 2022 is one |
| `SimulatorLaws.SimulationFailsExactly` | psx-api/psx_api/services/tax_simulator_service.py:162-195 | a simulation fails if and only if some sell, in the state then reached, finds open lots but too few, all of them taxable for a filer |
| `SimulatorLaws.CoveredSimulationCompletes` | psx-api/psx_api/services/tax_simulator_service.py:162-195 | which never happens when each symbol's sells are covered, whatever was skipped before |
| `SimulatorLaws.ThreeFormsAgree` | psx-api/psx_api/services/tax_simulator_service.py:152-215 | covered and always taxable: queue replay, bulk deduction and in-place walk leave the same open lots in the same order |
| `SimulatorLaws.SeededHistoryIsTaxable` | psx-api/alembic/versions/0006_create_tax_rules.py:60-115 | with the seeded table every chronological history selling since July 2022 is always taxable |
| `SimulatorLaws.TaxedSellFavoursFiler` | psx-api/psx_api/services/tax_simulator_service.py:176-201 | a filer pays no more on any sell, on the same gross gain |
| `SimulatorLaws.SavingsAreNeverNegative` | psx-api/psx_api/services/tax_simulator_service.py:84-106 | savings over any history of one portfolio are non-negative, rounded or not |
| `SimulatorLaws.MatchSellsReplayLotsExactly` | psx-api/psx_api/tax/cgt.py:214-223 | for every quantity the match takes the same parts of the same lots as the replay, if and only if the lots the replay holds open are in match order |
| `SimulatorLaws.ProfitDriftInGeneral` | psx-api/psx_api/services/transaction_service.py:257-271 | whenever the match can serve every sell, the gains it reports are the replay's realized profit plus the gap that the two orders make, within half a paisa per lot matched |
| `SimulatorLaws.ProfitDrift` | psx-api/psx_api/services/transaction_service.py:257-271 | with the open lots in match order at every sell, realized profit itself is within half a paisa per lot of the reported gains |
| `SimulatorLaws.CreationOrderIsMatchOrder` | psx-api/psx_api/tax/cgt.py:214-216 | which is so at every sell if same-day purchases have ids in creation order |
| `SimulatorLaws.SameDayIdsMatter` | psx-api/psx_api/tax/cgt.py:214-216 | two lots of one day out of match order, at different prices: a profit of 50 in the replay, a loss of 50 in the match |
| `Portfolio.SellFromQueue` | psx-api/psx_api/services/transaction_service.py:262-269 | the inner queue loop leaves and gains what the deduction says, an empty queue included |
| `Portfolio.Replay` | psx-api/psx_api/services/transaction_service.py:252-275 | the outer loop: open slots, realized profit, dividends and total invested |
| `Portfolio.ReduceOpenQty` | psx-api/psx_api/services/transaction_service.py:189-197 | the dictionary reduced oldest first holds the deducted quantities |
| `Portfolio.ReduceOpenLots` | psx-api/psx_api/services/transaction_service.py:189-208 | read back as lots: the open part of the deduction |
| `Portfolio.DecrementLots` | psx-api/psx_api/services/tax_simulator_service.py:207-215 | the in-place lot walk is the deduction |
| `Portfolio.LiquidationIsNeverShort` | psx-api/psx_api/services/portfolio_summary_service.py:241-253 | selling exactly what is open can only fail for want of a bracket |
| `Portfolio.PortfolioBook.RefreshHoldingsSnapshot` | psx-api/psx_api/services/transaction_service.py:235-310 | the snapshot row is set, or removed when nothing is left, and no other row changes |
| `Portfolio.PortfolioBook.ComputeSellCgt` | psx-api/psx_api/services/transaction_service.py:160-233 | the tax of a new sell against the lots left by all recorded ones |
| `Portfolio.PortfolioBook.Create` | psx-api/psx_api/services/transaction_service.py:125-151 | appends the row with its tax, keeps every snapshot up to date, or changes nothing and says why |
| `Portfolio.PortfolioBook.SimulateSell` | psx-api/psx_api/services/tax_simulator_service.py:162-195 | one simulated sell: taxed under both statuses, skipped, or raised |
| `Portfolio.PortfolioBook.SimulatePortfolio` | psx-api/psx_api/services/tax_simulator_service.py:117-217 | the transaction loop over all symbols computes the specified totals |
| `Portfolio.PortfolioBook.AfterTaxUnrealized` | psx-api/psx_api/services/portfolio_summary_service.py:166-258 | the liquidation estimate over eligible holdings |
| `Portfolio.PortfolioBook.PartitionBySymbol` | psx-api/psx_api/services/portfolio_summary_service.py:200-209 | the one-pass partition gives each symbol its purchases in order and its sold total |
| `AccountLaws.RowMovesShares` | psx-api/psx_api/services/transaction_service.py:252-271 | what each kind of row does to the lots held |
| `AccountLaws.SnapshotIsConserved` | psx-api/psx_api/services/transaction_service.py:273-308 | the row shown: shares left, their average cost, money put in, dividends, and the profit at which money in, money out and cost left balance, each rounded half to even |
| `AccountLaws.NothingShownExactly` | psx-api/psx_api/services/transaction_service.py:287-290 | no row exactly when nothing is open, nothing was paid and the matched proceeds are the money put in |
| `AccountLaws.EntryIsTaxed` | psx-api/psx_api/services/transaction_service.py:125-151 | when entering a row is refused, and what it is saved with |
| `AccountLaws.TaxedUnderBoth` | psx-api/psx_api/services/tax_simulator_service.py:177-193 | a taxed sell carries the two matches of the whole sale against the lots open |
| `AccountLaws.SimTotalsAreSums` | psx-api/psx_api/services/tax_simulator_service.py:117-217 | all seven totals are sums over the taxed sells from the first to the last day of the window, both included |
| `AccountLaws.PortfoliosAddUp` | psx-api/psx_api/services/tax_simulator_service.py:60-81 | over several portfolios each total is the sum of theirs |
| `AccountLaws.StoredTaxIsSum` | psx-api/psx_api/services/transaction_service.py:136-147 | the tax on the books of a window is that stored on its sells, both ends included |
| `AccountLaws.LiquidationTaxIsSum` | psx-api/psx_api/services/portfolio_summary_service.py:218-250 | the tax of a liquidation is that of selling every lot left by itself, at the close, today |
| `AccountLaws.EstimateCounts` | psx-api/psx_api/services/portfolio_summary_service.py:171-182 | which holdings are counted, and for how much before tax |
| `AccountLaws.LiquidationTotalIsSum` | psx-api/psx_api/services/portfolio_summary_service.py:211-258 | and for several holdings the sum of theirs |
| `PortfolioLaws.CreateKeepsOrder` | psx-api/psx_api/services/transaction_service.py:125-151 | the table a call leaves, saved or refused, was entered in order if the one it found was and the row is not back-dated |
| `PortfolioLaws.StoredTaxIsSimulatedTax` | psx-api/psx_api/services/tax_simulator_service.py:163-215 | the tax stored with any sell is what the simulator recomputes for it under that status, same-day lots included |
| `PortfolioLaws.BackDatedPurchaseHidesASale` | psx-api/psx_api/services/tax_simulator_service.py:163-195 | not so after a back-dated purchase: under a table that starts in July 2022 a sale accepted before it is skipped by the simulator, which keeps all lots |
| `TaxTable.SeedStartsInJuly2022` | psx-api/alembic/versions/0006_create_tax_rules.py:60-115 | as the seeded one does |
| `PortfolioLaws.SimulatedTotalIsStoredTotal` | psx-api/psx_api/services/tax_simulator_service.py:197-205 | and so for the totals of any window |
| `PortfolioLaws.LiquidationTaxesEveryLot` | psx-api/psx_api/services/portfolio_summary_service.py:241-250 | a liquidation matches every open lot whole |
| `PortfolioLaws.LiquidationSellsTheSnapshot` | psx-api/psx_api/services/portfolio_summary_service.py:218-244 | it sells the quantity the snapshot shows if and only if the history never dips below where it ends, so on every covered one |
| `PortfolioLaws.FilingNeverCosts` | psx-api/psx_api/services/tax_simulator_service.py:60-106 | filer savings over any number of portfolios are non-negative, rounded or not |
| `Engine.Run` | psx-api/psx_api/backtest/engine.py:94-241 | the bar loop computes the step machine's outcome |
| `EngineLaws.EveryStateIsSound` | psx-api/psx_api/backtest/engine.py:126-231 | every state is all cash or all shares, and capital plus net profits, and capital compounded over the trades, are both the cost basis |
| `EngineLaws.OnlyTheStrategyFails` | psx-api/psx_api/backtest/engine.py:148-231 | with positive prices no step fails unless the strategy does |
| `EngineLaws.RunEndsFlat` | psx-api/psx_api/backtest/engine.py:147-178 | a run ends with no position |
| `EngineLaws.LedgerIdentity` | psx-api/psx_api/backtest/engine.py:148-241 | final cash is capital plus net profits and capital compounded trade by trade; reported equity exceeds it by the forced exit's commission |
| `TradeLaws.EveryTradeIsRight` | psx-api/psx_api/backtest/engine.py:147-231 | every trade of every run: bought at the open after a long signal, sold at the open after a flat one or at the last close; gross, commissions, net, return and days from its own prices, quantity and dates; one at a time, each spending all the money made so far |
| `TradeLaws.SignalsAreActedOn` | psx-api/psx_api/backtest/engine.py:180-231 | asked long it is in at the next bar, asked flat it is out, and otherwise nothing moves |
| `TradeLaws.EveryPointIsMarked` | psx-api/psx_api/backtest/engine.py:126-142 | each point of the curve is the cash and the shares held at that bar's close |
| `TradeLaws.EveryPointFallsFromItsPeak` | psx-api/psx_api/backtest/engine.py:131-142 | its drawdown is the percentage by which it lies below the highest equity so far |
| `RunLaws.NoLookAhead` | psx-api/psx_api/backtest/engine.py:123-231 | stopping after bar k gives the first k+1 points of the curve of any longer run |
| `RunLaws.DrawdownIsDeepestFall` | psx-api/psx_api/backtest/engine.py:131-142 | a point's drawdown is its fall from an earlier peak, at least every other earlier fall, in [0, 100) |
| `RunLaws.MaxDrawdownIsDeepestFall` | psx-api/psx_api/backtest/metrics.py:63 | the maximum drawdown is the largest fall between any two points, attained |
| `RunLaws.FlagAgreesWithPosition` | psx-api/psx_api/backtest/engine.py:180-231 | a strategy that records its last answer knows at every call whether a position is held |
| `Indicators.Sma` | psx-api/psx_api/indicators/compute.py:40-52 | the rolling sum is the mean of the window at every index |
| `Indicators.Ema` | psx-api/psx_api/indicators/compute.py:55-70 | the loop computes the exponential mean seeded by the first window |
| `Indicators.Rsi` | psx-api/psx_api/indicators/compute.py:76-104 | the loop computes Wilder's index from the specified averages |
| `Indicators.Macd` | psx-api/psx_api/indicators/compute.py:107-130 | lines, signal on the populated tail re-aligned, histogram, and when it raises |
| `Indicators.Stochastic` | psx-api/psx_api/indicators/compute.py:133-156 | %K from window extremes, %D on the populated tail re-aligned |
| `Indicators.BollingerBands` | psx-api/psx_api/indicators/compute.py:162-179 | the bands around the window mean for any square root function |
| `Indicators.Atr` | psx-api/psx_api/indicators/compute.py:182-205 | Wilder smoothing of the true range; a negative period wraps around, and when it raises |
| `Indicators.Obv` | psx-api/psx_api/indicators/compute.py:211-226 | the running signed volume |
| `Indicators.VolMa` | psx-ingest/psx_ingest/anomaly/features.py:36-49 | the second sliding window has the value of the first at every index, 0.0 in warm-up, and raises exactly for a window below one on a non-empty input |
| `IndicatorMeaning.SmaIsAverage` | psx-api/psx_api/indicators/compute.py:40-52 | a moving average times its length is the sum of the last values |
| `IndicatorMeaning.EmaWeighs` | psx-api/psx_api/indicators/compute.py:55-70 | the exponential mean starts at the mean of the first values and then weighs the new one 2 in period + 1 |
| `IndicatorMeaning.MacdIsDifference` | psx-api/psx_api/indicators/compute.py:114-130 | the MACD line is the fast mean less the slow one, the histogram the line less its signal |
| `IndicatorMeaning.SignalIsEmaOfMacd` | psx-api/psx_api/indicators/compute.py:120-126 | the signal is the exponential mean of that line from where it begins |
| `IndicatorMeaning.RsiIsShare` | psx-api/psx_api/indicators/compute.py:93-103 | the index is the share of the average rise in average rise and fall, in per cent; 100 when both are zero |
| `IndicatorMeaning.AveragesOfMoves` | psx-api/psx_api/indicators/compute.py:84-102 | where the averages start and how they weigh a new move |
| `IndicatorMeaning.RsiEndsExactly` | psx-api/psx_api/indicators/compute.py:84-103 | on the closes alone: 100 if and only if no remembered move is a fall, 0 if and only if one is and none is a rise |
| `IndicatorMeaning.KIsPlaceInRange` | psx-api/psx_api/indicators/compute.py:144-148 | %K is where the close stands between the window's least low and greatest high, in per cent; 50 when they are equal |
| `IndicatorMeaning.DIsAverageOfK` | psx-api/psx_api/indicators/compute.py:149-156 | %D is the moving average of the %K values from where they begin |
| `IndicatorMeaning.BandsAreDeviations` | psx-api/psx_api/indicators/compute.py:162-179 | the bands lie numStd root mean squared deviations above and below the moving average |
| `IndicatorMeaning.TrueRangeIsGreatest` | psx-api/psx_api/indicators/compute.py:194-197 | the true range is the greatest of the bar's range and its distances to the close before |
| `IndicatorMeaning.AtrWeighs` | psx-api/psx_api/indicators/compute.py:198-205 | its average starts at the mean of the first ranges and then weighs the new one 1 in period |
| `IndicatorMeaning.NegativeAtrWeighs` | psx-api/psx_api/indicators/compute.py:198-205 | for a negative period -m the smoothing starts before the last m ranges, goes through them and then through all, weighing each 1 in -m |
| `IndicatorMeaning.ObvFollowsCloses` | psx-api/psx_api/indicators/compute.py:211-226 | starts at zero, gains the volume of a bar that closes higher, loses that of one that closes lower |
| `IndicatorLaws.SmaIsStable` | psx-api/psx_api/indicators/compute.py:40-52 | entry k does not depend on later inputs |
| `IndicatorLaws.EmaIsStable` | psx-api/psx_api/indicators/compute.py:55-70 | the same for the exponential mean |
| `IndicatorLaws.RsiIsStable` | psx-api/psx_api/indicators/compute.py:76-104 | the same for the relative strength index |
| `IndicatorLaws.MacdIsStable` | psx-api/psx_api/indicators/compute.py:107-130 | the same for all three lines, re-alignment included |
| `IndicatorLaws.StochasticIsStable` | psx-api/psx_api/indicators/compute.py:133-156 | the same for %K and %D |
| `IndicatorLaws.BandsAreStable` | psx-api/psx_api/indicators/compute.py:162-179 | the same for the bands |
| `IndicatorLaws.AtrIsStable` | psx-api/psx_api/indicators/compute.py:182-205 | the same for the average true range of a positive period |
| `IndicatorLaws.WrappedAtrLooksAhead` | psx-api/psx_api/indicators/compute.py:199-204 | for every negative period it fails: on constant bars, entry k changes between every two lengths on which it is computed |
| `IndicatorLaws.AtrStableExactly` | psx-api/psx_api/indicators/compute.py:182-205 | wherever both are computed, entry k of the first k+1 bars is entry k of all of them, if and only if the period is not negative (zero raises on every non-empty input) |
| `IndicatorLaws.ObvIsStable` | psx-api/psx_api/indicators/compute.py:211-226 | the same for on-balance volume |
| `IndicatorLaws.EmaStaysInRange` | psx-api/psx_api/indicators/compute.py:62-69 | between the least and the greatest input seen |
| `IndicatorLaws.RsiStaysInRange` | psx-api/psx_api/indicators/compute.py:93-103 | between 0 and 100 |
| `IndicatorLaws.KStaysInRange` | psx-api/psx_api/indicators/compute.py:144-148 | %K between 0 and 100 when closes lie inside the bars |
| `IndicatorLaws.RsiIgnoresScale` | psx-api/psx_api/indicators/compute.py:85-103 | unchanged when all prices are multiplied by a positive constant |
| `IndicatorLaws.KIgnoresScale` | psx-api/psx_api/indicators/compute.py:144-148 | the same for %K |
| `Strategies.PresetsAreCausal` | psx-api/psx_api/backtest/strategies.py:69-216 | all five presets decide from the bars up to now and their own state |
| `Strategies.RsiFlagAgrees` | psx-api/psx_api/backtest/strategies.py:131-142 | the closure's flag says at every call whether the engine holds a position |
| `Strategies.BollingerFlagAgrees` | psx-api/psx_api/backtest/strategies.py:206-216 | the same for the Bollinger closure |
| `Strategies.RecomputingIsReadingOnce` | psx-api/psx_api/backtest/strategies.py:73-216 | recomputing an indicator at every bar gives the run of reading one precomputed series |
| `SignalLaws.CrossoverIsLongExactly` | psx-api/psx_api/backtest/strategies.py:69-99 | long if and only if the fast average is above the slow one, from the bar on which both exist twice |
| `SignalLaws.CrossingIsNamedExactly` | psx-api/psx_api/backtest/strategies.py:83-97 | a crossing is named exactly on the bar on which the averages change sides |
| `SignalLaws.RsiIsLongExactly` | psx-api/psx_api/backtest/strategies.py:113-142 | below oversold long, above overbought out, between them as before |
| `SignalLaws.MacdIsLongExactly` | psx-api/psx_api/backtest/strategies.py:156-173 | long if and only if the line is above its signal, after the warm-up |
| `SignalLaws.BollingerIsLongExactly` | psx-api/psx_api/backtest/strategies.py:187-216 | at or below the lower band long, at or above the middle out, between them as before |
| `SignalLaws.HoldIsLongExactly` | psx-api/psx_api/backtest/strategies.py:230-237 | long from the second bar on |
| `SignalLaws.PlainOperands` | psx-api/psx_api/strategy_builder/parse.py:48-59 | what a constant and a price are worth |
| `SignalLaws.TrialBarsAreFlat` | psx-api/psx_api/strategy_builder/parse.py:134-147 | the bars that rules are tried on |
| `SignalLaws.NamesIgnoreCase` | psx-api/psx_api/strategy_builder/parse.py:62 | capital letters do not matter in a name |
| `SignalLaws.NamedAverages` | psx-api/psx_api/strategy_builder/parse.py:61-69 | each indicator name, in any case, is its series over raw closes at the bar |
| `SignalLaws.NamedRanges` | psx-api/psx_api/strategy_builder/parse.py:73-80 | the same for the ones that read highs and lows |
| `SignalLaws.NamedWithoutPeriod` | psx-api/psx_api/strategy_builder/parse.py:70-82 | the same for the MACD histogram of 12, 26 and 9, and the volume |
| `SignalLaws.OperatorsCompare` | psx-api/psx_api/strategy_builder/parse.py:88-111 | what the five operators compare; false when a value is missing |
| `SignalLaws.GroupsQuantify` | psx-api/psx_api/strategy_builder/parse.py:114-125 | all_of is true exactly when all its clauses are, any_of false exactly when all of them are |
| `SignalLaws.EntryExactly` | psx-api/psx_api/strategy_builder/parse.py:190-196 | out of the market it goes in if and only if the entry group holds |
| `SignalLaws.ExitExactly` | psx-api/psx_api/strategy_builder/parse.py:197-210 | in the market it goes out if and only if the stripped exit group holds or the holding period is over |
| `StrategyBuilder.StripKeepsAnyOf` | psx-api/psx_api/strategy_builder/parse.py:168-178 | dropping time stops preserves the truth of an any_of group, nothing left meaning false |
| `StrategyBuilder.StripKeepsAllOfExactly` | psx-api/psx_api/strategy_builder/parse.py:168-178 | for an all_of group it preserves the outcome, errors included, if and only if the list is not empty and, where a time stop ends its reading without an error, the other clauses neither raise nor all hold |
| `StrategyBuilder.ClauseFailsExactly` | psx-api/psx_api/strategy_builder/parse.py:48-111 | a clause raises exactly when it is malformed for the number of bars seen |
| `StrategyBuilder.AllOfFailsExactly` | psx-api/psx_api/strategy_builder/parse.py:114-116 | an all_of list raises exactly when such a clause comes up behind true ones |
| `StrategyBuilder.AnyOfFailsExactly` | psx-api/psx_api/strategy_builder/parse.py:117-118 | an any_of list raises exactly when one comes up behind false ones |
| `StrategyBuilder.RefusedExactly` | psx-api/psx_api/strategy_builder/parse.py:128-165 | rules are refused exactly when their entry or stripped exit group raises on the trial bars |
| `StrategyBuilder.StepFailsExactly` | psx-api/psx_api/strategy_builder/parse.py:190-210 | a call raises exactly when the group it reads, entry or stripped exit, does |
| `StrategyBuilder.RunFailsExactly` | psx-api/psx_api/strategy_builder/parse.py:190-210 | a run of custom rules fails exactly when some call does |
| `StrategyBuilder.WellFormedRulesNeverFail` | psx-api/psx_api/strategy_builder/parse.py:128-212 | well-formed rules are accepted and never fail afterwards |
| `StrategyBuilder.AcceptedRulesCanFail` | psx-api/psx_api/strategy_builder/parse.py:134-165 | accepted rules can still fail: the trial run stops at the first false clause |
| `StrategyBuilder.StrippingFiresAnAllOf` | psx-api/psx_api/strategy_builder/parse.py:197-202 | an all_of exit that fires stripped and never as written |
| `StrategyBuilder.StrippingUncoversAnError` | psx-api/psx_api/strategy_builder/parse.py:197-202 | and one that raises stripped and is false as written |
| `StrategyBuilder.RulesAreCausal` | psx-api/psx_api/strategy_builder/parse.py:190-210 | a custom strategy is causal |
| `StrategyBuilder.RulesFlagAgrees` | psx-api/psx_api/strategy_builder/parse.py:187-210 | its long flag is the engine's position |
| `StrategyBuilder.TimeStopBoundsEveryTrade` | psx-api/psx_api/strategy_builder/parse.py:203-234 | with a time stop of H days every trade closes at most H + 1 bars after its fill, and one that the time stop closes not before |
| `StrategyBuilder.FirstTimeStopIsFirst` | psx-api/psx_api/strategy_builder/parse.py:215-234 | H is the number of the first time stop that has a usable one |
| `Adjustments.ComposeIsFold` | psx-ingest/psx_ingest/adjustments.py:109-115 | one multiplication and one subtraction do the work of the whole list of events |
| `Adjustments.Advance` | psx-ingest/psx_ingest/adjustments.py:104-113 | the pointer stops exactly behind the events later than the row, with their composed map |
| `Adjustments.BuildAdjustments` | psx-ingest/psx_ingest/adjustments.py:91-95 | the conversion loop, stopping at the first event that divides by zero |
| `Adjustments.BackwardPass` | psx-ingest/psx_ingest/adjustments.py:97-130 | newest first with one pointer, returned in date order: each row's own adjusted close |
| `Adjustments.ComputeAdjustedPrices` | psx-ingest/psx_ingest/adjustments.py:61-130 | the whole computation, unsorted inputs and errors included |
| `EventLaws.HoldingKeepsItsValue` | psx-ingest/psx_ingest/adjustments.py:133-162 | for every ratio event that converts and every price: M + N shares at the restated price are worth M at the old one |
| `EventLaws.EventRestates` | psx-ingest/psx_ingest/adjustments.py:155-171 | what every other event does to a price, and exactly which cannot be converted |
| `EventLaws.ReportIsRestated` | psx-ingest/psx_ingest/adjustments.py:83-130 | every reported close is the close restated for the later events, newest first, at least 0.01, to the nearest unit of the fourth place |
| `EventLaws.OneEventIsReported` | psx-ingest/psx_ingest/adjustments.py:83-130 | the same for one row and one event |
| `EventLaws.ReportFailsExactly` | psx-ingest/psx_ingest/adjustments.py:80-130 | it fails if and only if some event cancels all shares, and its rows come out oldest first |
| `EventLaws.HoldingKeepsItsValueThroughout` | psx-ingest/psx_ingest/adjustments.py:97-115 | through any number of ratio events a holding keeps its value |
| `AdjustmentLaws.OnePassRefinesQuadratic` | psx-ingest/psx_ingest/adjustments.py:73-130 | row by row the value of the documented quadratic algorithm, clamped and rounded once |
| `AdjustmentLaws.AdjustingOnlyLowers` | psx-ingest/psx_ingest/adjustments.py:116-118 | with ordinary events and quoted prices, between 0.01 and the close |
| `AdjustmentLaws.RowWithNoLaterEventIsUntouched` | psx-ingest/psx_ingest/adjustments.py:103-118 | a row with no later event keeps its close |
| `AdjustmentLaws.RowKeepsItsCloseExactly` | psx-ingest/psx_ingest/adjustments.py:103-115 | before clamping and rounding a row keeps its close if and only if no later event changes prices |
| `AdjustmentLaws.ReportedCloseIsKeptExactly` | psx-ingest/psx_ingest/adjustments.py:116-118 | the reported close hides a fall if and only if it is below half a unit of the fourth place, or the close is the clamp |
| `AdjustmentLaws.NewestRowIsAdjustedByALaterEvent` | psx-ingest/psx_ingest/adjustments.py:69-71 | the newest row too is adjusted by an event dated after it |
| `AdjustmentLaws.CommuteExactly` | psx-ingest/psx_ingest/adjustments.py:109-110 | two changes may be swapped on every price if and only if their addends agree |
| `AdjustmentLaws.EventOrderDoesNotMatter` | psx-ingest/psx_ingest/adjustments.py:86-95 | the result depends only on which events there are when events tied on a date commute |
| `AdjustmentLaws.OrderMattersExactly` | psx-ingest/psx_ingest/adjustments.py:86-130 | some prices and some other listing give a different report if and only if all events convert and two tied ones do not commute |
| `AdjustmentLaws.OneKindOfEventCommutes` | psx-ingest/psx_ingest/adjustments.py:133-171 | histories of ratio events only, or of dividends only, are such |
| `AdjustmentLaws.MixedTiesDependOnOrder` | psx-ingest/psx_ingest/adjustments.py:86-95 | a split and a dividend on one day give two prices in the two orders |
| `Folds.SameFold` | psx-ingest/psx_ingest/adjustments.py:86-116 | the fold of a sorted list is determined by its elements once ties swap |
| `TvmLaws.FutureValueIsBalance` | psx-api/psx_api/goals/tvm.py:59-79 | the closed form is the month-by-month account, for every horizon and rate, zero included |
| `TvmLaws.FutureValueGrowsWithRate` | psx-api/psx_api/goals/tvm.py:59-79 | never falls as the rate rises, and rises strictly if and only if the rate matters |
| `TvmLaws.FirstContributionIgnoresRate` | psx-api/psx_api/goals/tvm.py:73-79 | a case where it does not: with nothing saved and one month left every rate gives the contribution |
| `TvmLaws.LaterMonthsReachToo` | psx-api/psx_api/goals/tvm.py:251-263 | once a horizon reaches the target every later one does |
| `Tvm.BisectCagr` | psx-api/psx_api/goals/tvm.py:82-126 | the loop computes the specified bisection, None cases included |
| `TvmLaws.NarrowEncloses` | psx-api/psx_api/goals/tvm.py:114-126 | every step keeps the target enclosed and halves the width |
| `TvmLaws.CagrBracket` | psx-api/psx_api/goals/tvm.py:110-126 | the result is the middle of a bracket of width 2.5 / 2^steps whose ends enclose the target |
| `TvmLaws.ExactRateIsFound` | psx-api/psx_api/goals/tvm.py:110-126 | a rate that hits the target is within half that width of the result |
| `TvmLaws.PrecisionExactly` | psx-api/psx_api/goals/tvm.py:110-126 | all such rates are, if and only if the future value depends on the rate |
| `TvmLaws.RequiredPmtLandsOnTarget` | psx-api/psx_api/goals/tvm.py:236-248 | the contribution asked for lands exactly on the target, or is zero when none is needed |
| `TvmLaws.NoMonthLeft` | psx-api/psx_api/goals/tvm.py:59-79 | without a month left nothing is asked for and nothing grows |
| `TvmLaws.RoundedContributionIsClose` | psx-api/psx_api/goals/tvm.py:216-219 | rounded to paisa it lands within half a paisa a month, grown |
| `Tvm.MonthsToDropToFeasible` | psx-api/psx_api/goals/tvm.py:251-263 | the least month from 1 to 719 that reaches the target, None if and only if there is none |
| `Goals.Analyze` | psx-api/psx_api/goals/tvm.py:142-233 | rating and advice in every branch |
| `GoalLaws.RatingIsInterval` | psx-api/psx_api/goals/tvm.py:129-136 | each rating is an interval of the reported percentage: up to 8, 14, 20 and above |
| `GoalLaws.OtherRatings` | psx-api/psx_api/goals/tvm.py:156-206 | funded exactly when the savings reach the target; unrealistic when out of time or without a rate |
| `GoalLaws.NoRateExactly` | psx-api/psx_api/goals/tvm.py:95-111 | no rate is found, with time left, if and only if every rate searched overshoots the target or every one falls short, which the two end rates decide |
| `GoalLaws.BadRatingMissesExactly` | psx-api/psx_api/goals/tvm.py:129-136 | with or without a rate, a badly rated goal is missed at 10%, and at every lower rate searched, if and only if -50% does not already overshoot it |
| `GoalLaws.BadRatingInFigures` | psx-api/psx_api/goals/tvm.py:129-219 | the same in figures, with the 8, 10 and 12 per cent the advice uses |
| `GoalLaws.EasyGoalIsRatedUnrealistic` | psx-api/psx_api/goals/tvm.py:192-206 | one that overshoots: every rate passes its target, it is rated unrealistic and advised less than is paid already |
| `GoalLaws.BadRatingNeedsMore` | psx-api/psx_api/goals/tvm.py:129-136 | a rate rated worse than 14% means the target is missed at every rate up to 10% |
| `GoalLaws.SuggestionExceedsExactly` | psx-api/psx_api/goals/tvm.py:213-219 | the rounded suggestion is never below a present contribution of whole paisa that misses the target, and exceeds it if and only if half a paisa more a month still misses it, or just hits it with an odd paisa |
| `GoalLaws.AdviceAsksForMoreExactly` | psx-api/psx_api/goals/tvm.py:192-219 | in both branches the advised contribution exceeds the present one if and only if half a paisa more a month still misses, or just hits with an odd paisa; before rounding, if and only if -50% does not overshoot, and otherwise it is never more |
| `GoalLaws.SuggestionReachesExactly` | psx-api/psx_api/goals/tvm.py:203-219 | saving the advised amount reaches the target at the advice's rate if and only if it was not rounded down |
| `GoalLaws.SuggestionCanBeThePresentOne` | psx-api/psx_api/goals/tvm.py:213-219 | a goal rated unrealistic that is advised what is paid already |
| `GoalLaws.AdviceExtendsExactly` | psx-api/psx_api/goals/tvm.py:205-223 | an advised extension is at least a month; 8% falls short at the present horizon if and only if -50% does not overshoot |
| `GoalLaws.ExtensionReachesExactly` | psx-api/psx_api/goals/tvm.py:205-223 | after the extension 8% is enough whenever a rate was found; after the fixed twelve months, if and only if the first feasible month has come (within the search cap of 720 months) |
| `GoalLaws.ExtensionIsShortest` | psx-api/psx_api/goals/tvm.py:220-223 | with a rate, 8% is not enough at any earlier horizon |
| `GoalLaws.TwelveMonthsCanFallShort` | psx-api/psx_api/goals/tvm.py:205 | a goal for which it has not |
| `Billing.BillingService.constructor` | psx-api/psx_api/services/billing_service.py:48-50 | a service starts with empty tables |
| `Billing.BillingService.CancelExisting` | psx-api/psx_api/services/billing_service.py:112-114 | every active or trialing row of the user, and no other, is canceled in place |
| `Billing.BillingService.SubscribeFree` | psx-api/psx_api/services/billing_service.py:95-130 | the free sign-up step, refused without a free plan |
| `Billing.BillingService.BeginPaidSubscription` | psx-api/psx_api/services/billing_service.py:134-244 | the checkout step with its checks in order and the new intent's amount and status |
| `Billing.BillingService.Activate` | psx-api/psx_api/services/billing_service.py:317-351 | the paid subscription replaces the active ones |
| `Billing.BillingService.ConfirmPayment` | psx-api/psx_api/services/billing_service.py:246-315 | the callback step, unknown providers and references and mismatched amounts included |
| `BillingLaws.EveryRunIsSound` | psx-api/psx_api/services/billing_service.py:95-351 | over every run from empty tables: one active subscription per user, unique references, one subscription per paid intent and none otherwise |
| `BillingLaws.CheckoutAddsOneUnpaidIntent` | psx-api/psx_api/services/billing_service.py:155-233 | a checkout adds one unpaid intent for a positive amount, a listed plan and a free reference and grants nothing, or changes nothing |
| `BillingLaws.CheckoutBillsThePlan` | psx-api/psx_api/services/billing_service.py:155-230 | the bill is the listed plan's monthly price, or its yearly one, or twelve months when there is none, for the cycle asked for |
| `BillingLaws.CyclesKeepTheirPrices` | psx-api/psx_api/services/billing_service.py:174-178 | two checkouts of one plan are billed each its own price |
| `BillingLaws.CheckoutRefusedExactly` | psx-api/psx_api/services/billing_service.py:155-233 | the exact reasons for which a checkout is refused |
| `BillingLaws.StepKeeps` | psx-api/psx_api/services/billing_service.py:95-351 | every single call keeps that invariant |
| `BillingLaws.PaidIsAbsorbing` | psx-api/psx_api/services/billing_service.py:288-291 | a paid intent stays paid, for the same user, plan and amount, whatever follows |
| `BillingLaws.DuplicateCallbackGrantsNothing` | psx-api/psx_api/services/billing_service.py:252-289 | delivering a callback a second time changes nothing |
| `BillingLaws.PaidExactly` | psx-api/psx_api/services/billing_service.py:267-312 | a callback pays an intent if and only if it names it, reports payment and the amount is within 0.01 or not given |
| `BillingLaws.StatusAfterCallback` | psx-api/psx_api/services/billing_service.py:284-312 | where each kind of callback leaves an unpaid intent |
| `BillingLaws.CurrentIsTheOnlyOne` | psx-api/psx_api/services/billing_service.py:75-93 | the newest active subscription is the only one |
| `BillingLaws.PayingGrantsThePlan` | psx-api/psx_api/services/billing_service.py:317-351 | payment makes the paid plan the payer's current one and nobody else's changes |
| `BillingLaws.GrantedPeriod` | psx-api/psx_api/services/billing_service.py:317-351 | what is granted and for how long: 365, 30 or 3650 days |
| `BillingLaws.CanceledRows` | psx-api/psx_api/services/billing_service.py:112-114 | what canceling writes, and to which rows |

## Left out

- TvmLaws.RequiredPmtLandsOnTarget: asks for an annual rate above -1200%, below which a month's growth factor is not positive; the source only ever passes 0.10 and 0.12.
- TvmLaws.FutureValueGrowsWithRate: is for non-negative savings and contributions and monthly growth factors above zero, which the goal form guarantees.
- PortfolioLaws.StoredTaxIsSimulatedTax: is for one filer status throughout; a user who changes status has old rows taxed under the old one.
- Floating-point error in the engine, indicators and goals, and Decimal context precision: the model computes exactly.
- The preview's charges and net cash, fees, notes, currency formatting and narration: single formulas and text.
- Annualised return, Sharpe ratio, win rate and trade averages: powers, square roots and plain means.
- The month count between two dates and other calendar arithmetic: days and months are given as numbers.
- The holdings' market values and year-to-date figures of the dashboard: sums over the modelled rows.
- Conversion of malformed rule documents (a period or a constant that is not a number): the model's rules are well typed.
- The gateways themselves: signatures and payload parsing are an arbitrary answer to the service.
- Request and response payloads, timestamps and the checkout address of a payment intent: stored, never read back by the service.
- Concurrent callbacks and database isolation: each call is one atomic step; the unique reference is the only constraint modelled.
- Expiry of payment intents: the confirmation never looks at it, and no other code sets the status.
- Scrapers, news, anomaly models, forecasts, sentiment, curriculum, notifications, accounts, watchlists, the routers and the web front end: input and output, library calls or plain records.
