# A verified model of the trading system's stateful cores

This project models the parts of an automated KRX trading system that carry state or arithmetic over time, and proves
what they keep over all inputs, all runs and all interleavings.

- **Lots and order records** (`TradeRecords`, `SellFill`, `SellFillLaws`, `TradeLedger`, `LedgerLaws`, `RecordLaws`,
  `TradeBook`, `Reconciliation`, `Recovery`, `RecoveryRules`, `OrderLifecycle`): a sell fill is matched
  first-in-first-out with the open BUY lots. The loop over mutable record objects is proved against a recursive
  matching, whose closed form, conservation and composition laws are proved. The transactions on the records are
  functions on the table, an object with record objects implements them, and every interleaving of them is covered;
  the two jobs that read the table long before they write it take two steps. `RecordLaws` and `RecoveryRules` say
  column by column what the rows hold afterwards.
- **Backtest** (`Backtest`, `BacktestEngine`, `BacktestLaws`, `BacktestRules`, `BacktestTrades`, `BacktestCash`): an
  engine object proved against an account function, with no look-ahead, the accounting identity, bounds on holdings,
  the rules that every bar goes by (so that no signal is missed), an explanation of every trade by the bars, and an
  exact condition for solvency. `Drawdown` and `Reporting` prove the metric loops against specifications over all
  pairs of points.
- **Trading cycle** (`OrderReservation`, `CycleCash`, `SellToken`, `Reconfiguration`, `Symbols`): asyncio tasks as
  state machines whose steps run from one await to the next; the theorems hold for every schedule.
- **Derived state** (`Rollups`, `RollupLaws`, `RollupHistory`, `Percentile`, `EventDetector`, `EventCooldown`,
  `NewsIndex`, `NewsFilter`, `NewsFilterLaws`, `NewsIngest`): what is stored or updated step by step agrees with a
  simple function of the history.
- **Liquidation, calendar, JSON repair** (`Liquidation`, `SmartLiquidation`, `MarketCalendar`, `JsonRepair`,
  `JsonGrammar`).

Money, prices and percentages are reals; instants are integers. Where the code rounds a reported value, the model
states the value before rounding. Where a method changes objects, its `ensures` gives the whole new state as a function
of the old one, and the laws are about that function.

## Where the code does less than one would expect

These are theorems, each with the exact condition:

- Backtest cash can go below zero, on bars that are well formed, unless no exit costs cash, or the budget leaves enough
  for the worst exit, or nothing can ever be bought (`BacktestCash.SolventIff`). An exit costs cash when the commission
  exceeds 100 % or the target price is negative.
- A confirmation is written over by a cleanup or a recovery that read the record while it was pending: a record stays
  CONFIRMED whatever happens if and only if no unfinished job has read it (`OrderLifecycle.StaysConfirmedIff`).
- After the recovery settled a record, the open quantity of its share is what is held if and only if it was a SELL
  settled from the holding, or it fits anyway (`Recovery.MeetsHoldingIff`): a SELL found among the broker's orders
  closes no lot, right after one SELL was settled from the holding any other of the share fails, and a BUY counts as
  filled when the share is held at all. For a whole recovery: if and only if some SELL was settled from the holding and
  no BUY has added to it since, or none was and it fits anyway (`Recovery.WholeRecoveryIff`).
- A BUY fill whose pending record is missing is stored with an empty order id, which the unique column takes only once:
  the second such fill is lost (`OrderLifecycle.FallbackBuyKeptIff`).
- An order that the broker took, but answered without an order id or not in time, gives its reservation back, and the
  next candidate spends the same cash. What a cycle has at the broker is bounded by the starting cash if and only if
  the mode is ENFORCE and no answer gets lost (`CycleCash.CashSafeIff`); what counts as submitted is bounded in ENFORCE
  mode in any case (`CycleCash.EnforcedCycle`), and there no market order is ever sent.
- Stopping the agent clears tokens that tasks still hold. Afterwards no symbol is ever sold by two tasks, whatever
  happens, if and only if no task held one (`SellToken.StopSafeIff`).
- An idle wait that times out lets settings change under a running cycle. An apply is safe from this, whatever happens
  later, if and only if no cycle runs when it takes its lock (`Reconfiguration.ChangesSafelyIff`).
- A second rollup run can lose rollups when raw rows are dropped inside the lookback window
  (`RollupLaws.RepeatableIff`), and keys that differ in a missing component cannot be sorted (`Rollups.BuildRollups`).
- The trailing stop follows the high only for percentages up to 100 or a stop that starts high enough
  (`EventDetector.FollowsHighIff`).
- Pending sells are looked up by the symbol as the broker spells it (`Liquidation.FitsBesideIff`), and holdings that
  share a symbol are mixed up. An answer of the model with a confidence that is no number ends the whole liquidation
  before any order: lists come back, with every holding in one of them once, if and only if the last answers of the
  judged holdings are numeric and no two different ones share a symbol (`SmartLiquidation.EachHoldingOnce`).
- An order that is answered as a failure although the broker took it is tried again. After the first round no retry can
  sell too much if and only if no more timed out than was skipped (`SmartLiquidation.RetrySafeIff`).
- Between 08:50 and 09:00 the next session start is reported as the next trading day's 08:00, and at 15:30:00 as that
  very moment, unlike the method's own documentation (`MarketCalendar.NextSessionIff`).
- The symbol filter of the news list takes percent signs and underscores as wildcards. On all stored columns whose
  symbols hold no comma it answers by membership if and only if the symbol asked for holds neither comma nor wildcard,
  or a piece that no stored symbol can be, and is never found (`NewsFilterLaws.ExactIff`). With a comma in a stored
  symbol every symbol can be found falsely (`NewsFilterLaws.CommasMislead`).
- On a curve that comes to zero before it was ever positive the drawdown is not a number, and a running peak is not
  enough for points below zero (`Drawdown.DrawdownMetrics`, `Drawdown.PeakIsWorstIff`).
- Re-ingesting a batch creates its undated items again (`NewsIngest.ReingestIff`).

## Model

| member | source | states |
|---|---|---|
| `SellFill.ApplySellFillToOpenBuys` | agent/decision_maker.py:352-415 | the loop over record objects leaves in them exactly what the recursive first-in-first-out matching gives, adds exactly its split-off records, and reports its totals |
| `SellFill.MatchLots` | agent/decision_maker.py:364-400 | the loop stops when nothing remains to close or the lots end, having reached a prefix of the matching |
| `SellFill.CloseLot` | agent/decision_maker.py:373-400 | one turn: a lot without quantity is skipped; a lot larger than the rest is split into a closed clone and an open rest; any other is closed in place; nothing else changes |
| `SellFill.SumOpen` | agent/decision_maker.py:403-407 | the reported remaining quantity is the total of the given records without an exit |
| `SellFillLaws.ClosedForm` | agent/decision_maker.py:370-400 | lot i ends as determined by its share c = clamp(q - earlier positive lots, 0, lot i) alone, column by column: unchanged if c = 0, with the exit if c is all of it, else reduced by c; the exit shows the price, (price - entry) * c, (price - entry) / entry in percent, a win if and only if the price is above the entry, the whole days held, the reason and the time |
| `SellFillLaws.OneSplit` | agent/decision_maker.py:377-383 | at most one clone; it records the share of one lot as a closed record of its own, written out; all later lots have share zero, nothing is left to fill; without a clone every lot is sold whole or not at all |
| `SellFillLaws.AppliedQuantity` | agent/decision_maker.py:402 | the applied quantity is min(fill, total of the positive lots), also for negative fills |
| `SellFillLaws.TotalPnl` | agent/decision_maker.py:385-400 | the total profit is the sum over the lots of (price - entry) times share, written out |
| `SellFillLaws.TotalReturn` | agent/decision_maker.py:385-412 | the reported return is the sum of (price - entry) / entry in percent over the lots with a positive share, and these are counted |
| `SellFillLaws.ReportTells` | agent/decision_maker.py:402-415 | the report, field by field, from the shares: applied quantity, remaining open quantity, profit, return, touched lots, and whether a lot was split |
| `SellFillLaws.Conservation` | agent/decision_maker.py:370-407 | for open lots: what leaves the open quantity is what the closed lots and the clone hold, and it is the applied quantity |
| `SellFillLaws.FillsCompose` | agent/decision_maker.py:352-415 | two fills at one price with the open lots read again in between leave the same open lots in the same order, sell the same quantity and make the same profit as one fill of the sum |
| `LedgerLaws.OpenIdsMembers` | repositories/trade_result_repository.py:62-75 | the query returns exactly the ids of the rows of the symbol that are BUY, CONFIRMED and have no exit time, each once |
| `LedgerLaws.OpenIdsOrdered` | repositories/trade_result_repository.py:72 | first in, first out over the rows themselves: a lot without an entry time comes before one with it, an earlier entry time before a later one, and with equal or no times the earlier row first |
| `LedgerLaws.SellIntoRows` | agent/decision_maker.py:608-617 | a sale changes only the queried lots, as the matching says, keeps identity and status of every row, and appends only closed rows without an order id |
| `LedgerLaws.RereadAfterSale` | agent/decision_maker.py:729-760 | the query after a sale finds exactly what the matching left open, in the same order, although clones were appended |
| `LedgerLaws.SalesCompose` | agent/decision_maker.py:352-415 | on the whole table: two sale transactions at one price leave the open lots of one sale of the sum |
| `LedgerLaws.OtherSymbolsUntouched` | repositories/trade_result_repository.py:62-75 | a sale leaves the open lots of every other symbol alone |
| `LedgerLaws.SaleKeepsBought` | agent/decision_maker.py:322-350 | however lots are split and closed, the quantity bought of every symbol stays the same |
| `RecordLaws.CreateStores` | agent/decision_maker.py:417-464 | a known order id changes nothing; a new one appends a PENDING_CONFIRM row, column by column: a BUY with entry price and time and no exit, a SELL with exit price and time and no entry |
| `RecordLaws.CreateClosesNothing` | agent/decision_maker.py:442-455 | creating a record leaves the open lots of every symbol as they are |
| `RecordLaws.CreatedBuyOpens` | agent/decision_maker.py:417-464 | a new BUY order, created and then confirmed, is an open lot of its symbol with the filled quantity and price, entered when it was created |
| `RecordLaws.CreatedSellCloses` | agent/decision_maker.py:568-642 | a new SELL order, created and then confirmed, closes of the lots open before, first in, first out, the share of each; its own row shows the applied quantity and never is an open lot |
| `RecordLaws.ConfirmedSaleRows` | agent/decision_maker.py:596-619 | confirming any SELL row: every open lot by its share, at most one split-off record, no other row changed, and the row itself with price, time, reason and applied quantity |
| `RecordLaws.RecordedBuy` | agent/decision_maker.py:660-728 | a BUY fill recorded without a pending row is an open lot at once, column by column |
| `RecordLaws.RecordedSell` | agent/decision_maker.py:729-796 | a SELL fill without a pending row sells from the open lots by their shares; without any it is kept as a closed row of its own |
| `RecordLaws.RecordedOnce` | agent/decision_maker.py:676-690 | a fill with a known order id changes nothing |
| `RecordLaws.FailedOnly` | agent/decision_maker.py:644-658 | exactly a row that is still PENDING_CONFIRM becomes CONFIRM_FAILED, and nothing else of it changes |
| `TradeBook.TradeBook.GetByOrderId` | repositories/trade_result_repository.py:183-193 | the duplicate check looks up order ids except the empty one |
| `TradeBook.TradeBook.GetAllOpenBuys` | repositories/trade_result_repository.py:62-75 | hands out the record objects of the open lots themselves, distinct and in query order |
| `TradeBook.TradeBook.InsertRecord` | models/trade_result.py:20 | an insert that breaks the unique order id changes nothing |
| `TradeBook.TradeBook.CreatePendingRecord` | agent/decision_maker.py:417-464 | adds the PENDING_CONFIRM row of the order unless the order id is known |
| `TradeBook.TradeBook.ConfirmPendingRecord` | agent/decision_maker.py:568-642 | the whole new table: the row confirmed, a SELL matched with the lots found after that, its quantity set to the applied one, and a missing row recorded anew |
| `TradeBook.TradeBook.MarkPendingFailed` | agent/decision_maker.py:644-658 | only a row that is still PENDING_CONFIRM becomes CONFIRM_FAILED; nothing else changes |
| `TradeBook.TradeBook.RecordTradeResult` | agent/decision_maker.py:660-796 | the whole new table for a BUY, for a SELL with and without open lots, and for a known order id |
| `TradeBook.TradeBook.Sell` | agent/decision_maker.py:752-764 | the record objects of the open lots are updated in place and the clones added, exactly as the table function says |
| `TradeBook.TradeBook.FailStale` | services/stale_pending_cleanup_service.py:48-69 | flips exactly the stale, still pending BUY rows among the given ids, each counted once, and none in a dry run; lists the eligible ones in order, and what was passed over and why |
| `TradeBook.TradeBook.Cleanup` | services/stale_pending_cleanup_service.py:20-83 | the whole new table of a cleanup, the number of flipped rows, the eligible records, and the records passed over with the reason, one given twice included |
| `TradeBook.TradeBook.RecoverPending` | scheduler/jobs/portfolio_sync_job.py:42-193 | the whole new table after every pending record was settled in turn, in the order of creation, and the three counters |
| `Recovery.PendingIdsMembers` | repositories/trade_result_repository.py:195-203 | the recovery goes through exactly the pending rows, each once |
| `Recovery.TallyIsStatus` | scheduler/jobs/portfolio_sync_job.py:64-191 | the counters are the numbers of those rows that end CONFIRMED, CONFIRM_FAILED and still pending |
| `Recovery.RecoveredSale` | scheduler/jobs/portfolio_sync_job.py:96-145 | a SELL without a trace at the broker, settled from the holding: afterwards the open quantity of its symbol, over whatever lots, is what is held, and the row shows the difference |
| `Recovery.SecondSaleFails` | scheduler/jobs/portfolio_sync_job.py:100-113 | right after that any other such SELL of the share fails |
| `Recovery.FoundSaleClosesNothing` | scheduler/jobs/portfolio_sync_job.py:70-88 | a SELL confirmed by its order at the broker leaves the open lots of every symbol as they are |
| `Recovery.MeetsHoldingIff` | scheduler/jobs/portfolio_sync_job.py:67-191 | after a pending record is settled the open quantity of its share is what is held if and only if it was a SELL settled from the holding, or the quantity open before plus what a BUY adds is; a BUY stored under a symbol that is not normalized adds nothing |
| `Recovery.WholeRecoveryIff` | scheduler/jobs/portfolio_sync_job.py:42-191 | after a whole recovery the open quantity of a share is what is held if and only if some SELL of it was settled from the holding and no BUY has added to it since, or none was and the quantity open before plus all that BUYs added is; both are computed from the pending records, the open quantity before and the answers alone |
| `RecoveryRules.FoundOutcome` | scheduler/jobs/portfolio_sync_job.py:67-92 | a record whose order is among the broker's (the last entry of that id): confirmed with the filled quantity, and the order's price if it has one, if and only if something is filled; else it waits with KIWOOM and fails without |
| `RecoveryRules.UntracedBuyOutcome` | scheduler/jobs/portfolio_sync_job.py:147-191 | a BUY without a trace: confirmed with the smaller of holding and order if the share is held, else it waits with KIWOOM and fails without |
| `RecoveryRules.UntracedSellOutcome` | scheduler/jobs/portfolio_sync_job.py:96-145 | a SELL without a trace: with KIWOOM, and less held than is open, the difference is sold from the open lots by their shares and shown on the row, unless that is more than was ordered, and then it waits; in all other cases it fails |
| `RecoveryRules.PendingInOrder` | repositories/trade_result_repository.py:195-203 | the pending rows come by creation time, ties by row |
| `OrderLifecycle.LifecycleSafe` | agent/decision_maker.py:430-461 | over every interleaving of create, confirm, fail, record, and the reads and writes of cleanups and recoveries: nothing returns to PENDING_CONFIRM, a row that is still pending has not changed at all, written-once columns stay, all order ids stay distinct |
| `OrderLifecycle.StaysConfirmedIff` | api/routes/admin.py:797-813 | a record is CONFIRMED after every run if and only if it is CONFIRMED now and no job that has still to write has read it |
| `OrderLifecycle.CautiousSafe` | agent/decision_maker.py:596-598 | CONFIRMED is never left in a run in which nobody confirms a row that an unfinished job has read |
| `OrderLifecycle.ConfirmedBuyLost` | services/stale_pending_cleanup_service.py:62-67 | a BUY confirmed between the read and the commit of a cleanup ends as CONFIRM_FAILED and no open lot |
| `OrderLifecycle.CleanupAtOnce` | api/routes/admin.py:803-813 | a cleanup that writes right after it has read is the cleanup of the table as it is |
| `OrderLifecycle.RecoveryAtOnce` | scheduler/jobs/portfolio_sync_job.py:43-58 | a recovery that writes right after it has read settles the pending rows as they are |
| `OrderLifecycle.OnlyConfirmRevives` | agent/decision_maker.py:596-598 | a row leaves CONFIRM_FAILED only by a confirmation of that very row, or by a recovery that read it while it was pending |
| `OrderLifecycle.FallbackBuyKeptIff` | agent/decision_maker.py:586-594 | a BUY fill whose pending row is missing is kept if and only if no row holds the empty order id yet |
| `OrderLifecycle.SecondFallbackBuyLost` | agent/decision_maker.py:586-594 | in any run the second such fill is lost |
| `OrderLifecycle.SaleOpKeepsBought` | agent/decision_maker.py:604-619 | confirming a SELL keeps the quantity bought of every symbol |
| `OrderLifecycle.ConfirmedSale` | agent/decision_maker.py:604-619 | confirming a SELL row leaves open what the matching leaves of the lots open before; the row shows min(fill, total of the lots), or the fill if that is zero |
| `OrderLifecycle.ConfirmedBuy` | agent/decision_maker.py:596-603 | confirming a BUY row makes it an open lot with the filled quantity and price unless it has an exit, and touches no other row |
| `Reconciliation.BuildReport` | services/order_reconciliation_service.py:16-89 | every order id known to both sides is in exactly one of matched, mismatch and partial, once, by its quantities; broker-only and stale database-only ones are exactly listed; all five lists come in the order of the ids |
| `Reconciliation.CompareShared` | services/order_reconciliation_service.py:41-63 | the three lists partition the shared ids by classification, each in the order of the ids |
| `Reconciliation.StaleRecords` | services/order_reconciliation_service.py:69-71 | lists exactly the old records filed under an id that the broker does not know, in the order of the ids |
| `Reconciliation.AscendingOnce` | services/order_reconciliation_service.py:41-71 | a list in the order of the ids names no id twice |
| `Reconciliation.CountsAddUp` | services/order_reconciliation_service.py:73-82 | the counts of matched, mismatch and partial add up to the number of ids known to both sides |
| `Reconciliation.CleanupFlipsExactly` | services/stale_pending_cleanup_service.py:48-69 | with unique order ids a row is flipped if and only if it is given, has an order id unknown to the broker, is stale, a BUY, and still pending |
| `Reconciliation.CleanupTwice` | services/stale_pending_cleanup_service.py:62-69 | the cleanup run again on the same input at the same time updates nothing |
| `Reconciliation.BrokerKnows` | services/order_reconciliation_service.py:24-28 | the broker's side knows exactly the ids of its orders that are not empty, each with its last order |
| `BacktestEngine.Engine.Run` | backtesting/engine.py:71-150 | with fewer than 30 bars nothing is touched; otherwise trades, curve, cash and positions are those of the account function folded over the bars and finished |
| `BacktestEngine.Engine.CheckPositions` | backtesting/engine.py:196-211 | the exits of a bar over a copy of the positions: stop on the low, target on the high, then the holding limit |
| `BacktestEngine.Engine.BuyShares` | backtesting/engine.py:213-250 | cash and positions after an order, or no change when the amount buys no share |
| `BacktestEngine.Engine.OrderQuantity` | backtesting/engine.py:215-232 | the share count, cut down with the first commission when the order does not fit the cash |
| `BacktestEngine.Engine.ClosePosition` | backtesting/engine.py:259-286 | cash, trade record and positions after an exit; the first equal position is removed |
| `BacktestEngine.Engine.Held` | backtesting/engine.py:252-257 | finds the first position of the symbol, if any |
| `BacktestEngine.Engine.CalculateEquity` | backtesting/engine.py:291-293 | cash plus the value of all positions |
| `BacktestEngine.Engine.AgePositions` | backtesting/engine.py:130-131 | every position is one day older and otherwise the same |
| `BacktestEngine.Engine.CloseRemaining` | backtesting/engine.py:133-138 | all positions are closed at the last close |
| `BacktestLaws.NoLookAhead` | backtesting/engine.py:85-138 | for every strategy over the bars so far and every prefix of n >= 30 bars: the curve of the prefix is the first n - 29 points of the full curve, and the trades made on the prefix before its final exits begin the full run's trades |
| `BacktestLaws.RunSound` | backtesting/engine.py:120-131 | after every bar at most one position is open, and no position or trade has more than max(1, max_hold_days) days |
| `BacktestLaws.FinishSound` | backtesting/engine.py:133-138 | at the end no position is open and the holding limit also covers the forced exits |
| `BacktestLaws.RunBalanced` | backtesting/engine.py:225-293 | after every bar cash plus cost of the open positions is the initial capital plus realized profit minus the entry commissions of all positions |
| `BacktestLaws.FinalCash` | backtesting/engine.py:225-293 | final cash is initial capital plus realized profit minus the entry commissions |
| `BacktestLaws.LastEquityPoint` | backtesting/engine.py:125-138 | the last equity point exceeds the final cash by exactly slippage and commission of the END_OF_DATA exit, or equals it when nothing was open |
| `BacktestLaws.EquityPoint` | backtesting/engine.py:126-127 | after every bar the newest equity point is cash plus holdings valued at that bar's close |
| `BacktestTrades.TradesExplained` | backtesting/engine.py:94-138 | every trade of a run was entered on a buy signal at the close with slippage and left on the first later bar whose low, high, age or signal gave a reason, in that order, with the matching price, profit, return and age; only the last may have been held to the end |
| `BacktestRules.EveryBarRuled` | backtesting/engine.py:85-131 | every bar of every run, written out: the exit at the stop, at the target or by age, with its price; on a buy signal with nothing held then the order, whenever the cash pays for a share; on a sell signal the sale of what is held; the equity point; one more day of age; and nothing else |
| `BacktestRules.EndsRuled` | backtesting/engine.py:133-138 | a run starts with the capital alone, and what is left at the end is sold at the last close |
| `BacktestRules.BuySignalFollowed` | backtesting/engine.py:120-121 | a buy signal on any bar of a run, with nothing held after the exits of the bar and cash for q shares, leaves exactly one position, of q shares, entered on that bar at the close with slippage |
| `BacktestCash.SolventIff` | backtesting/engine.py:213-286 | for sane settings: no run on well-formed bars with any strategy has negative cash, if and only if no exit costs cash, or the budget share times (1 + commission + worst exit loss) is at most 1, or there is no budget or it times (1 + commission) is at least 2 |
| `BacktestCash.OrderFits` | backtesting/engine.py:229-237 | an order costs at most the cash, also after it was cut down with the old, larger commission |
| `BacktestCash.ExitBound` | backtesting/engine.py:259-270 | no exit, at whatever price a position can leave, loses more than the worst exit loss times the cost of the position |
| `BacktestCash.BuysNothing` | backtesting/engine.py:215-232 | without budget, or with such high commissions, no order ever buys a share |
| `BacktestCash.RuinousRun` | backtesting/engine.py:259-286 | otherwise a run on well-formed bars ends with negative cash: one share leaves at the target, at the stop or at the end of the data |
| `Drawdown.DrawdownMetrics` | backtesting/metrics.py:104-126 | for every curve: the worst loss from a running peak, not a number exactly if the curve comes to zero before it was ever positive; on a funded curve the worst loss between a point and a later one; the length of the longest stretch of points below an earlier one that was not negative; both zero without trades or with one point |
| `Drawdown.RunningDrawdown` | backtesting/metrics.py:106-108 | for every curve each entry is the loss from the highest point so far, infinite or not a number from a peak of zero |
| `Drawdown.LossIs` | backtesting/metrics.py:108 | a loss in percent is what takes the earlier value to the later one |
| `Drawdown.LongestStretch` | backtesting/metrics.py:112-126 | the scan finds the longest stretch of negative entries, also one that lasts to the end |
| `Drawdown.PeakGivesWorst` | backtesting/metrics.py:107-109 | on a funded curve the worst loss from the running peak is the worst over all pairs |
| `Drawdown.PeakIsWorstIff` | backtesting/metrics.py:107-109 | at a point the loss from the peak is the worst over all earlier positive points if and only if the point is not negative or they are all as high as the peak |
| `Reporting.ExpectancyAndMean` | services/performance_reporting_service.py:280-287 | the expectancy is at most the mean profit, with equality if and only if no trade loses or none ends at zero |
| `Reporting.MaxDrawdown` | services/performance_reporting_service.py:295-301 | the result is the deepest fall of the cumulated profit between two moments, the start counted |
| `Reporting.Group` | services/performance_reporting_service.py:258-262 | every trade is in the group of its key, in order; the groups' profits add up to the profit of all trades |
| `Symbols.NormalizeTwice` | trading/symbols.py:10-16 | normalizing is idempotent |
| `Symbols.NormalFormIff` | trading/symbols.py:10-16 | a symbol is in normal form if and only if it has no space at either end and no prefix to drop |
| `Symbols.NormalizeIs` | trading/symbols.py:10-16 | normalizing drops the spaces at both ends, then the letter A where exactly it and six digits are left, and changes nothing else |
| `Symbols.StripIs` | trading/symbols.py:12 | what is stripped is spaces only; nothing is left exactly of a blank text |
| `Symbols.PrefixedMeetsPlain` | trading/symbols.py:7-15 | A-prefixed, a-prefixed and plain six-digit codes have one normal form |
| `OrderReservation.Ledger.Reserve` | agent/order_reservation.py:45-84 | approved if and only if amount and quantity are positive and the active reservations and the amount together fit the starting cash; the whole new ledger and every field of the answer |
| `OrderReservation.ReservedIff` | agent/order_reservation.py:55-64 | a reservation is added if and only if amount and quantity are positive and what is active plus the amount is at most the starting cash |
| `OrderReservation.Ledger.Release` | agent/order_reservation.py:86-93 | answers true exactly for a known active reservation, and only clears that one's flag |
| `OrderReservation.Ledger.ReservedCash` | agent/order_reservation.py:37-39 | the sum of the active amounts |
| `OrderReservation.Ledger.AvailableCash` | agent/order_reservation.py:41-43 | starting cash minus the active amounts, cut off at zero |
| `OrderReservation.RunWithinCash` | agent/order_reservation.py:41-93 | over every run of the ledger the active amounts fit the starting cash, so the cut-off at zero never applies |
| `OrderReservation.ReleasedAtMostOnce` | agent/order_reservation.py:86-93 | no reservation is given back twice in any run |
| `CycleCash.EnforcedCycle` | agent/trading_agent.py:1133-1182 | in ENFORCE mode, over every interleaving of the candidates with failures and lost answers anywhere: orders reported as submitted are worth at most the active reservations, those at most the starting cash, and the difference is what tasks without an order still hold; at the broker is at most what is reserved plus what it took without its reservation being kept |
| `CycleCash.EnforcedTaken` | agent/decision_maker.py:171-182 | in ENFORCE mode, as long as every order taken is reported as submitted or its task fails, the orders at the broker are worth at most the starting cash |
| `CycleCash.SpentTwice` | agent/trading_agent.py:1175-1182 | one order taken but not reported, and the next candidate reserves the same cash: twice the starting cash is at the broker |
| `CycleCash.CashSafeIff` | agent/trading_agent.py:1142-1143 | no cycle has more than the starting cash at the broker, if and only if the mode is ENFORCE and no order taken is reported as not submitted |
| `CycleCash.NoMarketOrders` | agent/trading_agent.py:1199-1214 | in ENFORCE mode every BUY order submitted or taken has a price and a positive amount |
| `CycleCash.ShadowOverspends` | agent/trading_agent.py:1215-1236 | in SHADOW mode a single candidate is submitted and taken beyond the cash |
| `CycleCash.DroppedIff` | agent/trading_agent.py:1142-1143 | in any run in ENFORCE mode a candidate with positive price and quantity is dropped if and only if its amount does not fit beside the active reservations |
| `CycleCash.SecureOutcome` | agent/trading_agent.py:1133-1147 | the reservation step of one candidate: a new active row and an order to come if it fits, else dropped in ENFORCE mode and passed on without a reservation in SHADOW mode; no other task changes |
| `CycleCash.SendOutcome` | agent/trading_agent.py:1160-1182 | sending, answer and exception of one candidate: its reservation is given back if and only if the answer does not report the order; an exception gives nothing back |
| `SellToken.TokenSet.Acquire` | agent/trading_agent.py:98-106 | takes the normalized symbol if it is free and says whether it did |
| `SellToken.MutualExclusion` | scheduler/scheduler.py:826-862 | for every interleaving of selling tasks (stops only while nothing is held): no symbol is sold by two tasks at a time, the set is exactly what is held, and it is empty once all tasks are through |
| `SellToken.TokenMoves` | agent/trading_agent.py:2462-2496 | a task gets the token if and only if nobody holds that symbol; leaving, also by an exception, removes its token and no other |
| `SellToken.NextTurn` | agent/trading_agent.py:2462-2496 | every turn of a task deals with the next symbol of its list: it sells it, or passes it over if the symbol is taken; what other tasks do does not move it |
| `SellToken.WorksThrough` | scheduler/scheduler.py:826-862 | over any run a task goes through its list in order and never back |
| `SellToken.StopSoundIff` | agent/trading_agent.py:91-95 | clearing the set on stop keeps the protocol sound if and only if no task holds a token |
| `SellToken.StopSafeIff` | agent/trading_agent.py:91-95 | after a stop no symbol is ever sold by two tasks, whatever happens later, if and only if no task holds a token at the stop |
| `SellToken.StopBreaksExclusion` | agent/trading_agent.py:91-95 | a stop while a token is held lets a second task sell the same symbol |
| `Reconfiguration.ReconfigurationBarrier` | services/runtime_reconfiguration_service.py:96-166 | for every interleaving: nobody ever waits for either lock, at most one cycle runs and one apply is active, and once an apply saw the agent idle no cycle runs until it is over |
| `Reconfiguration.EntersIff` | agent/trading_agent.py:117-131 | in every reachable state a triggered cycle runs if and only if no other runs and no settings are being applied; otherwise it is skipped |
| `Reconfiguration.AppliesIff` | services/runtime_reconfiguration_service.py:96-108 | in every reachable state an apply begins if and only if no other is active; otherwise it is rejected |
| `Reconfiguration.WatchReports` | agent/trading_agent.py:158-172 | in every reachable state the watch reports an idle agent if and only if no cycle runs and nothing is analyzed or sold, and otherwise goes on to its deadline |
| `Reconfiguration.ReportStays` | services/runtime_reconfiguration_service.py:122-155 | what the watch reported is what the apply carries to its end |
| `Reconfiguration.ApplyGoesOn` | services/runtime_reconfiguration_service.py:104-166 | an apply that has begun can always go on to its next phase, and can end from any of them, also by an exception |
| `Reconfiguration.CycleEnds` | agent/trading_agent.py:127-156 | a running cycle runs until it ends itself |
| `Reconfiguration.AnyTime` | agent/trading_agent.py:112-125 | cycles, applies and work outside the cycle may be triggered at any time, and change nothing else by that |
| `Reconfiguration.ChangesSafelyIff` | services/runtime_reconfiguration_service.py:96-126 | in every reachable state where an apply takes its lock: it never changes settings under a running cycle, whatever happens later, if and only if no cycle runs at that moment |
| `Reconfiguration.OnlyAfterTimeout` | agent/trading_agent.py:158-172 | settings change under a running cycle only for an apply whose watch reported that the agent was not idle |
| `Reconfiguration.TimeoutBreaksBarrier` | services/runtime_reconfiguration_service.py:122-126 | a cycle that outlasts the deadline has the settings changed under it |
| `Rollups.Store.RunMaintenance` | services/observability_maintenance_service.py:46-114 | the whole new state of a run; nothing changes when the keys of the window cannot be sorted |
| `Rollups.BuildRollups` | services/observability_maintenance_service.py:223-266 | fails if and only if two keys agree up to a component that only one of them has; otherwise the group by of the rows |
| `Rollups.GroupRows` | services/observability_maintenance_service.py:224-233 | each row is in the group of its key, in order, one group per key |
| `Rollups.OutcomesAddUp` | services/observability_maintenance_service.py:238-257 | success, partial, error and skipped counts of a rollup add up to its sample count |
| `Rollups.SamplesAddUp` | services/observability_maintenance_service.py:248 | the sample counts of all groups add up to the number of rows |
| `Rollups.SummaryIs` | services/observability_maintenance_service.py:236-259 | every counter of a rollup counts, or adds up, its own column over the rows of the group; a row without a status or with another one is an error |
| `Rollups.KeyIs` | services/observability_maintenance_service.py:226-232 | a row belongs to the full hour it was recorded in and to its own type, name, provider and model |
| `Rollups.IncomparableIff` | services/observability_maintenance_service.py:236 | two keys cannot be compared if and only if comparing the tuples component by component meets a missing one at the first difference |
| `Rollups.SettingsAre` | services/observability_maintenance_service.py:54-56 | unset means 72 hours, 30 days and 365 days; less than one means one |
| `RollupLaws.InsertsAreFresh` | models/execution_metric_hourly_rollup.py:13-22 | what a run inserts never meets a stored rollup of the same bucket and dimensions |
| `RollupLaws.RepeatableIff` | services/observability_maintenance_service.py:52-99 | a second run at the same time changes nothing, whatever is stored, if and only if raw retention exceeds the lookback or rollups are kept no longer than raw rows |
| `RollupLaws.DroppedTooEarly` | services/observability_maintenance_service.py:93-99 | otherwise a row that the first run counts and drops is missed by the second |
| `RollupHistory.RollupsEqualHistory` | services/observability_maintenance_service.py:52-99 | after any run of recording and maintenance with a clock that does not go back, runs that reach back, and raw retention above the lookback: the stored rollups are exactly the group by of all rows ever recorded, for complete buckets within rollup retention |
| `RollupHistory.CloseRunsReachBack` | services/observability_maintenance_service.py:57 | runs no further apart than the lookback leave no gap |
| `Percentile.NearestRankSplits` | services/observability_maintenance_service.py:32-37 | the percentile is one of the values, at least the given share of them is at most that, and less than that share is below |
| `EventDetector.FollowsHighIff` | realtime/event_detector.py:146-152 | high and stop after any positive prices are max(h0, prices) and, after a new high, max(s0, high * (1 - pct/100)), if and only if pct is at most 100 or max(h0, 0) * (1 - pct/100) <= s0 |
| `EventDetector.NeverFalls` | realtime/event_detector.py:146-152 | stop and high never fall, whatever the percentage |
| `EventDetector.ImpliedHigh` | realtime/event_detector.py:88-92 | the high derived from a stop puts the stop where it is, and prices up to it change nothing |
| `EventDetector.Detector.SetThresholds` | realtime/event_detector.py:59-94 | the levels afterwards, the other symbols untouched, an error for unknown names on a new symbol only; the shared defaults keep their values |
| `EventDetector.OverlayUpdates` | realtime/event_detector.py:75-92 | every given level replaces its own, the others stay, and the high is derived from the stop only for a trailing percentage between 0 and 100, no high and a positive stop |
| `EventDetector.Detector.GetThresholds` | realtime/event_detector.py:96-97 | hands out the shared default object if and only if the symbol is unknown, and otherwise the symbol's own |
| `EventDetector.Detector.FollowPrice` | realtime/event_detector.py:146-152 | ratchets the object looked up earlier, whatever has become of it; if that is the default object nothing changes |
| `EventCooldown.Gate.ShouldDedup` | realtime/event_detector.py:365-374 | suppresses within 60 seconds of the last one sent, and otherwise remembers the time |
| `EventCooldown.SentIff` | realtime/event_detector.py:365-374 | over any run an event goes out if and only if every earlier one of its symbol and kind that went out is at least 60 seconds back |
| `EventCooldown.Gate.RecordRecent` | realtime/event_detector.py:283-288 | the new entry first, the old one of its key removed, cut to 40 |
| `EventCooldown.RecentOnePerKey` | realtime/event_detector.py:283-288 | after any run one entry per symbol and kind, at most 40, newest first |
| `EventCooldown.RecentIs` | realtime/event_detector.py:283-288 | the list is determined by the run: the last event of each symbol and kind, newest first, the forty newest of them |
| `Liquidation.PendingSells` | scheduler/scheduler.py:953-961 | the pending quantity per symbol, over sell orders with a symbol and a positive rest |
| `Liquidation.Adjust` | scheduler/scheduler.py:963-986 | the holdings with something left to sell, cut down to it, in order |
| `Liquidation.OfferedIff` | scheduler/scheduler.py:964-986 | with distinct symbols a holding is offered if and only if it exceeds the pending sells of its symbol, and then offered and pending make up the holding |
| `Liquidation.NeverOffersTooMuch` | scheduler/scheduler.py:964-986 | per symbol never more is offered than is held beyond the pending sells, also when a symbol is listed twice |
| `Liquidation.OffersAll` | scheduler/scheduler.py:964-986 | with distinct symbols exactly that much |
| `Liquidation.FitsBesideIff` | scheduler/scheduler.py:957-968 | what is offered fits beside all pending sells of the share if and only if these are spelled like the holding |
| `SmartLiquidation.Smart` | scheduler/scheduler.py:1202-1319 | the two lists, or an exception, as a function of what could be read, the answers and the fallback rules |
| `SmartLiquidation.Collect` | scheduler/scheduler.py:1130-1200 | readable holdings, the lookup by symbol where a later one replaces an earlier, and the rest |
| `SmartLiquidation.ReadAnswers` | scheduler/scheduler.py:1251-1268 | the last answer of each held symbol, in upper case and with its confidence; reading ends at a malformed decision, and what was read before counts |
| `SmartLiquidation.Judge` | scheduler/scheduler.py:1272-1302 | HOLD by the answer, or by the fallback rules without one, else sold; an exception exactly if some confidence cannot be written down |
| `SmartLiquidation.JudgedByLast` | scheduler/scheduler.py:1272-1302 | a holding is kept if and only if its last readable answer says HOLD, or there is none and the fallback rules keep it; it breaks the lists if and only if that answer has a confidence that is no number |
| `SmartLiquidation.ReadableIs` | scheduler/scheduler.py:1251-1268 | the answers that count are those before the first malformed decision about a held symbol |
| `SmartLiquidation.EachHoldingOnce` | scheduler/scheduler.py:1202-1319 | whatever is answered or omitted: lists come back and every holding is in exactly one of them exactly once, if and only if the last answer of every readable holding has a numeric confidence or none, and no two different readable holdings share a symbol |
| `SmartLiquidation.HeldIff` | scheduler/scheduler.py:1272-1302 | without mix-ups, when lists come back: exactly the readable holdings that are answered HOLD, or held by the fallback rules where the answer is silent, are kept, and exactly the others sold |
| `SmartLiquidation.ConfidenceBreaks` | scheduler/scheduler.py:1279-1294 | one answer for any readable holding with a confidence that is no number, and there are no lists |
| `SmartLiquidation.SellRound` | scheduler/scheduler.py:1026-1050 | orders that succeeded are sold, and only orders answered with a failure are tried again |
| `SmartLiquidation.RetrySafeIff` | scheduler/scheduler.py:1053-1082 | after the first round: however the retry goes no more is sold of a symbol than was to be sold, if and only if no more timed out with the order taken than was skipped |
| `SmartLiquidation.LiquidationBound` | scheduler/scheduler.py:953-1082 | from the holdings through both rounds of orders: per symbol at most what is held beyond the pending sells is sold, and once more what was answered as a failure in the first round although the broker took it |
| `SmartLiquidation.DayTradingSafeIff` | scheduler/scheduler.py:953-1082 | where everything on offer is sold: after the first round no retry can sell more than is held beyond the pending sells, if and only if no more timed out than was skipped |
| `MarketCalendar.NextMarketOpen` | scheduler/market_calendar.py:236-244 | the least trading-day 08:00 strictly after the given time |
| `MarketCalendar.NextKrxOpen` | scheduler/market_calendar.py:225-233 | the least trading-day 09:00 strictly after the given time |
| `MarketCalendar.FindTradingDay` | scheduler/market_calendar.py:241-243 | the search ends at the first trading day after the given one |
| `MarketCalendar.NextSessionStart` | scheduler/market_calendar.py:162-186 | the result for each session |
| `MarketCalendar.FiniteHolidaysReopen` | scheduler/market_calendar.py:18-52 | any finite list of holidays leaves a later trading day |
| `MarketCalendar.HoursAndSessions` | scheduler/market_calendar.py:62-129 | regular hours hold if and only if the session is KRX_NXT or KRX_CLOSE; the other hour checks agree with the session except at 08:50, in the gap before 09:00, and at 15:30 |
| `MarketCalendar.SessionsByClock` | scheduler/market_calendar.py:39-129 | the session and the trading hours by weekday, holiday, hour and minute: 08:00 to 08:50, 09:00 to 15:20, 15:20 to 15:30 sharp, and after that to 20:00 sharp, Monday to Friday |
| `MarketCalendar.AtShows` | scheduler/market_calendar.py:27-40 | a named time of day is what a clock shows at it |
| `MarketCalendar.PlusMoves` | scheduler/market_calendar.py:185 | adding to a moment moves it by exactly that, over midnight too |
| `MarketCalendar.NotBefore` | scheduler/market_calendar.py:162-186 | the next session start is never before the given time, and equals it only at 15:30:00 sharp on a trading day |
| `MarketCalendar.NextSessionIff` | scheduler/market_calendar.py:162-186 | it is the first session start after the given time if and only if that is neither between 08:50 and 09:00 nor 15:30:00 sharp on a trading day |
| `NewsIndex.NormalizeSymbols` | services/news_ingest_service.py:662-671 | the first occurrence of each non-empty normalized symbol |
| `NewsIndex.ChosenIff` | services/news_ingest_service.py:662-671 | a symbol is kept if and only if it is a non-empty normalized one of the item |
| `NewsIndex.ChosenOnce` | services/news_ingest_service.py:669-670 | no symbol is kept twice |
| `NewsIndex.StoredIff` | services/news_ingest_service.py:662-671 | exactly the lists of distinct non-empty symbols in normal form are stored |
| `NewsIndex.RoundTripIff` | services/news_ingest_service.py:674-684 | the column gives the list back if and only if no symbol is empty or holds a comma |
| `NewsIndex.OccursIff` | services/news_ingest_service.py:674-677 | for such lists the delimited symbol occurs in the column if and only if the symbol is in the list |
| `NewsIndex.FindsFragments` | services/news_ingest_service.py:662-677 | a symbol with a comma is found by its fragments |
| `NewsFilter.FilterFindsIff` | repositories/news_item_repository.py:36-38 | for a symbol without commas and wildcards, with ASCII letters folded as the database does: an item is found if and only if some symbol of its clean list is the same up to case |
| `NewsFilter.FindsPieceIff` | repositories/news_item_repository.py:36-38 | for such a symbol and any list: an item is found if and only if the symbol stands between two commas, as a symbol or as a piece of one that holds a comma |
| `NewsFilterLaws.ExactIff` | repositories/news_item_repository.py:36-38 | for every symbol asked for, in normal form: the filter answers by membership on all stored columns without commas in a symbol, if and only if the symbol asked for holds neither comma nor wildcard, or is impossible |
| `NewsFilterLaws.NothingFound` | repositories/news_item_repository.py:36-38 | a symbol with a piece that is empty, has a space at an end, has a prefix to drop, or comes more often than its letters can be spelled, is never found |
| `NewsFilterLaws.CommasMislead` | services/news_ingest_service.py:662-677 | for every symbol asked for there is a stored list with a comma in a symbol that is found although the symbol is not on it |
| `NewsFilter.PercentFindsAll` | repositories/news_item_repository.py:38 | a lone percent sign finds every item that has symbols |
| `NewsFilter.UnderscoreFinds` | repositories/news_item_repository.py:38 | an underscore finds any character in its place |
| `NewsIngest.NewsStore.Ingest` | services/news_ingest_service.py:161-219 | stored identities, total counts, counts per source and created items after a batch |
| `NewsIngest.CountsAddUp` | services/news_ingest_service.py:181-208 | received is created plus duplicates plus skipped, in total and per source, and counts the items of that source, in total all of the batch |
| `NewsIngest.CreatedIsGrowth` | services/news_ingest_service.py:199-208 | the created items are new and as many as the store grew by |
| `NewsIngest.StoredIff` | services/news_ingest_service.py:193-208 | afterwards exactly the old identities and those of the usable items are stored |
| `NewsIngest.CountsAre` | services/news_ingest_service.py:181-208 | the counters by their meaning, in total or of one source: received counts the items, skipped the unusable ones, created those whose identity is neither stored nor earlier in the batch, duplicates the others |
| `NewsIngest.CreatedAre` | services/news_ingest_service.py:199-208 | the created items are those, in their order |
| `NewsIngest.UsableIff` | services/news_ingest_service.py:552-556 | an item is used if and only if neither its source nor its title is blank; without a source it counts as UNKNOWN |
| `NewsIngest.SameItemIff` | services/news_ingest_service.py:687-698 | two items of one source and one time are the same if and only if their external ids are; without any, if their addresses are, whatever the titles; without both, if their titles are up to case |
| `NewsIngest.ReingestIff` | services/news_ingest_service.py:649-655 | the same batch at a later time creates nothing if and only if all its usable items are dated |
| `NewsIngest.ChooseCategories` | services/news_ingest_service.py:347-364 | by position, at most three; a category is passed over if and only if three come before it, or one chosen before it has its name or overlaps it |
| `JsonRepair.EscapeNewlinesInStrings` | core/json_utils.py:102-144 | the loop computes the character-wise repair |
| `JsonGrammar.RepairMends` | core/json_utils.py:102-144 | for every text seen as strings of characters and escapes between quotes, with other characters around them, complete or cut off anywhere: the repair is the same text with each plain line feed, carriage return and tab in a string replaced by its escape |
| `JsonGrammar.EveryText` | core/json_utils.py:112-129 | every text is of that form |
| `JsonRepair.SameState` | core/json_utils.py:112-144 | after the repair of any prefix the scan is in the state it has after the prefix |
| `JsonRepair.Idempotent` | core/json_utils.py:102-144 | repairing twice is repairing once |
| `JsonRepair.FixedIff` | core/json_utils.py:131-142 | the repair leaves a text as it is if and only if no raw line feed, carriage return or tab is in a string outside an escape |
| `JsonRepair.RepairIsClean` | core/json_utils.py:131-140 | the result has none of those |
| `JsonRepair.OutsideUnchanged` | core/json_utils.py:126-142 | the text outside of strings, quotes included, is unchanged |
| `JsonRepair.MeaningKept` | core/json_utils.py:131-140 | a reader that also accepts raw control characters reads the same strings |
| `JsonRepair.StrictIff` | core/json_utils.py:131-140 | the strings of the result are free of control characters, as section 7 of RFC 8259 asks, if and only if those three outside an escape were the only ones |

## Left out

- Calls of language models, prompts, providers, the broker, HTTP, WebSocket and the database engine: their answers are
  parameters or moves of a schedule, each `session.begin()` block without broker calls is one atomic step, all writes of
  a cleanup or a recovery are one, and repository queries are filters with a stable order.
- Instants are integers: time zones are left out, and with them the subtraction of an entry time read back without a
  zone from a closing time with one.
- OrderLifecycle: a recovery sees the columns of its rows at its commit; of a row that is still pending they are the
  ones it has read. The backfill of missing lots and the repair of zero prices in the same job are left out: they add
  rows without an order id and set entry prices, and change no status. Cancelling the orders of failed rows is left out.
- Rounding and floating point: all figures are reals before `round`.
- Notes and other free text on records, log lines and activity events; of a trade record the columns that are only
  copied are one opaque context.
- CycleCash: a task's order is taken at most once; what the broker refused for its rate limit and is sent again was not
  taken.
- Settings are constant during a cycle; reading the reservation mode twice with different results is not modelled.
- Reservation ids are running numbers instead of random UUIDs.
- Backtest positions are values in a list: aliasing of position objects is not modelled, and removal of the first equal
  one is what the list's `remove` does.
- Backtest: a buying price of zero buys nothing, where the code raises; the laws about whole runs are for bars whose
  close is positive after slippage.
- Technical indicators, the rule-based analysis and the strategies: together one arbitrary function of the bars so far.
- BacktestCash.SolventIff: requires some capital, a slippage from 0 % to below 100 %, and no negative commission.
- Drawdown: other statistics of the metrics object (Sharpe ratio, win averages, profit factor) are left out as single
  expressions.
- Reporting: estimated costs, news context and rollout comparisons are left out; a trade is its key and profit.
- Reconciliation.BuildReport: the lists hold order ids or rows, the serialized payloads are left out; a record always
  has a creation time, so the branch of the staleness check for a missing one is not reached.
- The news handler and exit orders in the reconfiguration protocol: the barrier is about trading cycles and
  `apply_settings` only. The settings route and the toggles (api/routes/admin.py:1583-1586,
  api/routes/dashboard.py:29-49) change settings without the apply lock.
- Lock fairness and cancellation of waiting tasks: nobody ever waits in the modelled protocols.
- Resource rollups, which share the maintenance transaction with the execution rollups, and the storage summary.
- Sorting in the rollup builder raises as soon as two incomparable keys are present; the order of comparisons is not
  modelled, and letters are folded for ASCII only.
- EventDetector: volume spikes, price movement checks and scores of events are left out as single expressions; an
  event without a symbol is not recorded and has no key.
- SmartLiquidation: bookkeeping after a sale and the rest of the log text; a retry that finds the token taken ends the
  bookkeeping with an exception after the orders were placed.
- MarketCalendar: `Reopens`, a later trading day after every day, is a precondition of the searches, met by every finite
  list of holidays; the US hours and labels are left out.
- Symbols: white space and digits are the ASCII ones.
- NewsFilter.FilterFindsIff: requires a symbol without comma and wildcards; `NewsFilterLaws.ExactIff` covers the others.
- NewsFilterLaws.ExactIff: requires a symbol of less than 524288 characters if it holds both commas and wildcards, since
  there are finitely many characters to fill them in.
- NewsIngest: hashes are taken as injective, titles come with white space collapsed, dates come parsed; matching stock
  names, translation metadata and items that raise while they are parsed are left out.
- JsonRepair: trailing commas, single quotes and the recovery of truncated text, which are regular expressions and a
  parser call.
- Simple CRUD services, clamps, the recommendation workflow and settings coercion.
