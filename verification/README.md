# Verification of the backtest broker, the API limits and the data pipelines

A Dafny model of the stateful parts of the repository, with proofs of what they keep over whole
runs. `dafny verify dfyconfig.toml` checks all of it.

## What is modelled

- **Backtest broker** (`internal/backtest`). `Market.dfy` has orders, trades and the price arithmetic
  of a fill; `Positions.dfy` average-cost positions and what one fill does to the account, in quote
  and in base-asset accounting. `Broker.dfy` is the broker as an object whose methods update cash,
  positions, entry ledgers, the pending queue and the trade list; each method is proved against a
  function of `Books.dfy` that gives its whole new state. About those functions, and over all runs of
  submits, cancels, bars, the three immediate execution paths and cash adjustments:
  `Ledger.dfy` (positions and entries are what the trades make them), `QueueLaws.dfy` (no order is lost
  or duplicated, reduce-only safety), `PnlLaws.dfy` (equity continuity and the profit identity),
  `Twap.dfy` (slicing), `TwapReduce.dfy` (slicing of reduce-only orders), `FillLaws.dfy` (when an order
  fills, at what price and for how much), `Surprises.dfy` (concrete runs on which a documented promise fails).
- **Option spreads** (`internal/backtest/context.go`, `options.go`). `Chains.dfy` has contracts and their
  lookup in the current chain; `SpreadContext.dfy` the tracker and the cash paths as objects, proved
  against `Spreads.dfy`; `SpreadLaws.dfy` proves the cash laws, `SpreadTerms.dfy` at which prices legs open
  and close.
- **Rate limiter** (`internal/api/middleware.go`). `RateLimiter.dfy`: the bucket map with refill, sweeps
  and displacement; the admission bound of a key beside any others; refinement of the lazy map to one
  ideal bucket per key; when rejected requests leave a trace.
- **Traffic meter** (`internal/api/traffic_meter.go`). `TrafficMeter.dfy`: buckets, peak windows,
  snapshots, discards. `TrafficFlush.dfy`: the flush protocol as interleaved steps. `TrafficPeaks.dfy`: what
  each five-second window holds, and what the peaks of written rows are.
- **API-key cache** (`internal/apikeyauth/service.go`). `ApiKeyCache.dfy`: the service as an object, and
  calls split into clock read, get, lookup and set, interleaved in any way.
- **Macro sync** (`cmd/us-market-macro-fmp-sync`). `Membership.dfy`: index membership rebuilt
  backwards. `Windows.dfy`: trailing sums, the rolling window, the as-of join. `Revisions.dfy`: the
  rows of a sync, and the versioned insert over a table that can fail between batches.
  `Observations.dfy`: what each row says.
- **API documents** (`cmd/api-docs-markdown`). `SchemaClosure.dfy`: the schemas a document must
  describe, over definitions that may be cyclic.
- `Sums.dfy` has sums over maps and sequences, `Ordering.dfy` sorted lists of strings, `Basics.dfy` what
  all share.

Prices, quantities and rates are exact reals, and a price that is missing, NaN or infinite is one
that is not positive. Times are integers or reals of one clock that does not run backwards.

## Where the code and its documentation differ

The model follows the code. Where a promise fails, its exact condition is proved, and mostly a concrete
run on which it fails.

- An order built without `Buy()` or `Sell()` (`internal/backtest/order_builder.go:41-66`) carries
  neither side. It is booked as bought and paid as sold, so it makes twice its amount out of nothing.
  `PnlLaws.RunPnl`: the profit identity holds exactly for the runs whose trades in quote accounting all
  name a side, and so whenever every order handed in does.
- Under exit valuation a fill that crosses zero changes the mark of what remains.
  `PnlLaws.EquityContinuity`: a fill at the mark is free exactly when it names a side (which only quote
  accounting asks for) and the mark is kept.
- `ExecuteStopOrderNow` ignores `ReduceOnly`, although `internal/backtest/order_builder.go:91` promises
  that it never increases or reverses an entry. `QueueLaws.ReduceOnlyStop`: it keeps that promise exactly
  for orders against their entry that are sized, at the stop or the open, for no more than it holds.
- `OpenSpread` takes legs that are already marked closed. `SpreadLaws.RunSpreadCash` names the
  discrepancy: the exits that such legs claim.
- A spread leg that names no side is paid for like a bought one and marked like a sold one.
  `SpreadLaws.CloseAtMark`: closing at the mark costs just the commission exactly when the leg names a
  side. `SpreadLaws.SidelessLegIsMarkedAsSold` is a run on which it does not.
- A reduce-only TWAP order counts down the quantity it was submitted with, while its slices are parts of
  what its entry holds on each bar. `TwapReduce.LeavesFlatIff`: it leaves its entry flat exactly when it
  fills all its slices; `TwapReduce.DroppedOpenIff`: it is dropped before that, with the entry open,
  exactly when the entry has grown to at least the slices left times what it still counts.
  `Surprises.GrownEntryStaysOpen` is such a run.
- A streaming response that finishes between a snapshot and its discard loses the bytes it moved
  before the cutoff. `TrafficFlush.FlushLosesNothingIff`: nothing is lost exactly when nothing late
  was filed.
- An API key can be refused by a call that started before its expiry. `ApiKeyCache.AcceptedIffReadInTime`: a
  call is accepted exactly when the read behind its answer was made by a call that started before the expiry,
  and so always when it completes before (`ApiKeyCache.AcceptedBeforeExpiry`). `ApiKeyCache.LateReadIsRefused`
  is a run on which it is refused.
- A key with a limit under half a request per second is never admitted
  (`RateLimiter.SlowKeyIsNeverAdmitted`), whatever other keys do.
- A rejected request can leave a trace when the rate of its key changes. `RateLimiter.RejectionTraceIff`:
  it leaves none exactly when the tokens it left, capped to the later burst, are those the later request
  would have found without it. `RateLimiter.TraceIsVisibleIff`: any trace shows in some later decision,
  unless the later rate is under half a request per second.
- Types in API documents look through `allOf`; the collection of schemas does not.
  `SchemaClosure.LinkIsCollected`: in every document a shown name is collected for its field when no `allOf`
  lies on the way. `SchemaClosure.LinkIsCollectedIff`: for a field that says one thing (a reference, one
  `allOf`, or one element type) only then.
- The collection follows a definition that is itself a reference and not the fields beside it, which the
  document shows. `SchemaClosure.FieldsLinkToSections`: the links of every other definition, seen through
  no `allOf`, lead to sections exactly when they are links; `SchemaClosure.LinkBesideReference` is a document
  on which one of a reference does not.

## Assumptions

- `ClickHouse`: one batch arrives as a whole or not at all, and the grouped query returns, per key in
  the window, the value at the highest revision.
- No market, underlying or symbol of an option contract contains `|`, which separates them in its key.
- `AddDate(0, 1, 0)` moves a time forward by at least a second.
- Bars, anchors, quarterly records and constituent changes come sorted, as their loaders leave them.
- Months start on a whole second, the last bar of a month lies in the month, and the columns anchors are
  read from hold whole seconds, as their types say (schema/clickhouse/us_market.sql:139).

## Model

| member | source | states |
|---|---|---|
| Market.QuoteKeepsTerms | internal/backtest/broker.go:355-452 | On any bar and for every order type: a fill has a valid quantity and price, a limit is never overrun, a triggered stop never beaten, and a market or TWAP fill never improves on the open |
| Market.StopKeepsTerms | internal/backtest/broker.go:399-445 | A triggered stop fills at the stop price or worse, gaps included |
| Market.SlippageIsAdverse | internal/backtest/broker.go:669-675 | Slippage moves a buy up and any other side down |
| Market.MinAvailable | internal/backtest/broker.go:739-750 | The least of the valid prices, and not a valid price if there is none |
| Market.MaxAvailable | internal/backtest/broker.go:752-763 | The greatest of the valid prices, and not a valid price if there is none |
| FillLaws.FillsIff | internal/backtest/broker.go:355-452 | For each of the five order types, from the bar's prices and the order's fields: the bar fills the order if and only if it has an open, rises or falls to the stop and to the limit as the type and side require, and the order has a size and a price; the price is the open, the better of open and limit, or the worse of open and stop, slipped where the type says so; the quantity is what the order asks for |
| FillLaws.TurnFillsIff | internal/backtest/broker.go:355-478 | The same of one order in any state, reduce-only orders sized to their entry; the trade has the order's identity and the commission of its amount; an order that does not fill leaves the state as it was and is kept |
| FillLaws.ProcessFillsIff | internal/backtest/broker.go:166-214 | In every state with an ordered queue (all reachable ones, by QueueLaws.RunKeepsQueue), whatever waits beside it: an order that is not reduce-only gets exactly one trade, at its terms, if its bar fills it, and otherwise none and stays pending |
| FillLaws.UnmetOrderWaits | internal/backtest/broker.go:399-452 | An order whose stop or limit the bar does not reach stays pending as it is, reduce-only or not |
| FillLaws.PriceIsInBar | internal/backtest/broker.go:355-452 | Without slippage every fill of every type is at a price that the bar has traded at, if it traded at the open |
| FillLaws.ExecuteNowIff | internal/backtest/broker.go:219-237 | An immediate execution trades if and only if the bar would fill the order, on the same terms, and books and records that trade |
| FillLaws.ExecuteAtCloseIff | internal/backtest/broker.go:242-291 | Execution at the close trades any order, whatever its limit or stop, at the slipped close of its side, and books and records that trade |
| FillLaws.ExecuteStopIff | internal/backtest/broker.go:295-353 | An immediate stop trades if and only if the bar reaches the stop price and the order has a size, at the worse of open and stop with both slippages |
| FillLaws.MarkIs | internal/backtest/broker.go:629-644 | The exit mark is the price that closing the position at the close would get before slippage; the mid mark is halfway between bid and ask; the close mark is the close |
| FillLaws.CommissionIs | internal/backtest/broker.go:646-667 | A flat charge, a share of the amount or a charge for each unit, and nothing without a valid quantity and price |
| FillLaws.BaseAssetIff | internal/backtest/broker.go:610-616 | PnL is kept in the base asset of exactly the security that is the account unit, and never for US dollars or no unit |
| Positions.FillConserves | internal/backtest/position.go:50-107 | Open, add, reduce, close and flip alike: the quantity moves by the signed fill, cost basis and average stay consistent, and (cost of the open quantity) - (realized PnL) moves by the signed cost of the fill |
| Positions.FillAverages | internal/backtest/position.go:50-107 | Opening and adding realize nothing and average the price by quantity; a fill against the position realizes its distance to the average on what it closes, keeps the average while something remains, and starts anew at its own price beyond that |
| Positions.FillAtMark | internal/backtest/position.go:13-107 | Realized plus unrealized PnL at any mark moves by signed quantity times (mark - fill price) |
| Positions.QuoteGain | internal/backtest/broker.go:557-601 | Quote accounting at any fill price and any marks: cash plus market value gains the price improvement, plus the change of mark on what remains, plus twice the amount of a sideless fill |
| Positions.BaseCash | internal/backtest/broker.go:574-608 | In base-asset accounting a fill pays exactly the PnL it realizes, converted at its own price, less the converted commission |
| Positions.BaseGain | internal/backtest/broker.go:557-623 | Base-asset accounting at a fill at the mark: the gain is the revaluation of what remains between the two marks |
| Positions.FairFill | internal/backtest/broker.go:557-644 | A fill at the mark neither makes nor loses anything but its commission if and only if it names a side (in quote accounting) and the mark of what remains is kept, under every valuation |
| Positions.SidelessFillGains | internal/backtest/broker.go:574-644 | A quote-accounted fill at the mark that names no side always gains, also when it crosses zero and the mark moves |
| Positions.CloseAndMidKeepMarks | internal/backtest/broker.go:629-644 | Close and mid valuation mark long, short and flat positions alike |
| Positions.ShrinksIffReduces | internal/backtest/broker.go:122-134 | A valid fill neither flips nor enlarges a position if and only if it is against it and at most as large |
| Brokers.Broker.constructor | internal/backtest/broker.go:77-86 | A new broker: initial capital, empty books, ids from 1 |
| Brokers.Broker.SetPriceFunc | internal/backtest/broker.go:89-91 | Replaces the prices and nothing else |
| Brokers.Broker.SubmitOrder | internal/backtest/broker.go:94-112 | Whole new state and returned id: a reduce-only order is sized to its entry, refused with 0, or answered with the id of the pending one; any other is queued under the next id |
| Brokers.Broker.CancelOrders | internal/backtest/broker.go:154-162 | The filtering loop leaves the queue without the security's orders and everything else as it was |
| Brokers.Broker.ApplyTrade | internal/backtest/broker.go:136-151 | Books a trade on its position and, if tagged, on its entry, which is removed when flat |
| Brokers.Broker.ExecuteOrderOnBar | internal/backtest/broker.go:355-478 | One order on one bar: whole new state, trade, and whether its data were usable |
| Brokers.Broker.ProcessPending | internal/backtest/broker.go:166-214 | The loop over the queue, with TWAP requeueing, is the sweep that fills each order in turn on the state its predecessors left |
| Brokers.Broker.ExecuteOrderNow | internal/backtest/broker.go:219-237 | Whole new state and trade of an immediate execution at the open |
| Brokers.Broker.ExecuteOrderAtCloseNow | internal/backtest/broker.go:242-291 | Whole new state and trade of an immediate execution at the close |
| Brokers.Broker.ExecuteStopOrderNow | internal/backtest/broker.go:295-353 | Whole new state and trade of an immediate stop; the reduce-only flag is not looked at |
| Brokers.Broker.AdjustCash | internal/backtest/broker.go:492-494 | Moves cash and nothing else |
| Brokers.Broker.PositionWorth | internal/backtest/broker.go:557-572 | What one position adds to the market value in either accounting mode |
| Brokers.Broker.TotalEquity | internal/backtest/broker.go:481-572 | The accumulating loop, in whatever order it visits the positions, gives cash plus the total market value |
| Ledgers.RunKeepsLedger | internal/backtest/broker.go:114-151 | Over every run: positions and net costs are the signed sums of the trades, each entry is the signed sum of its tagged trades, no stored entry is flat, `trades[i].ID` = i + 1, the next id is one more than the number of trades, every trade has a valid quantity and price |
| Ledgers.ApplyKeepsLedger | internal/backtest/broker.go:94-478 | Every single operation keeps that invariant from any state in which it holds |
| Ledgers.SweepKeepsLedger | internal/backtest/broker.go:166-214 | So does a sweep, counting the trades it has made but not yet recorded |
| Ledgers.SweepAccounts | internal/backtest/broker.go:166-214 | Over any queue: every order is kept or filled, a non-TWAP order exactly one of the two, none appears from nowhere, none fills twice, and the order of ids is kept |
| QueueLaws.ProcessAccounts | internal/backtest/broker.go:166-214 | In every reachable state `ProcessPending` loses and duplicates no order and records exactly the fills it returns |
| QueueLaws.RunKeepsQueue | internal/backtest/broker.go:94-112 | Over every run: pending ids strictly increase below the next id, and at most one reduce-only order waits for each (security, entry) |
| QueueLaws.SubmitReturns | internal/backtest/broker.go:94-112 | A submission that can reduce nothing is refused with 0, one whose entry has a pending reduce-only order gets the id of that one, and any other is queued last under a new id, which is returned |
| QueueLaws.WithoutMembers | internal/backtest/broker.go:154-162 | Cancelling removes exactly the orders of the security |
| QueueLaws.WithoutKeepsOrder | internal/backtest/broker.go:154-162 | ... and leaves the others in their order |
| QueueLaws.ReduceOnlyQuantity | internal/backtest/broker.go:122-134 | A reduce-only fill is against its entry, for at most its size, and for exactly its size unless sliced |
| QueueLaws.ReduceOnlyOnBar | internal/backtest/broker.go:219-237 | In any state with a sound entry a reduce-only fill of a bar or of `ExecuteOrderNow` shrinks its entry without flipping it, and a non-TWAP one leaves it exactly flat |
| QueueLaws.SweepReduces | internal/backtest/broker.go:166-214 | So does every reduce-only order of a sweep, on whatever the orders before it in the same sweep have just made of its entry |
| QueueLaws.ProcessReduces | internal/backtest/broker.go:166-214 | So does every reduce-only order of `ProcessPending` in every reachable state, whatever the stop path did before |
| QueueLaws.ReduceOnlyAtClose | internal/backtest/broker.go:242-291 | A reduce-only fill at the close had an entry to close and leaves it exactly flat |
| QueueLaws.ReduceOnlyStop | internal/backtest/broker.go:295-353 | The stop path shrinks the entry of an order if and only if the order is against it (no side counts as buy) and its size, resolved at the stop or the open, is at most the entry's |
| QueueLaws.FlatEntryWaits | internal/backtest/broker.go:356-363 | A reduce-only order whose entry is flat is neither filled nor dropped |
| QueueLaws.ReduceOnlyAndNetPosition | internal/backtest/broker.go:122-134 | The guard looks at the entry and not at the net position: a reduce-only fill moves the net position towards zero if and only if that is on the side of the entry and at least as large as what is closed |
| QueueLaws.RunReduces | internal/backtest/broker.go:94-478 | Over every run without restriction, whatever fills come between submission and execution: each reduce-only trade that the stop path did not make shrinks what the trades before it made of its entry, and leaves it exactly flat unless sliced |
| PnlLaws.FillMovesEquity | internal/backtest/broker.go:454-483 | Any fill on any path at any price moves equity by the gain on its position less the commission in account units |
| PnlLaws.EquityContinuity | internal/backtest/broker.go:481-623 | In any state with a sound position (all reachable ones, by Ledgers.RunKeepsLedger), in both accounting modes and under every valuation, a fill at the mark changes equity by exactly the commission if and only if it names a side (in quote accounting) and keeps the mark; close and mid valuation always keep it |
| PnlLaws.MarketValue | internal/backtest/broker.go:557-572 | The market value of all positions is the signed quantities of the quote-accounted trades at the current marks, plus the unrealized PnL of each base-accounted position at its own mark |
| PnlLaws.RunCash | internal/backtest/broker.go:475-494 | Over every run and both accounting modes in any mixture: each position is the fold of its trades, and cash is the initial capital, plus every adjustment, plus what each trade paid: its net amount, or in base-asset accounting its realized PnL less its commission, over its own fill price |
| PnlLaws.RunKeepsSides | internal/backtest/broker.go:94-478 | If every order handed to the broker names a side, so does every trade of the run |
| PnlLaws.RunPnl | internal/backtest/broker.go:481-608 | After any run, in both accounting modes: equity - initial capital = sum of signed quantity times (mark - fill price) - commissions over the quote-accounted trades + the cash flows and the worth of the base-accounted ones + adjustments + twice the sideless amounts; without the last term if and only if every quote-accounted trade names a side, and always if every order handed in does |
| PnlLaws.PromisedInQuote | internal/backtest/broker.go:481-580 | When only quote-accounted securities are traded, whatever the account unit, that profit is the sum of signed quantity times (mark - fill price) - all commissions + adjustments |
| PnlLaws.RunRealizedPlusUnrealized | internal/backtest/broker.go:507-550 | Over every run that trades quote-accounted securities only: realized plus unrealized PnL of the positions is what the trades have made at the current marks, and profit is that less commissions plus adjustments plus the sideless amounts |
| PnlLaws.UnrealizedIs | internal/backtest/broker.go:507-550 | The unrealized PnL of a marked position is its worth less the cost of its open quantity, and in the base asset its worth |
| PnlLaws.EntriesMakePosition | internal/backtest/broker.go:136-151 | Over every run a security's position is the sum of its stored entries plus its untagged signed fills |
| Twap.PlanConserves | internal/backtest/broker.go:174-209 | On plan, filled plus outstanding is the whole order: Q, or N times the first slice of a notional order |
| Twap.SliceStep | internal/backtest/broker.go:383-397 | The slice a bar fills is the next equal part, and what is requeued is exactly the rest, or nothing after the last slice |
| Twap.BarKeepsPlan | internal/backtest/broker.go:166-214 | A bar with usable prices fills exactly one more slice, any other bar none; the first filled bar of a notional order fixes its total at notional / execution open |
| Twap.ApplyKeepsPlan | internal/backtest/broker.go:166-397 | Every operation that leaves the order alone keeps it on plan |
| Twap.RunKeepsPlan | internal/backtest/broker.go:166-397 | For an order that is not reduce-only, over every run with any mix of bars and other operations: it has filled exactly one N-th of its quantity on each of its first N filling bars and nothing else, waits with exactly the rest, and is gone if and only if N bars have filled it; the quantity of a notional order is its notional over the execution open of its first filling bar |
| TwapReduce.ShareTurn | internal/backtest/broker.go:356-397 | A reduce-only TWAP order with m slices left closes one m-th of what its entry holds at its turn |
| TwapReduce.RunKeepsReducing | internal/backtest/broker.go:166-397 | Over every run with any other fills of the entry: each fill of the order closes one m-th of what the trades before it made of the entry, and the order waits exactly while it has a slice left and its fills have not reached the quantity it was submitted with |
| TwapReduce.DroppedOpenIff | internal/backtest/broker.go:174-209 | In any state with a sound entry a slice flattens the entry if and only if it is the last, and drops the order with the entry open if and only if it is not the last and the entry holds at least m times what the order still counts |
| TwapReduce.LeavesFlatIff | internal/backtest/broker.go:174-209 | An order that has left the queue left its entry flat if and only if it filled all N slices; otherwise its fills had reached the quantity it was submitted with |
| TwapReduce.RunLeavesFlat | internal/backtest/broker.go:166-397 | Over every run in which no other fill enlarges the entry, the order leaves the queue only with its N-th slice and with its entry exactly flat |
| TwapReduce.SubmitCovers | internal/backtest/broker.go:94-112 | A submitted reduce-only order is queued for exactly what the trades have made of its entry |
| Surprises.SidelessOrderMakesMoney | internal/backtest/broker.go:574-601 | A run: one unit traded without a side at a mark of 100, free of commission, raises equity by 200 |
| Surprises.ExitValuationChargesTheSpread | internal/backtest/broker.go:629-644 | A fill: selling one unit short at the mark of a flat account costs the spread of 2 under exit valuation |
| Surprises.GrownEntryStaysOpen | internal/backtest/broker.go:174-209 | A run: an order to close an entry of 9 in three slices, after the first of which 12 are added, is dropped by its second slice with 9 still open |
| Surprises.ReduceOnlyStopOpens | internal/backtest/broker.go:295-353 | A run: a reduce-only stop executed immediately opens an entry that did not exist |
| Chains.SnapshotOf | internal/backtest/context.go:1031-1036 | The loop keys every available contract, later ones over earlier ones |
| Chains.CurrentOf | internal/backtest/context.go:1045-1051 | The loop over the lookup keys gives the first that the snapshot has, or the contract as it was |
| Chains.SymbolIsNoKey | internal/backtest/options.go:188-199 | The bare symbol, the second lookup key, is never a key of the snapshot |
| Chains.LookupKeepsContract | internal/backtest/options.go:137-199 | Whatever the lookup finds has the market, underlying, symbol and multiplier of the contract looked up |
| Chains.SnapshotHolds | internal/backtest/context.go:1031-1036 | The snapshot has every available contract that no later one of the same key replaces |
| SpreadContext.SpreadTracker.constructor | internal/backtest/options.go:773-775 | A new tracker is empty, with ids from 1 |
| SpreadContext.SpreadTracker.OpenFull | internal/backtest/options.go:788-803 | The spread is stored and listed open under the next id |
| SpreadContext.SpreadTracker.IsFullyClosed | internal/backtest/options.go:700-707 | True if and only if every leg is closed |
| SpreadContext.SpreadTracker.ArchiveIfClosed | internal/backtest/options.go:825-836 | A fully closed spread moves from the open list to the archive, once |
| SpreadContext.SpreadTracker.CloseLegFull | internal/backtest/options.go:853-869 | Records the close of an open leg and archives; refuses an unknown spread, a bad index, a closed leg |
| SpreadContext.BarContext.PrepareOpenSpreadLegs | internal/backtest/context.go:717-730 | Every leg gets its entry commission and is otherwise as given |
| SpreadContext.BarContext.ApplyOpenSpreadCashImpact | internal/backtest/context.go:732-741 | The loop moves the broker's cash by the sum of the entry flows and nothing else of the broker |
| SpreadContext.BarContext.ApplyCloseSpreadCashImpact | internal/backtest/context.go:743-751 | Moves the broker's cash by the exit flow of the leg and nothing else of the broker |
| SpreadContext.BarContext.OpenSpread | internal/backtest/context.go:649-661 | Cash, tracker and id after opening a spread |
| SpreadContext.BarContext.AppendSpreadLegs | internal/backtest/context.go:666-685 | Cash and tracker after appending; refused for no legs, an unknown spread or a fully closed one |
| SpreadContext.BarContext.CloseSpreadLeg | internal/backtest/context.go:688-715 | Cash and tracker after closing one leg; a refusal changes nothing |
| SpreadContext.BarContext.CloseSpread | internal/backtest/context.go:815-829 | The loop closes the legs that are open, each at the price of its own contract |
| SpreadContext.BarContext.SpreadUnrealizedEquity | internal/backtest/context.go:1026-1068 | The nested loop gives the signed value of the open legs of the open list at their marks |
| SpreadLaws.OpenPays | internal/backtest/context.go:654-661 | Opening pays the legs' whole cash effect, except for exits that legs marked closed claim |
| SpreadLaws.AppendPays | internal/backtest/context.go:666-685 | Appending pays exactly the entry flows of the appended legs |
| SpreadLaws.CloseLegPays | internal/backtest/context.go:699-715 | Closing succeeds if and only if the leg exists and is open, pays its exit flow then, and cannot be repeated |
| SpreadLaws.CloseSpreadPays | internal/backtest/context.go:815-829 | Closing a spread closes every leg of it and pays each exit flow once |
| SpreadLaws.RunSpreadCash | internal/backtest/context.go:646-829 | Over every interleaving of open, append, close-leg and close-spread: cash has moved by each leg's entry flow exactly once and its exit flow exactly once if closed, less the exits that stale legs claimed |
| SpreadLaws.FreshRunsHaveNoStaleExits | internal/backtest/context.go:654-661 | Runs that open fresh legs have no such discrepancy |
| SpreadLaws.ClosedLegCash | internal/backtest/options.go:678-686 | Entry plus exit flow of a closed leg is its realized PnL: signed (exit - entry) notional less both commissions |
| SpreadLaws.ClosedBookGains | internal/backtest/context.go:646-829 | A fully closed book, opened from fresh legs, has gained exactly the realized PnL of all its legs |
| SpreadLaws.StaleLegBreaksTheBooks | internal/backtest/context.go:654-661 | A run: opening one leg marked closed books a profit of 50 where cash lost 100 |
| SpreadLaws.OpenEquityIsAllLegs | internal/backtest/context.go:1026-1068 | The loop over the open list values every open leg of every spread exactly once |
| SpreadLaws.CloseAtMark | internal/backtest/context.go:699-751 | Closing a leg at its mark, whatever the chain, changes total PnL by exactly the closing commission if and only if the leg names a side |
| SpreadLaws.SidelessLegIsMarkedAsSold | internal/backtest/context.go:699-751 | A run: a leg without a side opened at its mark shows a loss of 200, and closing it at that mark takes the loss back |
| SpreadLaws.SpreadStepPays | internal/backtest/context.go:646-829 | Each spread call moves cash by what it changes of the legs' whole cash effect, except for stale exits |
| SpreadTerms.OpenIs | internal/backtest/context.go:654-741 | Opening stores and lists the legs as given but for the commission at their own entry price, leaves every other spread alone, and moves cash by the premiums |
| SpreadTerms.AppendIs | internal/backtest/context.go:666-685 | Appending needs a spread with an open leg; the legs come after those that are there, open, at the commission of their own entry price, and cash moves by the premiums |
| SpreadTerms.CloseLegIs | internal/backtest/context.go:699-751 | Closing one open leg records its price and the commission at it, changes nothing else of any spread, shelves the spread with its last leg, and moves cash by the proceeds |
| SpreadTerms.CloseSpreadIs | internal/backtest/context.go:815-829 | Every leg that was open is closed at the price of its own contract; closed legs and other spreads are as they were; cash moves by the sum of the proceeds at those prices |
| SpreadTerms.FeeIs | internal/backtest/context.go:728-730 | A leg's commission: on its amount with the contract size, or for each contract |
| SpreadTerms.MultiplierIs | internal/backtest/options.go:137-184 | A contract of a US market or with an O: symbol is for 100 units, any other for one |
| SpreadTerms.OptionMarkIs | internal/backtest/options.go:87-103 | The mark price, or else halfway between bid and ask, or else the one there is |
| SpreadTerms.LegValueIs | internal/backtest/context.go:1038-1064 | An open leg with a mark is worth its amount at the mark, positive if bought and negative otherwise |
| SpreadLaws.RunContextAgrees | internal/backtest/context.go:567-829 | Over every interleaving of broker operations and spread calls on one cash balance: the broker's ledger and the tracker stay sound, and cash is the initial capital, what was put in, what the trades paid and the cash effect of every leg, less stale exits |
| SpreadLaws.ContextPnl | internal/backtest/context.go:567-569 | After any such interleaving total PnL is the promised profit of the trades plus what every leg has made, plus the sideless amounts, less stale exits; both vanish when every order names a side and legs are opened fresh |
| RateLimiter.Limiter.constructor | internal/api/middleware.go:157-159 | The map starts empty |
| RateLimiter.Limiter.EvictIdle | internal/api/middleware.go:166-177 | The sweep deletes exactly the buckets idle beyond the TTL |
| RateLimiter.Limiter.FindOldest | internal/api/middleware.go:211-218 | The scan finds a bucket with the least refill time, whatever the map's order |
| RateLimiter.Limiter.Handle | internal/api/middleware.go:200-239 | One request is one step of the bucket map; an unlimited key or rate passes without touching it |
| RateLimiter.RunIsSound | internal/api/middleware.go:157-242 | Over every run, every key at rates of its own: no bucket is overdrawn, no refill is ahead of the clock, the map never exceeds its cap |
| RateLimiter.RequestIs | internal/api/middleware.go:204-239 | One request from any sound map: the tokens it finds, when it is admitted, what it leaves, which bucket is displaced and when, and that no other bucket changes |
| RateLimiter.SweepIs | internal/api/middleware.go:166-177 | A sweep removes exactly the buckets not refilled for more than ten minutes |
| RateLimiter.TokensStayInBurst | internal/api/middleware.go:204-239 | Over every run the tokens of a key stay between 0 and twice its own highest rate, whatever the rates of other keys |
| RateLimiter.CreditStep | internal/api/middleware.go:204-239 | Every step pays what it admits from the key's credit, at the key's own rate; sweeps and other keys are free, a displacement gives away at most one burst |
| RateLimiter.SweepIsFree | internal/api/middleware.go:171-175 | A sweep changes no key's credit: a bucket past the TTL would be full again |
| RateLimiter.AdmissionBound | internal/api/middleware.go:204-239 | From any sound state, with any mix of sweeps and of other keys at any rates, a key whose own rates are up to r is admitted at most 2r + r * elapsed times, plus one burst per displacement of its bucket |
| RateLimiter.HalfARequest | internal/api/middleware.go:204-237 | In every state a request at less than half a request per second is refused; one that meets no bucket is admitted if and only if its rate is at least that |
| RateLimiter.SlowKeyIsNeverAdmitted | internal/api/middleware.go:204-237 | Over every run a key whose own rates stay below half a request per second is never admitted, beside any other keys |
| RateLimiter.LazyRefinesIdeal | internal/api/middleware.go:171-239 | Every decision on a key that is not displaced is that of one bucket that is never swept: sweeps and other keys are unobservable, at any rates |
| RateLimiter.RejectionsAreInvisible | internal/api/middleware.go:225-238 | At a constant rate: delete any of the rejected requests from a history, and the decisions on the rest are the original ones |
| RateLimiter.DeletedRejectionsChangeNothing | internal/api/middleware.go:171-239 | The same of the bucket map: two runs with any sweeps and other keys, in which an undisplaced key of constant rate asks the same but for some rejected requests, decide the rest alike |
| RateLimiter.RejectionTraceIff | internal/api/middleware.go:188-239 | When rates change: a rejected request leaves no trace for later requests at a rate if and only if the tokens it left, capped to their burst, are those they would have found without it |
| RateLimiter.TraceIsVisibleIff | internal/api/middleware.go:188-239 | All later decisions at a rate are unchanged if and only if there is no trace or the rate is under half a request per second |
| RateLimiter.RateChangesLeaveTraces | internal/api/middleware.go:188-239 | Two runs of the map from empty, alike but for one rejected request at a lower rate: with it the last request is rejected, without it admitted |
| TrafficMeter.Meter.constructor | internal/api/traffic_meter.go:107-112 | A new meter is empty |
| TrafficMeter.Meter.CountEvent | internal/api/traffic_meter.go:235-245 | Bytes go to the bucket of their own minute and the window of their own five seconds |
| TrafficMeter.Meter.CountRequest | internal/api/traffic_meter.go:231-234 | Adds one request to a bucket, making the bucket if it is missing |
| TrafficMeter.Meter.PeaksOf | internal/api/traffic_meter.go:142-152 | The loop finds the three maxima over the windows, attained, or 0 |
| TrafficMeter.Meter.Snapshot | internal/api/traffic_meter.go:123-156 | One row for each bucket before the cutoff's minute and no other, with its totals and its peaks |
| TrafficMeter.Meter.DiscardBefore | internal/api/traffic_meter.go:159-168 | Deletes exactly the buckets before the cutoff's minute |
| TrafficMeter.Request.constructor | internal/api/traffic_meter.go:115-117 | A request starts unfinished and without events |
| TrafficMeter.Request.AddIngress | internal/api/traffic_meter.go:186-195 | Bytes are kept with their time; none after Finish, none of size 0 |
| TrafficMeter.Request.AddEgress | internal/api/traffic_meter.go:197-206 | The same for bytes sent |
| TrafficMeter.Request.Finish | internal/api/traffic_meter.go:209-247 | The first call files the request and all its bytes under the normalized metadata; a repeated call changes nothing |
| TrafficMeter.FiledIsSound | internal/api/traffic_meter.go:209-247 | Filing keeps: windows lie on a boundary inside their own minute and add up to the totals of their bucket |
| TrafficMeter.TwelveWindows | internal/api/traffic_meter.go:258-264 | A bucket has at most twelve windows |
| TrafficMeter.PeakBounds | internal/api/traffic_meter.go:123-156 | In every snapshot row of a sound meter, for ingress and egress: peak <= total <= 12 * peak, and max(peak in, peak out) <= peak total <= peak in + peak out |
| TrafficFlush.RunIsSound | internal/api/traffic_meter.go:74-264 | In every state a run of the protocol reaches, each bucket's windows lie in its own minute and sum to its totals |
| TrafficFlush.RunRowsAreBounded | internal/api/traffic_meter.go:74-156 | Every row that a run snapshots or writes obeys the peak bounds |
| TrafficFlush.LegalSteps | internal/api/traffic_meter.go:74-105 | The steps of the protocol: finishes at any time, one flush at a time, writes that can fail as well as succeed, a discard after a successful write only |
| TrafficFlush.FinishAdds | internal/api/traffic_meter.go:209-247 | A finished request adds to every (minute, method, route, status class) exactly its share, in each counter |
| TrafficFlush.SnapshotTally | internal/api/traffic_meter.go:123-156 | A snapshot holds, for every completed key, exactly what is in memory, in one row |
| TrafficFlush.StepBalances | internal/api/traffic_meter.go:74-105 | Every step of finishes, snapshots, writes that succeed or fail, and discards keeps the balance |
| TrafficFlush.FlushConserves | internal/api/traffic_meter.go:74-105 | Over every run, per key and counter: written + in memory + dropped by discards = finished, while no flush is under way, and up to the rows in flight during one |
| TrafficFlush.LostIffLate | internal/api/traffic_meter.go:159-168 | Discards have dropped nothing if and only if nothing was filed before a cutoff between its snapshot and its discard |
| TrafficFlush.FlushLosesNothingIff | internal/api/traffic_meter.go:81-91 | Between flushes written rows plus memory equal all finished requests if and only if no finish filed anything late; failed writes never matter |
| TrafficFlush.StreamingBytesAreLost | internal/api/traffic_meter.go:81-91 | A run of five legal steps after which rows plus memory lack bytes: a stream that ends during the write |
| TrafficPeaks.FinishFillsWindows | internal/api/traffic_meter.go:235-245 | After a Finish the window of every key and every five seconds holds what it held, plus the bytes of exactly the events filed under the key that happened in those five seconds |
| TrafficPeaks.RunFillsWindows | internal/api/traffic_meter.go:74-264 | Over every run each window holds exactly the bytes moved in its five seconds by the requests that finished since the last discard that reached its key |
| TrafficPeaks.SnapshotHasGreatest | internal/api/traffic_meter.go:123-156 | The row of a snapshot is of a minute that is over, and its peaks are the greatest five-second sums of bytes in, out and both |
| TrafficPeaks.WrittenPeaks | internal/api/traffic_meter.go:74-156 | Over every run, so are the peaks of every written row |
| TrafficPeaks.KeyOfMoment | internal/api/traffic_meter.go:258-260 | What happens in a minute is filed under that minute |
| TrafficPeaks.CompletedMinute | internal/api/traffic_meter.go:123-168 | A minute is before the cutoff's if and only if all of it is before the cutoff |
| TrafficPeaks.MetadataIsFilled | internal/api/traffic_meter.go:220-228 | Missing metadata becomes UNKNOWN, unmatched and 500; any other is kept |
| ApiKeyCache.Service.constructor | internal/apikeyauth/service.go:53-67 | A new service has an empty cache |
| ApiKeyCache.Service.GetCached | internal/apikeyauth/service.go:96-108 | Returns a cached answer before its expiry, otherwise removes it and misses |
| ApiKeyCache.Service.SetCached | internal/apikeyauth/service.go:110-114 | Caches the answer for one TTL from the clock reading of the call |
| ApiKeyCache.Service.Authenticate | internal/apikeyauth/service.go:69-94 | One call without interference: its reply and the whole cache in every case. A found record is accepted, with its fields, if and only if it is active and its expiry is absent or later than now; refusals are cached too, lookup errors are not |
| ApiKeyCache.StepIsSound | internal/apikeyauth/service.go:69-114 | Every interleaved step keeps: cached and given answers come from recorded reads, entries run out one TTL after the stamp of theirs |
| ApiKeyCache.RunIsSound | internal/apikeyauth/service.go:69-114 | So does every interleaving |
| ApiKeyCache.BoundedStaleness | internal/apikeyauth/service.go:69-114 | Every answer is the verdict on a repository read made later than the start of its call less the TTL |
| ApiKeyCache.RevocationBound | internal/apikeyauth/service.go:69-114 | A key disabled or gone from D on is refused by every call starting at or after D + TTL |
| ApiKeyCache.ActivationBound | internal/apikeyauth/service.go:69-114 | A key active without expiry from D on is accepted by every call starting at or after D + TTL that completes |
| ApiKeyCache.ExpiryBound | internal/apikeyauth/service.go:69-132 | An expired key is accepted for less than one TTL past its expiry |
| ApiKeyCache.VerdictIff | internal/apikeyauth/service.go:69-132 | A record is accepted, and with its own fields, if and only if it is active and its expiry is absent or later than the call |
| ApiKeyCache.CacheServes | internal/apikeyauth/service.go:96-114 | A cached answer serves its digest until one TTL after the clock reading of its call, and no other digest |
| ApiKeyCache.AcceptedWasHeld | internal/apikeyauth/service.go:69-114 | Under every interleaving an accepted answer has the fields of an active record that the repository held for the digest later than the start of the call less the TTL |
| ApiKeyCache.AcceptedIffReadInTime | internal/apikeyauth/service.go:69-132 | A key active from D on that expires at E, if ever: a completed call starting at or after D + TTL is accepted if and only if the read behind its answer was made by a call that started before E |
| ApiKeyCache.AcceptedBeforeExpiry | internal/apikeyauth/service.go:69-132 | Hence every such call that completes before E is accepted |
| ApiKeyCache.LateReadIsRefused | internal/apikeyauth/service.go:69-114 | A run in which a call that starts before the expiry is refused, by an answer cached at the expiry |
| ApiKeyCache.RevokedKeyStillAccepted | internal/apikeyauth/service.go:96-108 | The bound is tight: the steps of a run from the start in which a disabled key is accepted one tick before the TTL is over |
| Membership.MonthStarts | cmd/us-market-macro-fmp-sync/main.go:1013-1021 | Every month from the first to before the last, in order |
| Membership.UndoSince | cmd/us-market-macro-fmp-sync/main.go:427-438 | The index shared by all months stops exactly after the changes dated at or after the month's end |
| Membership.SinceIs | cmd/us-market-macro-fmp-sync/main.go:427-438 | The changes undone for a month are exactly those of later months |
| Membership.UntilIs | cmd/us-market-macro-fmp-sync/main.go:427-438 | The changes before a month's end are exactly those of the month and earlier ones |
| Membership.BuildMonthlyMemberships | cmd/us-market-macro-fmp-sync/main.go:421-450 | For exactly the months in range: the ascending list of today's set with exactly the changes at or after the month's end undone, newest first |
| Membership.UndoRestoresIff | cmd/us-market-macro-fmp-sync/main.go:430-436 | Undoing a change restores the members if and only if what it added was new (or is what it removed) and what it removed was present |
| Membership.UndoIsPartialReplay | cmd/us-market-macro-fmp-sync/main.go:421-450 | Undoing the end of a consistent history, newest first, is replaying only its beginning |
| Membership.ReconstructionIsReplay | cmd/us-market-macro-fmp-sync/main.go:417-450 | For a consistent history the backward sweep gives, for every month, the forward replay of the changes before the month's end from the original set |
| Windows.LatestTtmNetIncome | cmd/us-market-macro-fmp-sync/main.go:749-774 | The sliding loop gives the sum of the last four records known by the time, or nothing if there are fewer, one is zero, or they cancel |
| Windows.TtmIgnoresTheRest | cmd/us-market-macro-fmp-sync/main.go:749-758 | Records before the last four and records known later do not show |
| Windows.TtmIs | cmd/us-market-macro-fmp-sync/main.go:749-774 | It is the sum of the four incomes, or nothing if one of them is zero or they cancel |
| Windows.AverageOf | cmd/us-market-macro-fmp-sync/main.go:1002-1011 | The mean, and 0 of nothing |
| Windows.RatePoints | cmd/us-market-macro-fmp-sync/main.go:723-742 | In place, every point gets its ratio from exactly the last min(i + 1, W) emitted points, and every other field is kept |
| Windows.RatingIs | cmd/us-market-macro-fmp-sync/main.go:723-742 | A point with a long enough window of positive total earnings: price = ratio * average earnings, and yield + rate = 100 / ratio if the price is positive; any other point, and any other field, is unchanged |
| Windows.RatingIsCausal | cmd/us-market-macro-fmp-sync/main.go:723-742 | The ratio of a point depends on no point after it |
| Windows.IndexIsLastKnown | cmd/us-market-macro-fmp-sync/main.go:923-930 | Where the moving index stands is the last anchor known at or before the bar, if any is |
| Windows.BuildDailyLiveSeries | cmd/us-market-macro-fmp-sync/main.go:919-945 | One point for each bar with a usable last known anchor, scaled by it, and no other |
| Windows.LastKnownIs | cmd/us-market-macro-fmp-sync/main.go:923-930 | The last anchor of the list among those known by the time of the bar |
| Windows.LivePointIs | cmd/us-market-macro-fmp-sync/main.go:931-943 | A point has its bar's time and price and its anchor's month, and price / ratio is the anchor's value / ratio |
| Revisions.Table.WindowsOf | cmd/us-market-macro-fmp-sync/main.go:1279-1297 | The window of each dataset covers every row's times |
| Revisions.Table.LoadExisting | cmd/us-market-macro-fmp-sync/main.go:1275-1334 | The loaded map has every row's key that is stored anywhere in the table, and only latest revisions |
| Revisions.Table.Revised | cmd/us-market-macro-fmp-sync/main.go:1228-1235 | The row as it is appended, or nothing when its value is already the latest |
| Observations.AppendedIff | cmd/us-market-macro-fmp-sync/main.go:1228-1235 | A row is appended under the next revision unless the latest value of its key is within 1e-9; one with a new key as it is |
| Observations.LatestIs | cmd/us-market-macro-fmp-sync/main.go:1298-1334 | The latest is the value of a row with the highest revision of the key |
| Observations.SecondsIs | cmd/us-market-macro-fmp-sync/main.go:1237-1262 | A stored time is the whole second it lies in |
| Observations.StoredIs | cmd/us-market-macro-fmp-sync/main.go:1237-1262 | A stored row differs from the row only in the fractions of its times |
| Revisions.Table.Insert | cmd/us-market-macro-fmp-sync/main.go:1206-1268 | For any batch size and any failing send the table has grown by a prefix of the new rows, and by all of them on success |
| Revisions.LatestAfter | cmd/us-market-macro-fmp-sync/main.go:1226-1262 | After any number of new rows the latest of a row's key is that row if it arrived, and otherwise what it was |
| Revisions.SyncedValues | cmd/us-market-macro-fmp-sync/main.go:1228-1339 | After a sync every row's latest value is within 1e-9 of the row's, under a revision that rose by exactly one, or not at all if the value was there |
| Revisions.ResumeCompletes | cmd/us-market-macro-fmp-sync/main.go:1226-1268 | A sync cut short after any number of arrived rows and run again appends exactly the missing rows: the table is that of one undisturbed sync |
| Revisions.BuildObservationRows | cmd/us-market-macro-fmp-sync/main.go:823-868 | The loop builds the rows of a sync: up to eight factors a month under the month's anchor, zeros skipped |
| Observations.RowsAre | cmd/us-market-macro-fmp-sync/main.go:823-868 | The rows are exactly the months' observations: each factor's own value where it is not zero, dated by the month's anchor, or else by its last second and when it was known |
| Revisions.SyncRowsAreProper | cmd/us-market-macro-fmp-sync/main.go:823-868 | The program's rows have whole seconds, distinct keys and revision 0 |
| Revisions.RerunAppendsNothing | cmd/us-market-macro-fmp-sync/main.go:1206-1339 | A sync is idempotent: whatever the table held, syncing the program's rows a second time appends nothing |
| Revisions.RerunAppendsNothingIff | cmd/us-market-macro-fmp-sync/main.go:1226-1339 | For any rows with distinct keys a second run appends nothing if and only if all times are whole seconds |
| Revisions.OneKeyTwice | cmd/us-market-macro-fmp-sync/main.go:1226-1250 | A run: two rows of one key in one sync are both stored under revision 0 |
| Revisions.RunKeepsNumbered | cmd/us-market-macro-fmp-sync/main.go:1226-1268 | Over any run of syncs, complete or cut short, every key's revisions are 0, 1, 2, ... in the order they arrived |
| SchemaClosure.RefName | cmd/api-docs-markdown/main.go:1326-1329 | The part after the last slash: a suffix without a slash, preceded by one unless it is everything |
| SchemaClosure.Collector.constructor | cmd/api-docs-markdown/main.go:582-584 | Nothing is seen at first |
| SchemaClosure.Collector.AddSchemaRefs | cmd/api-docs-markdown/main.go:1011-1033 | Terminates on cycles and adds exactly what the schema leads to: everything followed to its end, nothing outside any closed set that holds the schema's own names; no name twice, earlier names in place |
| SchemaClosure.Collector.AddName | cmd/api-docs-markdown/main.go:1015-1023 | The same for one reference, seen before, defined or missing |
| SchemaClosure.AddedIsReachable | cmd/api-docs-markdown/main.go:1011-1033 | The collected names are exactly those reachable by a path of references |
| SchemaClosure.DirectIff | cmd/api-docs-markdown/main.go:1011-1033 | What a schema refers to itself: the names of the references among its parts (items, additional properties, properties) at any depth, through no reference and no allOf |
| SchemaClosure.CollectReferencedSchemas | cmd/api-docs-markdown/main.go:582-602 | Fails if and only if an endpoint has no operation; otherwise the ascending list of exactly the names reachable from some schema of a parameter, of a parameter's items or of a response of some endpoint |
| Ordering.AscendingIsUnique | cmd/api-docs-markdown/main.go:600-601 | There is one ascending list of a set of names, so the result does not depend on the order of any map |
| Ordering.LessIff | cmd/api-docs-markdown/main.go:600-601 | Strings are ordered by their first difference, a proper prefix first |
| SchemaClosure.ShownIff | cmd/api-docs-markdown/main.go:1271-1329 | A type shows the name of the reference that its single allOf, its array items or its additional properties lead to, and none if they lead to none |
| SchemaClosure.LinkIsCollected | cmd/api-docs-markdown/main.go:1271-1347 | In every document and for every field, the name its type shows is among those the field leads to if no allOf lies on the way to it |
| SchemaClosure.LinkIsCollectedIff | cmd/api-docs-markdown/main.go:1271-1347 | For a field that says one thing (a reference, one allOf, or one element type), in every document, if and only if |
| SchemaClosure.FieldsLinkToSections | cmd/api-docs-markdown/main.go:1126-1171 | For a field of a described definition that is not itself a reference, with a type shown not through an allOf: it is shown as a link if and only if its name has a section |
| SchemaClosure.LinkWithoutSection | cmd/api-docs-markdown/main.go:1126-1281 | A document in which a link seen through an allOf leads to no section |
| SchemaClosure.LinkBesideReference | cmd/api-docs-markdown/main.go:1011-1171 | A document in which a link of a definition that is itself a reference leads to no section |

## Left out

- NaN, infinities, rounding and the wrap-around of 64-bit counters and 32-bit revisions.
- Order notes, timestamps and submit bars; spread tags, references, groups, times and custom data; scheduled actions and the stop trigger of spread legs; the engine's replay loop.
- Trimming and case folding of symbols, units, methods and keys; a key text that contains the separator of the sync's map keys.
- Market.MinAvailable: a recursive function where the source loops over its arguments; the same for Market.MaxAvailable.
- Twap.RunKeepsPlan: leaves out operations that cancel the order or execute another under its id; reduce-only orders are the subject of TwapReduce.
- TwapReduce.RunKeepsReducing: leaves out the same operations.
- RateLimiter.AdmissionBound: charges one whole burst for each displacement of the key's bucket; which key is displaced among equally old ones is not determined.
- ApiKeyCache.Service.Authenticate: the digest is a parameter, the record of last use is not kept, and key prefix, owner type and user type are left out, which are carried along like the owner.
- Membership.BuildMonthlyMemberships: changes of one day are undone in the order given, where the source's sort may swap them; the library sort is an insertion sort here.
- Revisions.RerunAppendsNothingIff: supposes distinct keys; Revisions.OneKeyTwice shows why, and Revisions.SyncRowsAreProper that the program's keys are.
- Revisions.BuildObservationRows: only what the versioned insert looks at (dataset, factor, times, value, revision); periods, source, reference and anchor value are carried along by the source.
- Revisions.RerunAppendsNothing: about one set of rows; two runs of the program can read different data, and `loadMonthAnchors` gives times that depend on the order of a map.
- SchemaClosure.CollectReferencedSchemas: sections are flattened into one list of endpoints, additionalProperties is already parsed, and the library sort is an insertion sort here.
- SchemaClosure.FieldsLinkToSections: leaves out definitions that are themselves references; SchemaClosure.LinkBesideReference shows why.
- SchemaClosure.LinkIsCollectedIff: about fields that say one thing (a reference, one allOf, or one element type); a field with more beside an allOf may have its name collected by accident.
- Whether the point-in-time ratio is free of look-ahead: it divides by the latest consumer price index (cmd/us-market-macro-fmp-sync/main.go:654).
- `loadMonthAnchors`, whose result depends on the order of a map; all database, network and file access; rendering.
