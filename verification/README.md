# A model of the exchange's matching engine

The engine of this repository keeps one order book per trading pair and one cache of balances per
user and asset. A submitted order locks what it can cost, sweeps the other side of its book in
price-time order, possibly rests, and then every match moves two assets between the locked and
available balances of two users; leftover lock is released. Locked balances, resting orders and
pending matches are updated at different moments. This project models that machinery in Dafny and
proves what holds of it over whole runs, and what does not.

Two layers stand side by side. The imperative layer has the original's form: classes with mutable
fields (`OrderBook`, `BalanceCache`, `Executor`, `Engine`, `Writer`, `Channel`) and methods with the
original's loops. Each method is proved equal to a specification function on plain values
(`Sweep`, `Lock`, `Transfer`, `Submit`, `Cancel`, `Processed`, ...). The theorems are about those functions.

| files | part of the system |
|---|---|
| `Types`, `OrderBook`, `MatchingSpec`, `Matcher` | orders, books, the nested matching loops and their specification |
| `Obligations`, `SweepProperties`, `Greedy`, `SelfTrade`, `Places` | what a sweep moves and keeps; price-time priority; discarded orders; places in the queues it leaves |
| `Ledgers`, `MapSums`, `BookKeeping`, `EngineSpec` | balance operations, sums, one resting order, the handlers as functions |
| `Solvency`, `Stranding`, `Rounding`, `Conservation`, `Settlement`, `BalanceChanges` | the lock ledger over runs, what a submission strands, other roundings, conservation, what an order's owner can rely on |
| `Effects` | what each command does, queue by queue and balance by balance, and what it sends and answers |
| `Engine`, `Queries`, `EngineLoop` | the running engine, its handlers, its two-channel loop |
| `DbCommands`, `BatchSpec`, `BatchExact`, `DbWriter`, `Redelivery` | the database writer and its batches |

## Modelling choices

- Decimals are integers at a fixed scale and prices are positive integers, so price times amount is
  exact. One unit of amount, called a lot below, is the smallest amount that scale can represent; it is
  not an order size, of which the original knows none. The one division, a market buy's budget by a
  price, is rounded down to a whole unit. The original's quotient is rounded too, but at 28 decimals, so
  "not a multiple of the price" has to be read at that finest scale. `Rounding` says what changes when
  a quotient is rounded up, for any rule that never rounds up what it has rounded off (as rounding to
  the nearest does not); otherwise how the decimal library rounds is not part of this model.
- A price-ordered map is the sequence of its entries, best price first: the order in which the
  original visits it (backwards for bids). A hash map is a `map`; an absent balance counts as zero.
- The fields that hold "buy"/"sell" and "limit"/"market" are enumerations. Orders satisfy what the
  order service validates (`EngineSpec.ValidOrder`).
- Messages to the database are a queue on the executor; a database, a channel's senders and the
  running flag are scripts given as parameters, universally quantified.

## What the code does differently from what is written about it

- Own orders are said to be skipped and to stay in the book. They are skipped, but a taker that is
  still hungry after a price level discards its own orders there, their funds staying locked.
  `SelfTrade.OwnOrderFate` says exactly when, for quantities and for budgets;
  `SelfTrade.OwnAskDisappears` is an instance.
- A market buy whose budget leaves a remainder too small for one more unit empties the whole sell
  side: every order it cannot afford is popped and not put back. `Greedy.MarketBuyLosesMakers` says
  exactly when; `SelfTrade.DustEmptiesTheSide` is an instance: 4 spent at price 3, whose quotient no
  finite scale represents.
- An own order that is skipped and stays goes to the back of its queue, behind orders it was ahead of.
  `Places.PlacesAfter` says who keeps a place; `Places.OwnAskGoesToTheBack` is an instance.
- A market buy is said to spend at most its budget. That holds when the quotient is rounded down. Rounded
  up, the last trade costs more than the budget: it is refused, its lots leaving the book without a trade,
  unless the buyer has that much locked for other orders, which then pay for it.
  `Rounding.RoundedUpTradeIsRefusedIff` says exactly when.
- A limit buy that fills partly below its limit and then rests keeps the price improvement locked.
  `Solvency.Solvency` accounts for it to the last unit; `Stranding.OverLocksIff` says from the book alone
  when it happens, `Stranding.LockedStaysOwedIff` when a submission keeps locked equal to owed, and
  `Stranding.ImprovementStaysLocked` is a run that strands 10.
- A successful flush is said to remove the commands it wrote. It removes that many commands from the
  front of the unfiltered batch. `Redelivery.BatchIsEmptied` and `Redelivery.NothingIsRedelivered` say
  exactly when this is the same; `Redelivery.EverySubmissionLeavesOne` shows that it never is for the
  engine's own messages.
- The commands left behind are written again by the next flush, and that can undo a cancellation: the
  order service writes "cancelled" into the same table, and the left-over status update overwrites it.
  `Redelivery.CancellationIsUndone` is such a history. `Redelivery.StaleIsHarmlessIff` and, over any number
  of flushes and other writers, `Redelivery.EffectivelyOnceIff` say exactly when redelivery leaves no
  trace, for arrivals in which inserts come before their updates (`InsertsFirst`). Without such a write by
  anyone else, and if updates concern rows that exist or are inserted with them (`Known`), it does no harm
  (`Redelivery.EffectivelyOnce`).
- Deadlocks are said to be retried. A statement's error is wrapped in a context, and only the outermost layer
  of an error is searched for the word, so a deadlock inside a command fails the flush at once; only one
  reported by the commit is retried. `DbWriter.RetriedIff` says so for every text, and
  `DbWriter.DeadlockInACommandIsFinal` is an instance.
- A batch that holds balance updates only, which is all that market orders send, is never shortened by a
  flush. `Redelivery.BacklogOnlyGrowsIff` says exactly when nothing is ever removed.
- The comment on the flusher speaks of 3 retries at 100, 200 and 300 ms. The code makes 5, doubling
  from 100 ms.

## Model

| member | source | states |
|---|---|---|
| Matcher.MatchBuyLevel | src/domains/cex/engine/matcher.rs:152-242 | one round at the best ask (pops, rotation of own orders, cut-off, trades, breaks) leaves the outcome of the whole sweep unchanged and makes progress |
| Matcher.MatchBuyOrder | src/domains/cex/engine/matcher.rs:81-250 | the nested buy loops terminate and compute `Sweep`: its matches, final taker, remaining asks and, as a multiset, discarded orders; bids untouched |
| Matcher.MatchSellLevel | src/domains/cex/engine/matcher.rs:306-363 | the same for one round at the best bid, whatever the queue holds |
| Matcher.MatchSellOrder | src/domains/cex/engine/matcher.rs:257-371 | the nested sell loops terminate for every book and compute `Sweep` on the bids; asks untouched |
| Matcher.MatchOrder | src/domains/cex/engine/matcher.rs:47-74 | a filled taker changes nothing, any other sweeps the opposite side and only that |
| MatchingSpec.StepRotate | src/domains/cex/engine/matcher.rs:165-170 | pushing an own order to the back does not change the final outcome of a sweep |
| MatchingSpec.StepMatch | src/domains/cex/engine/matcher.rs:192-237 | a trade and the push to the front are the first match of the sweep, the rest being the sweep that follows |
| MatchingSpec.StepStall | src/domains/cex/engine/matcher.rs:182-184 | a maker of which the budget cannot buy one unit is lost, and nothing else changes |
| MatchingSpec.StepCutOff | src/domains/cex/engine/matcher.rs:159-163 | the pop beyond the cut-off loses the popped own order and nothing else changes |
| SweepProperties.SweepKeeps | src/domains/cex/engine/matcher.rs:117-249 | the swept side stays sorted, without empty levels, every order at its level's price with something remaining and filled + remaining = amount; matching stops only when the taker is done, the side is empty or its best price is unacceptable |
| SweepProperties.MatchesAreSound | src/domains/cex/engine/matcher.rs:186-201 | every match trades something, at a price of the book within the taker's limit, between two different users |
| SweepProperties.LostOrders | src/domains/cex/engine/matcher.rs:156-163 | a quantity-based taker never makes another user's order disappear; what is discarded rested on the swept side at an acceptable price |
| SweepProperties.SweepOwesSplit | src/domains/cex/engine/matcher.rs:203-222 | for each user and asset, what the side owed = what it still owes + what discarded orders owed + the makers' legs of the matches; and the same for lots |
| SweepProperties.SweepSpends | src/domains/cex/engine/matcher.rs:203-219 | the taker's budget or quantity falls, and its filled amount grows, by exactly the matched totals |
| SweepProperties.WithinLimit | src/domains/cex/engine/matcher.rs:138-144 | a limit buyer pays at most its limit times what it gets |
| Greedy.SweepIsGreedy | src/domains/cex/engine/matcher.rs:117-249 | matches, final taker, other users' remaining and discarded orders are those of one greedy walk over the other users' orders, best price first and oldest first |
| Greedy.SweepIsFifo | src/domains/cex/engine/matcher.rs:152-242 | a quantity-based taker's n matches are with the first n of the other users' orders: each names that order and its user on the maker's side, the taker and its user on the other, at the maker's price; all but the last are taken whole; none is lost; the rest stays in order, headed by the last if only partly taken, of which only the counters have moved |
| Greedy.SweepSpendsInOrder | src/domains/cex/engine/matcher.rs:173-176 | a market buy spends its budget on the other users' orders in the same order and under the same names; what is left is less than the price of the next one, or everybody was bought out; what was not taken is all left or, with a remainder, all lost |
| Greedy.PricesAreMonotone | src/domains/cex/engine/matcher.rs:132-151 | trade prices never improve as a sweep goes on |
| Greedy.NothingIsLost | src/domains/cex/engine/matcher.rs:152-242 | without own orders at acceptable prices a quantity-based match discards nothing and conserves lots exactly |
| Greedy.MarketBuyLosesMakers | src/domains/cex/engine/matcher.rs:172-184 | a market buy discards another user's order if and only if its budget, after the makers it can buy whole, is not a multiple of the next price; then the whole side is emptied |
| SelfTrade.OwnOrderFate | src/domains/cex/engine/matcher.rs:159-170 | for every kind of taker, an own order on the other side is discarded exactly when its price is acceptable and the taker would still be hungry after all others up to that price (a quantity: they offer less; a budget: it outlasts them or leaves a remainder); otherwise it stays in the book |
| SelfTrade.NothingIsDiscardedIff | src/domains/cex/engine/matcher.rs:152-242 | matching discards no order at all if and only if no own order is at a price the taker is still hungry after and no budget leaves dust |
| SelfTrade.OwnAskDisappears | src/domains/cex/engine/matcher.rs:159-170 | instance: a bid meeting only its owner's ask makes the ask disappear |
| SelfTrade.DustEmptiesTheSide | src/domains/cex/engine/matcher.rs:182-184 | instance: a budget of 4 at prices 3 and 4 buys one unit, keeps 1 and empties the side |
| Places.QueuesAfter | src/domains/cex/engine/matcher.rs:117-249 | after a sweep every level of the side holds what the taker arriving at it leaves of its queue, and unacceptable levels are untouched |
| Places.PlacesAfter | src/domains/cex/engine/matcher.rs:159-170 | at an acceptable price that is not used up, orders not reached keep their order, the last reached one stays in front if it was partly taken, and own orders that were reached follow behind all of these; an order is reached exactly when the others ahead of it leave the taker hungry |
| Places.OwnAskGoesToTheBack | src/domains/cex/engine/matcher.rs:165-170 | instance: an own ask ahead of another user's at the same price ends up behind it |
| OrderBooks.InsertAppends | src/domains/cex/engine/orderbook.rs:40-44 | adding an order appends it to the queue of its price, changes no other queue and keeps the side sorted |
| OrderBooks.OrderBook.AddOrder | src/domains/cex/engine/orderbook.rs:125-131 | the order is inserted on its own side, the other side untouched |
| OrderBooks.OrderBook.GetBestBid | src/domains/cex/engine/orderbook.rs:143-145 | the highest bid price, if any |
| OrderBooks.OrderBook.GetBestAsk | src/domains/cex/engine/orderbook.rs:148-150 | the lowest ask price, if any |
| Engine.BalanceCache.GetBalanceMut | src/domains/cex/engine/balance_cache.rs:101-107 | reads a balance, creating a zero entry if absent |
| Engine.BalanceCache.SetBalance | src/domains/cex/engine/balance_cache.rs:237-242 | overwrites one entry and nothing else |
| Engine.BalanceCache.LockBalance | src/domains/cex/engine/balance_cache.rs:145-166 | moves the amount from available to locked, or refuses exactly when it is not available; no other balance changes |
| Engine.BalanceCache.UnlockBalance | src/domains/cex/engine/balance_cache.rs:170-186 | moves the amount back, or refuses exactly when it is not locked; no other balance changes |
| Engine.BalanceCache.TransferBalance | src/domains/cex/engine/balance_cache.rs:197-234 | debits one user's locked or available balance and credits another's available one, or refuses exactly when too little is there; no other balance changes |
| Engine.BalanceCache.AddToAvailable | src/domains/cex/engine/balance_cache.rs:264-272 | deposit or withdrawal: this user's available balance, stopping at zero, and no other balance |
| Engine.Executor.ExecuteTrade | src/domains/cex/engine/executor.rs:135-316 | both legs of a trade, a refused second leg leaving the first in place; one trade message on success |
| Engine.Executor.ExecuteMatches | src/domains/cex/engine/runtime/threads.rs:577-600 | all matches in order, failed ones skipped, with the totals of the successful ones |
| Ledgers.TradeMeans | src/domains/cex/engine/executor.rs:162-185 | a trade, balance by balance: nothing if the quote leg is refused, only that leg if the base leg is refused, otherwise both |
| Ledgers.ExecuteOneMore | src/domains/cex/engine/runtime/threads.rs:577-600 | one more match at the end of a list is tried whatever became of the earlier ones, and kept if it succeeds |
| Ledgers.ExecuteAllMoves | src/domains/cex/engine/executor.rs:162-185 | if every locked balance covers what the matches take from it, every trade succeeds and each balance changes by exactly its legs |
| Solvency.TradesAreCovered | src/domains/cex/engine/runtime/threads.rs:402-600 | in a solvent state, after the lock all matches are covered, so none fails |
| Solvency.SubmitLedger | src/domains/cex/engine/runtime/threads.rs:402-1110 | a submission changes locked minus owed, of every user in every asset, by exactly what discarded orders owed plus a resting buy's price improvement, never negative |
| Solvency.SubmitKeepsInv | src/domains/cex/engine/runtime/threads.rs:522-559 | a submission keeps every book well formed and uncrossed, all balances non-negative and all locks covering |
| Solvency.CancelStage | src/domains/cex/engine/runtime/threads.rs:1121-1299 | a cancel in a solvent state never fails to unlock, keeps the invariant and the slack, pays back exactly what the order still owed, and changes nothing unless it succeeds |
| Solvency.RunLedger | src/domains/cex/engine/runtime/threads.rs:94-367 | from any sound state, any valid commands keep the invariant and move each slack by exactly what they strand |
| Solvency.Solvency | src/domains/cex/engine/runtime/threads.rs:402-1110 | after any run from a fresh start, locked = owed by all resting orders + stranded so far; books well formed and uncrossed; no negative balance |
| Solvency.NothingFailsHalfway | src/domains/cex/engine/executor.rs:169-185 | in every reachable state no trade leg, leftover release or cancel unlock fails, and the reported matches are all the matches made |
| Stranding.LostAreOwnDiscarded | src/domains/cex/engine/matcher.rs:159-170 | the orders a quantity-based taker discards, in order: its own ones at every acceptable price after which the others have offered too little |
| Stranding.LostAreBudgetDiscarded | src/domains/cex/engine/matcher.rs:172-184 | the orders a market buy discards, in order: level by level while the budget is hungry, the rest of the first maker it leaves a remainder at and all others behind, then its own |
| Stranding.LeftAndImprovement | src/domains/cex/engine/runtime/threads.rs:402-640 | a limit order stays hungry exactly when the acceptable offers are too few; then its remainder and its price improvement are computed from the book before the call |
| Stranding.OverLocksIff | src/domains/cex/engine/runtime/threads.rs:1012-1106 | a limit buy keeps its price improvement locked if and only if the offers within its limit are too few and the cheapest is below the limit |
| Stranding.StrandedFromTheBook | src/domains/cex/engine/runtime/threads.rs:402-1110 | what any submission strands, for every user and asset, from the state before it: what its discarded orders owed plus the spread kept locked |
| Stranding.NothingIsStrandedIff | src/domains/cex/engine/runtime/threads.rs:402-1110 | a submission strands nothing, for any user and asset, if and only if all own orders survive, no budget leaves dust and the order does not over-lock |
| Stranding.LockedStaysOwedIff | src/domains/cex/engine/runtime/threads.rs:402-1110 | from a state in which locked equals owed for every user and asset, a submission leads to such a state if and only if the same condition holds |
| Stranding.ImprovementStaysLocked | src/domains/cex/engine/runtime/threads.rs:1012-1034 | instance: an ask of 1 at 90 and a bid for 2 at 100 leave the bidder's locked balance 10 above what it owes |
| Rounding.RoundingEnlarges | src/domains/cex/engine/matcher.rs:172-176 | under any sensible rounding of the quotient a budget is matched exactly as the budget plus the excess is when rounding down, and a positive excess ends the match |
| Rounding.DownIsTheWalk | src/domains/cex/engine/matcher.rs:172-176 | rounding down, there is no excess and the walk is the one the sweep makes |
| Rounding.RoundedUpTradeIsRefusedIff | src/domains/cex/engine/executor.rs:162-185 | in a solvent state every trade of a market buy succeeds if the excess is zero; otherwise all but the last do, and the last one if and only if the buyer has the excess locked for something else |
| Conservation.SubmitConserves | src/domains/cex/engine/balance_cache.rs:145-234 | in every state, solvent or not, a submission conserves each asset, also when a trade stops between its legs |
| Conservation.CancelConserves | src/domains/cex/engine/runtime/threads.rs:1260-1266 | a cancel conserves each asset, also when its unlock is refused |
| Conservation.StepConserves | src/domains/cex/engine/balance_cache.rs:264-272 | only deposits and withdrawals change an asset's total, by exactly max(delta, -available) |
| Conservation.RunConserves | src/domains/cex/engine/balance_cache.rs:145-272 | over any run the total changes by the inflows alone |
| Settlement.TakerSettles | src/domains/cex/engine/runtime/threads.rs:609-640 | a market order, or a limit order filled at once, ends with its lock back where it was, having paid exactly for its matches |
| Settlement.MarketOrderIsImmediateOrCancel | src/domains/cex/engine/runtime/threads.rs:564-640 | a market order rests nowhere, touches only the opposite side of its book, spends at most its budget, and stops only when done or the side is empty |
| Settlement.FilledLimitOrderSettles | src/domains/cex/engine/runtime/threads.rs:1012-1106 | a limit order filled at once gets its whole amount, a buyer pays at most limit * amount and is refunded the difference, and the reported filled amount is the order's |
| Settlement.UnfilledLimitOrderRests | src/domains/cex/engine/runtime/threads.rs:539-553 | an unfilled limit order rests with its remainder behind everybody at its price, every other queue of its side unchanged, nobody acceptable left on the other side; a partial fill is reported with the resting order's filled amount |
| Settlement.SubmitThenCancel | src/domains/cex/engine/runtime/threads.rs:1121-1299 | submit then cancel by the owner restores every queue and balance; a second cancel finds nothing; anyone else's changes nothing |
| Settlement.InsertThenRemove | src/domains/cex/engine/runtime/threads.rs:1148-1211 | taking out an order just inserted restores the side, its level included |
| Effects.SubmitDoes | src/domains/cex/engine/runtime/threads.rs:402-1110 | in a sound state a submission is accepted exactly when its amount, budget or limit times amount is available, and otherwise changes nothing; accepted, it leaves the swept other side, an unchanged own side or one order more at the end of its price, every other book as it was, and each balance moved by its legs and by what the order keeps locked |
| Effects.SubmitReplies | src/domains/cex/engine/runtime/threads.rs:381-399 | the answer is the matches of the sweep, or a refusal |
| Effects.MessagesAreSent | src/domains/cex/engine/runtime/threads.rs:453-465 | the whole message list: nothing if refused; the lock alone for a market order and for a limit order without a match; otherwise the lock, one trade per match and one status, "filled" if nothing is left and "partial" if something is, with the filled amounts |
| Effects.CancelDoes | src/domains/cex/engine/runtime/threads.rs:1121-1266 | a cancel concerns the oldest order with its id at the lowest price, bids first; if there is none, or it is somebody else's, nothing changes; otherwise that order is taken out, all others keep queue and place, and exactly what it owed is unlocked for its owner |
| Effects.CancelReplies | src/domains/cex/engine/runtime/threads.rs:1121-1245 | and it answers with that order, or that there is no book, no such order, or no right to it |
| Effects.NothingIsLeft | src/domains/cex/engine/runtime/threads.rs:209-222 | after the owner's cancel of an order that rests alone under its id, nothing rests under that id |
| Effects.StepActs | src/domains/cex/engine/runtime/threads.rs:139-367 | every command, a deposit, a cancel or a submission, has these effects when it is dispatched |
| Effects.RunActs | src/domains/cex/engine/runtime/threads.rs:139-367 | a run is a chain of states in which every command had its effect |
| BalanceChanges.Aggregate | src/domains/cex/engine/runtime/threads.rs:644-678 | the aggregated map is, key by key, gains plus release and minus takings and release; within each asset it adds up to zero |
| BalanceChanges.ChangesAreReal | src/domains/cex/engine/runtime/threads.rs:572-678 | those are the real differences of the balance cache from just after the lock to just after the leftover unlock |
| BalanceChanges.SummaryIsReal | src/domains/cex/engine/runtime/threads.rs:644-678 | the aggregated map of an accepted market order equals, key by key, the difference of the balance cache from just after the lock to the end |
| Engine.Engine.LoadBalances | src/domains/cex/engine/runtime/engine.rs:478-490 | loads the rows one by one, the later row winning |
| Engine.LoadedIsStarted | src/domains/cex/engine/runtime/engine.rs:478-490 | loading gives a fresh start with everything available, nothing locked, nobody added or forgotten |
| Engine.Engine.MatchAndRest | src/domains/cex/engine/runtime/threads.rs:522-559 | matching and resting in the shared books: one book changes, all others do not |
| Engine.Engine.SettleMarket | src/domains/cex/engine/runtime/threads.rs:572-640 | trades and release of a market order, and, with a database, the aggregated map of exactly these trades and this release |
| Engine.Engine.SettleLimit | src/domains/cex/engine/runtime/threads.rs:843-1107 | trades, release and messages of a limit order: one trade message per success, then "filled" or, after a match, "partial", or nothing |
| Engine.Engine.ProcessSubmitOrder | src/domains/cex/engine/runtime/threads.rs:402-1110 | the running engine computes `Submit` from every state and sends exactly `Emitted`; in a solvent state a market order's aggregated map is the real change of the balance cache since the lock |
| Engine.Engine.HandleSubmitOrder | src/domains/cex/engine/runtime/threads.rs:381-399 | from a sound state the effects, the messages and the answer are the ones spelled out in `Effects` |
| Engine.Engine.Handle | src/domains/cex/engine/runtime/threads.rs:149-239 | each command goes to its handler and, from a sound state, has its effect |
| Engine.Engine.ProcessSubmitOrderBench | src/domains/cex/engine/runtime/bench_engine.rs:81-220 | the benchmark twin computes the same `Submit`: same books, balances and reported matches from every state |
| Engine.Engine.HandleCancelOrder | src/domains/cex/engine/runtime/threads.rs:1121-1299 | the running engine computes `Cancel`, with all its refusals |
| Engine.Engine.HandleUpdateBalance | src/domains/cex/engine/runtime/threads.rs:1510-1533 | the available balance of this user in this asset changes by the amount, or to zero; all other balances and all books stay |
| Engine.Engine.HandleGetOrderbook | src/domains/cex/engine/runtime/threads.rs:1311-1366 | the beginning of both sides, as long as the requested depth (at least one order, or all without a depth) or the side allows; empty lists for an unknown pair |
| Engine.Engine.GetBestBid | src/domains/cex/engine/runtime/engine.rs:777-786 | the best bid read off a query of depth 1 is the book's best bid |
| Engine.Engine.GetBestAsk | src/domains/cex/engine/runtime/engine.rs:789-798 | the same for the best ask |
| Queries.Collect | src/domains/cex/engine/runtime/threads.rs:1328-1344 | the early-exit loops return the beginning of the price-time order, max(1, depth) orders of it, or all if there are fewer or no depth is given |
| Queries.FindBid | src/domains/cex/engine/runtime/threads.rs:1148-1169 | finds the lowest-priced bid level holding the id |
| Queries.FindAsk | src/domains/cex/engine/runtime/threads.rs:1171-1194 | finds the lowest-priced ask level holding the id |
| EngineSpec.PositionOf | src/domains/cex/engine/runtime/threads.rs:1150 | the first position of an id in a queue, or that there is none |
| EngineLoop.EngineThreadLoop | src/domains/cex/engine/runtime/threads.rs:94-367 | under any script of arrivals, closes and stop flags the loop ends in the engine, channels, log and drops that the turn-by-turn function gives, which keeps the invariant of `EveryRun`; a solvent engine stays solvent and every handled command had its effect |
| EngineLoop.EveryRun | src/domains/cex/engine/runtime/threads.rs:139-367 | after any script: the state is the fold of the handlers over the log; each channel's arrivals are, in order, handled + dropped + still queued; at most one command a turn, and only in a turn that finds the engine running, for an order also when it is received; the balance updates handled before an order are all those that had arrived by its turn; a command is dropped only in a turn that finds the engine told to stop; the loop ends only for that, for the flag at its head, or with both channels closed and empty |
| EngineLoop.RunningTurnActs | src/domains/cex/engine/runtime/threads.rs:149-365 | a turn that runs handles the first waiting balance update; without one it takes the first order it finds, or one that comes while it waits if no update can come any more, and handles it, or drops it and ends if told to stop; otherwise it does nothing |
| EngineLoop.StopsForGood | src/domains/cex/engine/runtime/threads.rs:139-147 | from the first turn that finds the flag cleared, or both channels known closed, nothing is received, handled or dropped any more |
| EngineLoop.ClosedChannelsEnd | src/domains/cex/engine/runtime/threads.rs:144-147 | once both channels are closed and empty, two more turns end the loop and handle nothing |
| EngineLoop.EveryRunActs | src/domains/cex/engine/runtime/threads.rs:139-367 | from a sound state every handled command has its effect, one after the other |
| EngineLoop.EverythingIsHandled | src/domains/cex/engine/runtime/threads.rs:139-367 | once arrivals pause for as many turns as commands are waiting, everything that ever arrived has been handled, each stream in order |
| EngineLoop.EveryRunIsSolvent | src/domains/cex/engine/runtime/threads.rs:94-367 | whatever arrives, a solvent engine stays solvent |
| BatchSpec.StableSortIsStable | src/domains/cex/engine/runtime/threads.rs:1944-1952 | the sorted batch has the same commands by ascending priority, each kind in arrival order |
| BatchSpec.SortPreservesMeaning | src/domains/cex/engine/runtime/threads.rs:1877-1952 | if inserts arrive before their updates, the filtered, sorted batch leaves the table that arrival order leaves |
| BatchExact.SortPreservesMeaningIff | src/domains/cex/engine/runtime/threads.rs:1877-1952 | sorting preserves meaning if and only if, for every row created by the batch, what overtaking updates set is set again later or was the inserted value |
| BatchSpec.OvertakingUpdateDiffers | src/domains/cex/engine/runtime/threads.rs:2088-2098 | instance: an update arriving before its insert is lost unsorted and applied sorted |
| BatchSpec.UpdatesAreIdempotent | src/domains/cex/engine/runtime/threads.rs:2119-2160 | applying a list of status updates twice is applying it once |
| DbWriter.Writer.FlushBatch | src/domains/cex/engine/runtime/threads.rs:1851-2055 | terminates within 6 attempts, having waited 0, 100, 300, 700, 1500 or 3100 ms after so many retries, under any database answers; an error leaves table and batch untouched; success applies each kept command once, and happens exactly when some attempt commits after retried failures only |
| DbWriter.Writer.TryTransaction | src/domains/cex/engine/runtime/threads.rs:1955-2053 | one attempt: done, to be retried or final; only a commit changes the table and the batch |
| DbWriter.RetriedIff | src/domains/cex/engine/runtime/threads.rs:1834-1837 | an attempt is retried if and only if the transaction could not begin, or all commands went through and the commit told of a deadlock; every error of a command is final, whatever its text |
| DbWriter.FiveRefusals | src/domains/cex/engine/runtime/threads.rs:1958-1974 | a flush survives exactly as many as five refused transactions |
| DbWriter.DeadlockInACommandIsFinal | src/domains/cex/engine/runtime/threads.rs:1988-2003 | instance: a status update that deadlocks fails the flush at once, although the next attempt would have succeeded |
| DbWriter.Writer.RemoveIndices | src/domains/cex/engine/runtime/threads.rs:2029-2033 | removing the successful indices drops that many commands from the front of the batch |
| DbWriter.RunCommands | src/domains/cex/engine/runtime/threads.rs:1987-2005 | one transaction on a copy of the table, stopping at the first error |
| Redelivery.BatchIsEmptied | src/domains/cex/engine/runtime/threads.rs:2027-2034 | success empties the batch if and only if it held no balance update |
| Redelivery.NothingIsRedelivered | src/domains/cex/engine/runtime/threads.rs:2027-2034 | nothing written is delivered again if and only if all balance updates are at the end |
| Redelivery.EverySubmissionLeavesOne | src/domains/cex/engine/runtime/threads.rs:453-465 | flushing the messages of one accepted order always leaves one command behind |
| Redelivery.BacklogIsTheLatest | src/domains/cex/engine/runtime/threads.rs:2027-2034 | after any number of flushes the batch is the latest part of everything that arrived |
| Redelivery.BacklogOnlyGrowsIff | src/domains/cex/engine/runtime/threads.rs:1896-1899 | no flush ever removes anything if and only if only balance updates arrive |
| Redelivery.FlushSettles | src/domains/cex/engine/runtime/threads.rs:2027-2034 | whatever tail of a batch stays behind, applying its updates again changes nothing |
| Redelivery.StaleIsHarmless | src/domains/cex/engine/runtime/threads.rs:2027-2034 | left-over commands that the table still reflects do not change what the next flush does |
| Redelivery.StaleIsHarmlessIff | src/domains/cex/engine/runtime/threads.rs:2027-2034 | left-over commands do not change what the next flush does if and only if, in every row, each part they set is set again by the new commands or still has the value they set |
| Redelivery.CancellationIsUndone | src/domains/cex/services/order_service.rs:321-328 | instance: the service's "cancelled" is overwritten with "partial" by the left-over update of an earlier flush |
| Redelivery.EffectivelyOnceIff | src/domains/cex/engine/runtime/threads.rs:1690-1819 | over any number of flushes with other writers in between, also when rows are created after their updates, the table after every round is that of single delivery if and only if what was left behind was harmless in every round |
| Redelivery.EffectivelyOnce | src/domains/cex/engine/runtime/threads.rs:1690-1819 | while nobody else sets a status and updates concern known rows, the table over any number of flushes is what all commands give once each in arrival order |

## Left out

- BatchSpec.SortPreservesMeaning: states the usual sufficient condition; the exact one is BatchExact.SortPreservesMeaningIff.
- Redelivery.EffectivelyOnce: rounds are successful flushes; a failed flush leaves everything in place, so its arrivals count for the next round.
- DbWriter.Writer.FlushBatch: what the database answers, and the text of its errors, are parameters.
- EngineLoop.EngineThreadLoop: follows any finite script of arrivals; read-only queries are not in the streams, since they change nothing.
- Redelivery.EffectivelyOnceIff: assumes `InsertsFirst`; when sorting alone changes the meaning of a batch is said by BatchExact.SortPreservesMeaningIff.
- Greedy.MarketBuyLosesMakers: states the remainder test for a quotient rounded down; under another rounding the walk is that of Rounding.RoundingEnlarges.
- Solvency.NothingFailsHalfway: states that no trade fails for a quotient rounded down; a market buy's last trade under another rounding is the subject of Rounding.RoundedUpTradeIsRefusedIff.
- Settlement.MarketOrderIsImmediateOrCancel: bounds the spending by the budget for a quotient rounded down; rounded up it is exceeded by Rounding.Excess.
- Engine.Engine.ProcessSubmitOrder: the events published per trade and their balance snapshots are not modelled.
- Raw lock and unlock commands: no service sends them, and a raw unlock may release funds that resting orders owe.
- Rounding of products and range of the decimal library; runs under a rounding other than down, beyond one submission.
- Updating a queue inside the price map: the matcher works on the level's queue as a value and stores it back after each round, since nothing else looks in between.
- Order counters, spread and mid price: not maintained by matching and cancelling, or easy.
- The write-ahead log: every send to it is switched off in the engine.
- Thread placement, channel capacities, timeouts and reply channels.
- HTTP, authentication, wallets, swaps, fees, event publishing and the SQL repositories.
