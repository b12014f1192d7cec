# QuantForge engine: a verified model

QuantForge is a trading engine in C++. Market data comes in as ticks, strategies turn ticks into
orders, orders pass a risk gate and an order manager, and fills come back to a portfolio. This project
models the stateful parts under the engine's network shell, and proves what each of them keeps over
every run, and what they promise each other.

How the source is told here:

* Code that changes objects in place is a class with the same fields and methods. Each method is
  proved against a function on values, and the lemmas are about that function.
* Code that several threads run at once is also a transition system. Every load, slot access, store,
  compare-and-swap and locked section is one step, steps of different threads interleave in any order
  over sequentially consistent memory, and the lemmas range over all sequences of steps.
* Prices and cash are reals, quantities are unbounded integers, times are integers in nanoseconds. The
  64-bit words of the ring buffer's `size` and of the arena wrap around as they do in the source.
* Clocks, whether the market is open, and when a loop is told to stop are parameters.

| file | models |
|---|---|
| `Basics`, `Bits`, `Reals`, `MapSum` | shared types and the arithmetic underneath: masks and remainders, relative deviations, sums over unordered maps |
| `Fifo`, `SpscQueue`, `SpscProtocol` | `cpp/common/spsc_queue.hpp`: what a bounded queue is, the ring buffer for one caller at a time, and the two threads step by step |
| `Disruptor`, `DisruptorLaps` | `cpp/common/disruptor.hpp`: the fan-out ring, step by step and as a class, and exactly when a consumer is given the wrong tick |
| `Arena` | `cpp/common/arena_allocator.hpp`: the compare-and-swap bump allocator |
| `OrderState`, `OrderStateRace` | `cpp/oms/order_state.hpp`: the state machine, alone and under contention |
| `FillDedup` | `cpp/oms/fill_deduplicator.hpp` |
| `Records`, `OrderIds`, `OrderPool`, `SlotOwners` | the records, the ids, the order pool, and who owns each of its slots |
| `Oms`, `OmsInvariants`, `OmsAccounting`, `OmsAverages`, `OmsRecords`, `OmsExamples` | `cpp/oms/oms.cpp` as a transition system: tables and pool, trades and filled quantities, recorded averages, what is written down from request to fill, and runs in which they go wrong |
| `OmsHandlers`, `OmsEngine` | the same as whole handlers, paper trading, and the object in place |
| `Portfolio` | `cpp/portfolio/portfolio_engine.cpp` |
| `Reconciliation` | order manager, fill queue and portfolio together |
| `TokenBucket`, `RiskGate` | `cpp/risk/token_bucket.hpp` and `cpp/risk/pre_trade_risk.cpp` |
| `Candles`, `CandleHierarchy`, `CandleBuilder` | what candles are, how intervals agree, and `cpp/market_data/candle_builder.hpp` |
| `Pipeline` | `cpp/market_data/tick_normalizer.cpp` |

## What the code does that its comments or callers would not suggest

Each of these has its exact condition as a lemma, and, where it depends on a run, a lemma with such a run.

* A fill that takes a position through zero leaves the rest at the old average price, so cash plus
  positions at cost is no longer explained by the profit booked. `Portfolio.LedgerMovesByDrift` gives
  the amount, `Portfolio.ConservedExactlyWithoutCrossing` the condition, `Portfolio.CrossingExample`
  a run.
* When the fill queue is full, `on_fill` logs that it processes the fill synchronously, but the fill is
  dropped: `Reconciliation.NothingLostExactlyWhenNeverFull`, `Reconciliation.FullQueueDropsAFill`.
* `on_fill` marks a trade as seen before it looks for the order. A trade that comes too early is lost,
  also when it is delivered again: `OmsAccounting.EveryTradeIsAccountedFor`,
  `OmsAccounting.LookupLosesExactlyUnknownOrders`, `OmsExamples.EarlyTradeIsLost`.
* Two fills of one order that overlap between the two locked sections of `on_fill` can give its slot
  back twice. `OmsInvariants.PartitionedExactlyWhileUpdatesAreCurrent` says exactly which runs keep the
  pool intact; `OmsExamples.DoubleReleaseHappens` is one that does not. Fills that overlap and do not
  finish the order in between do no harm, to the pool, the live table or the quantities:
  `OmsInvariants.RunInv`, `OmsAccounting.FilledIsSumOfFills`, `OmsExamples.OverlapThatHits`.
* A fill of an order that was never acknowledged fills it but does not retire it. An ordinary early
  fill does not get that far and is lost; what does is a fill under an unmapped exchange id that ends in
  the order's own id: `OmsAccounting.FilledOrderLingersExactlyWhenUnacknowledged`,
  `OmsAccounting.PendingOnlyUnderPaperIds`, `OmsExamples.PendingOrderIsFilledAndLingers`.
* The average fill price of an order is overwritten with the price of each fill, and the status field of
  the record can differ from the state machine: `OmsAverages.AverageRightExactlyForEqualPrices`,
  `OmsExamples.AverageIsTheLastPrice`,
  `OmsAccounting.RecordAgreesAfterAckExactlyWhenUnfilled`,
  `OmsAccounting.RecordAgreesAfterFillExactlyWhenAcknowledged`, `OmsExamples.SecondAckDisagrees`,
  `OmsExamples.PendingOrderIsFilledAndLingers`.
* The failure callback of a live submission rejects the exchange id `""`. That is harmless exactly when
  no live order was acknowledged under the empty id: `OmsInvariants.EmptyRejectIsHarmless`,
  `OmsExamples.EmptyRejectHits`.
* The duplicate counter of the deduplicator is incremented under a shared lock and can lose increments:
  `FillDedup.CounterExactlyWithoutOverlap`, `FillDedup.LostIncrement`.
* The fan-out ring gives a slow consumer a later tick, or a torn one, without saying so:
  `DisruptorLaps.LogExactlyWhenInTime`, `DisruptorLaps.LappedDelivery`, `DisruptorLaps.TornDelivery`.
* The arena does not guard its 64-bit sums: a request that wraps is granted, moves the offset back, and the
  blocks after it overlap earlier ones: `Arena.GrantSoundExactlyWithoutWrap`,
  `Arena.WrappedRequestOverlaps`.
* A closed position keeps its last unrealised profit, and the total counts it:
  `Portfolio.MarkIsFreshExactlyWhenOpen`, `Portfolio.AccountEquation`, `Portfolio.StaleExample`.
* A position stays charged to the strategy that first traded it: `RiskGate.FillChargesTheLabel`. Only
  instrument 0, which the portfolio takes for "not labelled yet", changes hands: `RiskGate.PassKeepsLimits`,
  `RiskGate.RelabelExample`.
* Without a last price none of the size limits applies: `RiskGate.UnpricedOrdersAreUnlimited`.
* The tick filter drops a price more than half away from the open, not ten times as its comment says,
  and its threshold of a fifth decides nothing: `Pipeline.AcceptedExactly`.
* The diagram in front of the state machine shows no way from `OPEN` or `TRIGGER_PENDING` to
  `CANCELLED`; the code has both, and the model follows the code: `OrderStateRace.RunIsPath`.
* A paper market order carries limit price 0 and is filled at 0, and a position opened at 0 shows no
  unrealised profit at any price: `OmsHandlers.PaperOrderFillsAtOnce`, `Portfolio.MarkWrites`,
  `Portfolio.FreePositionsAreNotMarked`.

## Model

| member | source | states |
|---|---|---|
| `Bits.AndMask` | cpp/common/spsc_queue.hpp:33 | masking with 2^k - 1 is the remainder modulo 2^k, for every number |
| `Bits.AndHigh` | cpp/common/arena_allocator.hpp:41 | masking with the complement of 2^k - 1 subtracts that remainder |
| `Bits.PowerOfTwoTest` | cpp/common/spsc_queue.hpp:23-24 | the condition asserted of the capacity holds of a positive number exactly when it is a power of two |
| `Fifo.LegalIsFifo` | cpp/common/spsc_queue.hpp:29-76 | whatever a bounded queue shows: what went in is what came out followed by what is held, in order, and at most capacity - 1 items are held |
| `SpscQueue.SlotsDistinct` | cpp/common/spsc_queue.hpp:108-115 | fewer items than the capacity sit in distinct slots |
| `SpscQueue.NextMeetsReader` | cpp/common/spsc_queue.hpp:33-37 | the next write position meets the read position exactly when one more item would leave no slot empty |
| `SpscQueue.Distance` | cpp/common/spsc_queue.hpp:98-104 | the wrapped 64-bit difference of the positions, masked, is the number of items held |
| `SpscQueue.SpscQueue.constructor` | cpp/common/spsc_queue.hpp:27 | a new queue is empty and valid |
| `SpscQueue.SpscQueue.Push` | cpp/common/spsc_queue.hpp:30-44 | appends the item, and refuses, changing nothing, exactly when capacity - 1 items are held |
| `SpscQueue.SpscQueue.Pop` | cpp/common/spsc_queue.hpp:64-76 | removes and returns the oldest item, and refuses exactly when there is none |
| `SpscQueue.SpscQueue.TryPop` | cpp/common/spsc_queue.hpp:79-91 | the same with an out-parameter, which keeps its value on refusal |
| `SpscQueue.SpscQueue.Empty` | cpp/common/spsc_queue.hpp:93-96 | true exactly when no item is held |
| `SpscQueue.SpscQueue.Size` | cpp/common/spsc_queue.hpp:98-104 | with both threads at rest, the number of items held |
| `SpscProtocol.RunInv` | cpp/common/spsc_queue.hpp:30-76 | every interleaving of the producer's and the consumer's loads, slot accesses and stores keeps the ring, the positions and both threads' local values in order |
| `SpscProtocol.RunRefinesFifo` | cpp/common/spsc_queue.hpp:30-76 | every interleaving is one of the bounded queue: calls take effect at their stores or refusing loads |
| `SpscProtocol.PoppedIsPrefix` | cpp/common/spsc_queue.hpp:30-76 | what was popped is a prefix of what was pushed, at most capacity - 1 items are held, and no slot is read while it is written |
| `SpscProtocol.LogsAreLabels` | cpp/common/spsc_queue.hpp:30-76 | the logs of pushed and popped items are what the callers saw |
| `SpscProtocol.RefusalsAreExact` | cpp/common/spsc_queue.hpp:35-37 | a push is refused exactly if the queue is full at its load of the other position, a pop exactly if it is empty at its own |
| `Disruptor.RunInv` | cpp/common/disruptor.hpp:36-71 | every interleaving of one producer and any number of consumers keeps each slot at the latest tick that falls on it |
| `Disruptor.CheckIsExact` | cpp/common/disruptor.hpp:60-65 | the sequence test passes exactly when the awaited tick is completely published |
| `Disruptor.KeptReadIsSafe` | cpp/common/disruptor.hpp:67 | within the lag bound the slot read holds the awaited tick and the producer is elsewhere |
| `Disruptor.KeptConsumerGetsTheLog` | cpp/common/disruptor.hpp:36-71 | a consumer whose lag stays within the buffer during each read gets the published log: no gap, no repeat, nothing torn |
| `Disruptor.AnyConsumerGetsLappedTicks` | cpp/common/disruptor.hpp:36-71 | without that bound, delivery n is torn or is tick n + k * 65536 for some k >= 0, and no cursor passes the producer |
| `Disruptor.ServedExactlyWhenPublished` | cpp/common/disruptor.hpp:59-71 | in every reachable state a waiting consumer is served exactly when its next tick is published |
| `DisruptorLaps.DirtyIsOverlapped` | cpp/common/disruptor.hpp:44-67 | the mark that a read is disturbed is set exactly when at some moment of that read the producer was writing its slot |
| `DisruptorLaps.TornExactlyWhenDisturbed` | cpp/common/disruptor.hpp:44-67 | in every run a delivery is torn exactly when a write of its slot overlapped the read |
| `DisruptorLaps.CleanIsRightExactlyInTime` | cpp/common/disruptor.hpp:41-67 | a slot not being written holds the awaited one of distinct ticks exactly when the write a lap later has not begun |
| `DisruptorLaps.LogExactlyWhenInTime` | cpp/common/disruptor.hpp:36-71 | over all runs with distinct ticks: a consumer is given the log from its start, without gap, repeat or torn tick, exactly when each of its reads ends before the producer begins to write the slot again |
| `DisruptorLaps.LappedDelivery` | cpp/common/disruptor.hpp:59-71 | a run in which 65537 ticks are published and the consumer is given the last for the first |
| `DisruptorLaps.TornDelivery` | cpp/common/disruptor.hpp:44-67 | a run in which a consumer is given a torn tick |
| `DisruptorLaps.RightBeyondTheLag` | cpp/common/disruptor.hpp:36-67 | a run in which the lag exceeds the buffer during a read and the tick is right: bounding the lag is sufficient and not necessary |
| `Disruptor.TickDisruptor.constructor` | cpp/common/disruptor.hpp:31 | a new ring has published nothing |
| `Disruptor.TickDisruptor.ClaimNext` | cpp/common/disruptor.hpp:36-38 | hands out the next sequence number |
| `Disruptor.TickDisruptor.Publish` | cpp/common/disruptor.hpp:41-47 | fills the one slot the number falls on and leaves the others alone |
| `Disruptor.TickDisruptor.Push` | cpp/common/disruptor.hpp:50-53 | appends the tick to the log |
| `Disruptor.TickDisruptor.TryConsume` | cpp/common/disruptor.hpp:59-71 | serves exactly when the next tick is published; serves that tick if the caller lags by at most the buffer, and otherwise the latest tick of the slot |
| `Disruptor.TickDisruptor.Lag` | cpp/common/disruptor.hpp:80-82 | the number of published ticks the cursor is behind |
| `Arena.RoundUpIsLeastMultiple` | cpp/common/arena_allocator.hpp:41 | the mask trick gives the least multiple of the alignment at or after the offset |
| `Arena.RunInv` | cpp/common/arena_allocator.hpp:37-52 | any number of threads: the blocks granted tile the used part of the pool in order, and no thread holds an offset ahead of the current one |
| `Arena.StepKeepsInv` | cpp/common/arena_allocator.hpp:40-51 | the offset never moves back |
| `Arena.BlocksAreDisjoint` | cpp/common/arena_allocator.hpp:37-52 | granted blocks are pairwise disjoint, aligned and inside the pool |
| `Arena.RefusedOnlyWhenFull` | cpp/common/arena_allocator.hpp:44-45 | a null answer means that the request does not fit at the current offset either, nor ever again before a reset |
| `Arena.RetryIsDecided` | cpp/common/arena_allocator.hpp:40-51 | a thread whose swap failed has loaded the current offset, and its next undisturbed try is granted the first aligned block behind it, or refused because that does not fit |
| `Arena.UsedBytes` | cpp/common/arena_allocator.hpp:70-72 | the used bytes are the bytes granted plus less than one alignment unit per block |
| `Arena.GrantSoundExactlyWithoutWrap` | cpp/common/arena_allocator.hpp:41-49 | a granted block lies between the old offset and the end of the pool exactly when neither 64-bit sum wrapped |
| `Arena.WrappedRoundUp` | cpp/common/arena_allocator.hpp:41 | if rounding up wraps it lands at zero, below the offset |
| `Arena.WrappedRequestOverlaps` | cpp/common/arena_allocator.hpp:41-49 | a run in a pool of 128 bytes: a request for 2^64 - 64 bytes is granted, and the next block lies on top of the first |
| `Arena.ArenaAllocator.constructor` | cpp/common/arena_allocator.hpp:24-26 | a new arena has granted nothing |
| `Arena.ArenaAllocator.Allocate` | cpp/common/arena_allocator.hpp:37-52 | succeeds exactly when some aligned block fits behind the used part, grants one there, and changes nothing otherwise, however often the swap fails spuriously |
| `Arena.ArenaAllocator.UsedBytes` | cpp/common/arena_allocator.hpp:70-72 | between the bytes granted and these plus the padding |
| `OrderState.OrderStateMachine.Transition` | cpp/oms/order_state.hpp:41-52 | undisturbed, true exactly when the change is legal, and then it is made |
| `OrderState.OrderStateMachine.Terminal` | cpp/oms/order_state.hpp:55-60 | true exactly when no legal change leads out of the status |
| `OrderState.WaysInto` | cpp/oms/order_state.hpp:91-113 | the legal changes told by their target: only a pending order is rejected, every order that is not finished can be cancelled, and so on for each status |
| `OrderStateRace.RunIsPath` | cpp/oms/order_state.hpp:41-52 | however threads interleave load, check and swap: the successful swaps form a path of legal changes from the initial to the current status |
| `OrderStateRace.PathDescends` | cpp/oms/order_state.hpp:91-113 | every legal change lowers a rank, so no path returns to a status |
| `OrderStateRace.TransitionsAreSafe` | cpp/oms/order_state.hpp:41-113 | at most four changes happen to an order, and none out of a terminal status |
| `OrderStateRace.OneWinnerPerStatus` | cpp/oms/order_state.hpp:41-52 | of all threads racing out of one status, or into one, at most one wins |
| `OrderStateRace.FourChangesHappen` | cpp/oms/order_state.hpp:91-113 | a run with four changes: the bound is met |
| `FillDedup.FreshExactlyOnce` | cpp/oms/fill_deduplicator.hpp:26-51 | whatever the interleaving of shared and exclusive sections, an answer is "new" exactly if it is the first for its id |
| `FillDedup.CounterExactlyWithoutOverlap` | cpp/oms/fill_deduplicator.hpp:32-37 | the duplicate counter never overstates, and is right exactly as long as no increment overwrote another |
| `FillDedup.UniqueFillsCountsNew` | cpp/oms/fill_deduplicator.hpp:61-64 | in every interleaving the number of ids remembered is the number of calls that answered "new" |
| `FillDedup.LostIncrement` | cpp/oms/fill_deduplicator.hpp:32-37 | two threads that test a known id at once lose one increment, in every state |
| `FillDedup.FillDeduplicator.constructor` | cpp/oms/fill_deduplicator.hpp:71-75 | nothing is seen yet |
| `FillDedup.FillDeduplicator.TryMark` | cpp/oms/fill_deduplicator.hpp:26-51 | true exactly for an id not seen before, which is remembered; otherwise one more duplicate is counted |
| `OrderIds.TrailingOfId` | cpp/oms/oms.cpp:320-335 | the sequence number can be read off an order id, behind any prefix |
| `OrderIds.IdReadsBack` | cpp/oms/oms.cpp:320-335 | an id starts with "QF-", the milliseconds stand between that and the next dash, and the sequence number behind it; both can be read back |
| `OrderIds.DecimalIsPlain` | cpp/oms/oms.cpp:330-332 | numbers are printed in decimal digits without leading zeros |
| `OrderIds.IdExample` | cpp/oms/oms.cpp:330-334 | 1605 milliseconds and sequence number 42 make "QF-1605-42" |
| `OrderIds.IdsAreUnique` | cpp/oms/oms.cpp:320-335 | equal ids have equal milliseconds and equal sequence numbers |
| `OrderIds.StripPaperRoundTrip` | cpp/oms/oms.cpp:172-174 | dropping six characters from a paper exchange id recovers the order id |
| `OrderIds.StripPaperDropsSix` | cpp/oms/oms.cpp:172-174 | six characters are dropped exactly from what is longer than that |
| `OrderPool.OrderPool.constructor` | cpp/oms/order_pool.hpp:27-30 | every slot is free once and blank |
| `OrderPool.OrderPool.Acquire` | cpp/oms/order_pool.hpp:35-50 | nothing exactly when the pool is exhausted; otherwise the slot freed last, wiped, the other slots untouched |
| `OrderPool.OrderPool.Release` | cpp/oms/order_pool.hpp:55-62 | puts the slot on top of the free list, and ignores null |
| `SlotOwners.OwnedIsPartition` | cpp/oms/order_pool.hpp:72-75 | one owner per slot means: no slot twice on the free list or in two tables, none nowhere, and the counts add up to the pool |
| `SlotOwners.Take` | cpp/oms/order_pool.hpp:38-42 | acquiring a slot keeps one owner per slot |
| `SlotOwners.Enter` | cpp/oms/oms.cpp:54-57 | entering an order under an unused id keeps it |
| `SlotOwners.GiveBack` | cpp/oms/oms.cpp:222-229 | retiring a live order keeps it |
| `OmsInvariants.RunInv` | cpp/oms/oms.cpp:19-275 | every interleaving of submit, acknowledgement, fill and reject sections in which each update finds its order still in its slot, overlapping fills of one order included, keeps the pool, the ids and the live table consistent |
| `OmsInvariants.RunIds` | cpp/oms/oms.cpp:19-275 | in every run, serialised or not, no id of an order entered before is used again |
| `OmsInvariants.PoolIsPartitioned` | cpp/oms/oms.cpp:19-275 | in every run in which each update that gives a slot back finds it still its order's: free slots, live orders and slots being prepared partition the pool, with no duplicates |
| `OmsInvariants.LiveTableIsConsistent` | cpp/oms/oms.cpp:139-230 | in every run in which updates find their orders, the live table holds no terminal order, and an exchange id of a live order leads to one that is open or partly filled |
| `OmsInvariants.EmptyRejectIsHarmless` | cpp/oms/oms.cpp:83-95 | rejecting the empty exchange id does nothing exactly when no live order was acknowledged under it |
| `OmsInvariants.UpdateSafeExactlyWhenCurrent` | cpp/oms/oms.cpp:206-230 | an update, whatever happened since the lookup, keeps the partition exactly if it will not finish the order or the slot is still its order's |
| `OmsInvariants.PartitionedExactlyWhileUpdatesAreCurrent` | cpp/oms/oms.cpp:19-275 | over all runs, serialised or not: the pool is partitioned at every moment exactly when each update that gives a slot back finds it still its order's |
| `OmsInvariants.HitRunsAreCurrent` | cpp/oms/oms.cpp:206-230 | if every update finds its order, then every one that gives a slot back does |
| `OmsInvariants.SerialRunsHit` | cpp/oms/oms.cpp:154-275 | every update finds its order if no second lookup, rejection or removal of the order comes between the two sections of a fill |
| `OmsInvariants.OverlappingFillsReleaseTwice` | cpp/oms/oms.cpp:165-230 | two overlapping fills of an open order, the first of which finishes it, put its slot on the free list twice |
| `OmsExamples.OverlapThatHits` | cpp/oms/oms.cpp:165-230 | a run with two overlapping fills of one order that is not serialised and in which every update finds its order: both are counted |
| `OmsExamples.DoubleReleaseHappens` | cpp/oms/oms.cpp:165-230 | a run of ten steps from the start that does so |
| `OmsAccounting.TradeCountsOnce` | cpp/oms/oms.cpp:157-160 | in every run, serialised or not, no non-empty trade id is applied twice |
| `OmsAccounting.EveryTradeIsAccountedFor` | cpp/oms/oms.cpp:157-230 | in every run, serialised or not, a non-empty trade id was seen exactly if it is waiting, applied or lost, and these exclude each other; with nothing waiting it is applied exactly when it is not lost |
| `OmsAccounting.LookupLosesExactlyUnknownOrders` | cpp/oms/oms.cpp:168-181 | a lookup loses its trade exactly when the exchange id leads to no live order |
| `OmsAccounting.LostTradeStaysLost` | cpp/oms/oms.cpp:157-181 | once lost, a trade is never applied, whatever comes later |
| `OmsExamples.EarlyTradeIsLost` | cpp/oms/oms.cpp:157-181 | a run: the trade comes before the acknowledgement, its redelivery afterwards changes nothing, and the order stays open and empty |
| `OmsAccounting.FilledIsSumOfFills` | cpp/oms/oms.cpp:206-230 | in every run in which updates find their orders, overlapping fills included: the record of a live order, or of one retired by a fill, holds the sum of the fills applied to it and the price of the last |
| `OmsAccounting.LiveMeansUnfilled` | cpp/oms/oms.cpp:214-229 | in such runs, if quantities are positive and fills are applied after the acknowledgement, live orders are not filled and orders retired by a fill are |
| `OmsAccounting.FilledOrderLingersExactlyWhenUnacknowledged` | cpp/oms/oms.cpp:214-229 | after a fill that reaches the quantity the order stays live exactly when it was still pending |
| `OmsAccounting.PendingOnlyUnderPaperIds` | cpp/oms/oms.cpp:168-181 | a lookup finds an order not acknowledged only under an unmapped exchange id that ends in the id of a live order |
| `OmsExamples.PendingOrderIsFilledAndLingers` | cpp/oms/oms.cpp:172-229 | a run in which that happens: the order is filled, recorded as complete, and stays in the table with its machine pending |
| `OmsAccounting.RecordAgreesAfterAckExactlyWhenUnfilled` | cpp/oms/oms.cpp:147-150 | after an acknowledgement the record's status is that of the state machine exactly when the order was not partly filled |
| `OmsAccounting.RecordAgreesAfterFillExactlyWhenAcknowledged` | cpp/oms/oms.cpp:214-220 | after a fill it is exactly when the order had been acknowledged |
| `OmsExamples.SecondAckDisagrees` | cpp/oms/oms.cpp:147-150 | a run in which a partly filled order is acknowledged again and recorded as open |
| `OmsExamples.EmptyRejectHits` | cpp/oms/oms.cpp:83-95 | a run with two submissions: the failure of the second takes the first out of the table, which is open and acknowledged under the empty id |
| `OmsAverages.AverageRightExactlyForEqualPrices` | cpp/oms/oms.cpp:206-230 | in such runs and for fills of positive quantity: the recorded average fill price of an order is the weighted average at every moment exactly when all its fills have one price |
| `OmsRecords.FillsFollowRequests` | cpp/oms/oms.cpp:28-57 | in every run in which updates find their orders: a live or retired order says what was requested under its id, and every fill has the strategy, the instrument and the side of that request |
| `OmsRecords.SubmissionWrites` | cpp/oms/oms.cpp:19-57 | a submission takes the slot freed last, writes the request into a clean record, and changes nothing else |
| `OmsRecords.AckWrites` | cpp/oms/oms.cpp:139-153 | an acknowledgement maps the exchange id and opens a pending order; for an unknown order it does nothing |
| `OmsRecords.TradeEnters` | cpp/oms/oms.cpp:157-160 | a trade enters as it is unless its id was seen; one without an id always does |
| `OmsRecords.LookupFinds` | cpp/oms/oms.cpp:162-184 | a lookup adds the order the exchange id is mapped to or, unmapped, the one named behind its first six characters |
| `OmsRecords.UpdateWrites` | cpp/oms/oms.cpp:186-230 | the whole effect of an update: the fill's price is the exchange's if positive and the limit otherwise, and order, slot and exchange id are given up exactly if the order was acknowledged and is now filled |
| `OmsRecords.RejectRetires` | cpp/oms/oms.cpp:245-269 | a rejection is for the order its id is mapped to or, unmapped, for the order of that id; if live it leaves the table and its slot is free, whatever its status |
| `OmsRecords.AbortRetires` | cpp/oms/oms.cpp:86-94 | a submission that failed takes its own order out, if it is still there |
| `OmsExamples.AverageIsTheLastPrice` | cpp/oms/oms.cpp:210-211 | a run: one unit at 1 and one at 3 are recorded as two at 3 |
| `OmsHandlers.EnteredKeepsInv` | cpp/oms/oms.cpp:19-57 | a whole submission keeps the invariant of the order manager |
| `OmsHandlers.FilledKeepsInv` | cpp/oms/oms.cpp:154-235 | a whole fill, with no other under way, keeps it |
| `OmsHandlers.FilledEffect` | cpp/oms/oms.cpp:154-235 | the four sections of `on_fill` in a row: duplicates do nothing, an unknown order loses the trade, a known one is booked, perhaps retired, and the fill offered |
| `OmsHandlers.PaperOrderFillsAtOnce` | cpp/oms/oms.cpp:59-73 | a paper order is filled whole, once, at its limit price, and then the tables and the pool are as before |
| `OmsHandlers.PaperModeMirrorsSubmissions` | cpp/oms/oms.cpp:59-73 | after any paper submissions the fills handed on are the submissions, each once and in order, and every slot is free |
| `OmsEngine.OrderManagementSystem.constructor` | cpp/oms/oms.cpp:13-17 | starts with empty tables and a full pool |
| `OmsEngine.OrderManagementSystem.Submit` | cpp/oms/oms.cpp:19-101 | fails exactly when the pool is exhausted and then changes nothing; otherwise enters the order under a new id, and in paper mode also fills it |
| `OmsEngine.OrderManagementSystem.OnOrderAck` | cpp/oms/oms.cpp:139-153 | one acknowledgement step, invariant kept |
| `OmsEngine.OrderManagementSystem.OnFill` | cpp/oms/oms.cpp:154-243 | the four fill steps in a row; a fill is offered to the queue exactly if one is applied, and taken unless the queue is full |
| `OmsEngine.OrderManagementSystem.BookFill` | cpp/oms/oms.cpp:186-235 | the part behind the lookup |
| `OmsEngine.OrderManagementSystem.OnReject` | cpp/oms/oms.cpp:245-275 | one reject step, invariant kept |
| `OmsEngine.OrderManagementSystem.OnLiveFailure` | cpp/oms/oms.cpp:83-95 | a reject step for the empty id and then the removal of the order, invariant kept |
| `OmsEngine.OrderManagementSystem.Cancel` | cpp/oms/oms.cpp:103-137 | asks the exchange only about an order that is open or partly filled, under a non-empty exchange id of it; refuses only if the order is unknown or has no such id, or an empty one |
| `OmsEngine.OrderManagementSystem.OpenOrderCount` | cpp/oms/oms.cpp:296-307 | the loop over non-terminal orders counts the whole live table |
| `Reconciliation.FillsReachThePortfolio` | cpp/oms/oms.cpp:232-235 | over all runs of order manager, queue and portfolio thread: fills applied are fills offered plus at most one in hand, fills taken are fills booked followed by fills queued, and the book is those fills |
| `Reconciliation.PositionsReconcile` | cpp/portfolio/portfolio_engine.cpp:30-99 | every position is the net quantity of the fills applied, less those in hand, queued or dropped |
| `Reconciliation.NothingLostExactlyWhenNeverFull` | cpp/oms/oms.cpp:232-235 | at rest, the fills applied are the fills booked and queued exactly when no push found the queue full |
| `Reconciliation.FullQueueDropsAFill` | cpp/oms/oms.cpp:232-235 | a run in which two fills are applied to an order and the queue takes one: after any number of turns of the portfolio thread the position is at most that one |
| `Portfolio.LedgerMovesByDrift` | cpp/portfolio/portfolio_engine.cpp:51-111 | after any fills, cash plus positions at cost less profit taken has moved by exactly the drift of the fills that cross zero (and of those of negative quantity) |
| `Portfolio.CashIsConserved` | cpp/portfolio/portfolio_engine.cpp:51-111 | from an empty engine it is the starting capital as long as nothing crosses zero |
| `Portfolio.ConservedExactlyWithoutCrossing` | cpp/portfolio/portfolio_engine.cpp:80-99 | one fill keeps it exactly if it does not cross zero, or does at the old average price |
| `Portfolio.CrossingExample` | cpp/portfolio/portfolio_engine.cpp:80-99 | buy 1 at 100, sell 2 at 110: the ledger gains 10 |
| `Portfolio.RealizedAddsUp` | cpp/portfolio/portfolio_engine.cpp:90-92 | total realised profit is the sum over the positions |
| `Portfolio.PositionIsNetQuantity` | cpp/portfolio/portfolio_engine.cpp:61-99 | every position is the signed sum of the fills of its instrument |
| `Portfolio.PositionBelongsToFirst` | cpp/portfolio/portfolio_engine.cpp:54-59 | a position exists exactly for an instrument that was filled, and is labelled with the strategy of its first fill, for instrument 0 of its last |
| `Portfolio.MarketPriceIsLastQuote` | cpp/portfolio/portfolio_engine.cpp:126-137 | over all runs of fills and price updates: the market price of a position is the last one announced since its first fill, zero if there is none |
| `Portfolio.PricesDoNotMoveTheBook` | cpp/portfolio/portfolio_engine.cpp:126-155 | price updates move no quantity, label, average price, realised profit, cash or time: the book is what the fills alone make of it |
| `Portfolio.TimeIsOfLastFill` | cpp/portfolio/portfolio_engine.cpp:111 | the time of the snapshot is that of the last fill |
| `Portfolio.AverageWithinEntries` | cpp/portfolio/portfolio_engine.cpp:63-99 | while nothing crosses zero, the average price of an open position lies within the prices it was entered at since it was last flat, and is zero exactly when the position is flat |
| `Portfolio.AverageTellsOpen` | cpp/portfolio/portfolio_engine.cpp:63-99 | over all runs of positive fills, crossing ones included, and price updates: the average price is positive exactly when the position is open, and never negative |
| `Portfolio.FillOpens` | cpp/portfolio/portfolio_engine.cpp:63-67 | a fill of a flat position opens it at the price of the fill and touches no other field |
| `Portfolio.FillGrows` | cpp/portfolio/portfolio_engine.cpp:68-79 | a fill that enlarges a position averages the price over the quantities and touches no other field |
| `Portfolio.FillShrinks` | cpp/portfolio/portfolio_engine.cpp:80-99 | any other fill books the profit of what it closes, keeps the average unless nothing is left, and touches no other field |
| `Portfolio.MarkWrites` | cpp/portfolio/portfolio_engine.cpp:126-145 | a price update sets the market price of a known position, and its unrealised profit only if it is open at a positive average price; an unknown instrument changes nothing |
| `Portfolio.FreePositionsAreNotMarked` | cpp/portfolio/portfolio_engine.cpp:139-145 | a run: 10 units bought at 0 and marked at 50 show no unrealised profit |
| `Portfolio.MarkIsFreshExactlyWhenOpen` | cpp/portfolio/portfolio_engine.cpp:137-145 | after any such run a price update makes the unrealised profit true exactly when the position is open or had none left |
| `Portfolio.StaleExample` | cpp/portfolio/portfolio_engine.cpp:137-145 | buy, mark, sell, mark: nothing is held and 10 are still reported as unrealised |
| `Portfolio.MarketTotals` | cpp/portfolio/portfolio_engine.cpp:51-155 | over all runs of fills and price updates: both totals are the sums over the positions, and the ledger has moved by exactly the drift of the fills |
| `Portfolio.AccountEquation` | cpp/portfolio/portfolio_engine.cpp:51-155 | over all such runs: cash plus positions at market is starting capital plus realised plus unrealised profit, plus exactly the true minus the stored unrealised profit, less exactly the drift |
| `Portfolio.PortfolioEngine.constructor` | cpp/portfolio/portfolio_engine.cpp:8-13 | starts flat with 100000 in cash |
| `Portfolio.PortfolioEngine.Rebook` | cpp/portfolio/portfolio_engine.cpp:61-99 | the three branches of a fill settle the position and yield the profit booked |
| `Portfolio.PortfolioEngine.ProcessFill` | cpp/portfolio/portfolio_engine.cpp:51-123 | the new snapshot is the old one with the fill applied |
| `Portfolio.PortfolioEngine.SumUnrealized` | cpp/portfolio/portfolio_engine.cpp:149-154 | the loop sums over all positions, whatever order the map yields |
| `Portfolio.PortfolioEngine.UpdatePrice` | cpp/portfolio/portfolio_engine.cpp:126-155 | the new snapshot is the old one with the position marked and the total recomputed; an unknown instrument changes nothing |
| `Portfolio.PortfolioEngine.FillLoop` | cpp/portfolio/portfolio_engine.cpp:30-47 | the loop applies the oldest queued fills in order and removes exactly those |
| `TokenBucket.RunFacts` | cpp/risk/token_bucket.hpp:19-45 | after any calls under a clock that does not run backwards the level lies between zero and the burst |
| `TokenBucket.NewIsSound` | cpp/risk/token_bucket.hpp:14-17 | a new limiter of non-negative rate starts with a level between zero and its burst |
| `TokenBucket.NewGrantsItsBurst` | cpp/risk/token_bucket.hpp:14-17 | a new limiter asked at once grants exactly the burst given, or twice its rate if none was |
| `TokenBucket.GrantsAreFunded` | cpp/risk/token_bucket.hpp:19-45 | grants plus tokens left never exceed tokens at the start plus inflow |
| `TokenBucket.WindowBound` | cpp/risk/token_bucket.hpp:19-45 | in every window of calls, after any others, grants number at most burst plus rate times the length of the window |
| `TokenBucket.WindowBoundInNumbers` | cpp/risk/token_bucket.hpp:19-45 | the same in whole numbers: grants times 10^9 are at most burst times 10^9 plus rate times nanoseconds |
| `TokenBucket.LevelAfterCall` | cpp/risk/token_bucket.hpp:19-45 | after any calls, the answer and the level after one more, in numbers: elapsed nanoseconds times rate over 10^9 flow in up to the burst, and a whole token is granted and taken |
| `TokenBucket.GrantedAfterIdleTime` | cpp/risk/token_bucket.hpp:31-42 | after any calls, one that comes when a token has had time to flow in is granted |
| `TokenBucket.FullBucketGrantsBurst` | cpp/risk/token_bucket.hpp:31-42 | a full bucket asked at one instant grants exactly its burst: the bound is met |
| `TokenBucket.RefillTwice` | cpp/risk/token_bucket.hpp:29-36 | capped refills compose |
| `TokenBucket.RefusedCallsLeaveNoTrace` | cpp/risk/token_bucket.hpp:19-45 | leave out any refused calls: every other call gets the same answer and leaves the same level |
| `TokenBucket.TokenBucketLimiter.constructor` | cpp/risk/token_bucket.hpp:14-17 | starts full; a negative burst means twice the rate |
| `TokenBucket.TokenBucketLimiter.TryConsume` | cpp/risk/token_bucket.hpp:19-45 | grants exactly if the refilled level is at least one, and then takes one |
| `RiskGate.PassMeansEveryCheck` | cpp/risk/pre_trade_risk.cpp:20-127 | a priced order passes exactly when switches, market, rate, order, position and capital limits, price band and daily loss all allow it |
| `RiskGate.DecisionIsFirstWrong` | cpp/risk/pre_trade_risk.cpp:20-127 | every answer for every call, priced or not: an order passes exactly when nothing is wrong with it, and is rejected exactly for the first thing that is |
| `RiskGate.UnpricedDecision` | cpp/risk/pre_trade_risk.cpp:23-126 | without a last price an order passes exactly when switches, market, rate and daily loss allow it, and is rejected for the loss exactly when only that does not |
| `RiskGate.CallAsksOnce` | cpp/risk/pre_trade_risk.cpp:25-47 | a call that gets so far asks the limiter of its strategy once, whatever the answer is, and no other |
| `RiskGate.StrategiesShareTheWhole` | cpp/common/types.hpp:373-398 | over all runs: a strategy's used capital and daily profit, with those of the others, add up to the size of all positions and to the total realised and unrealised profit |
| `RiskGate.RejectionNamesItsCause` | cpp/risk/pre_trade_risk.cpp:23-126 | each rejection tells what was wrong: switches, market and rate exactly, the limits, the price band and the loss by the amounts that exceed them |
| `RiskGate.PassKeepsLimits` | cpp/risk/pre_trade_risk.cpp:62-90 | after a pass, the whole order filled at any price and marked at the last price leaves the position within its limit, and the strategy within its own exactly when the fill does not relabel an open position or the strategy could afford the whole position anew |
| `RiskGate.FillChargesTheLabel` | cpp/portfolio/portfolio_engine.cpp:54-59 | a fill by another strategy moves the capital of the strategy that opened the position, and leaves its own alone |
| `RiskGate.RelabelledPositionCountsInFull` | cpp/portfolio/portfolio_engine.cpp:55-59 | a position of instrument 0 that changes hands is charged in full to the new strategy |
| `RiskGate.RelabelExample` | cpp/risk/pre_trade_risk.cpp:79-90 | a portfolio the engine reaches, and an order that passes and then exceeds its capital limit that way |
| `RiskGate.UnpricedOrdersAreUnlimited` | cpp/risk/pre_trade_risk.cpp:53-90 | without a last price the decision does not depend on the quantity |
| `RiskGate.RunKeepsKeys` | cpp/portfolio/portfolio_engine.cpp:54-137 | after any fills and price updates every position is filed under its own instrument |
| `RiskGate.PassRate` | cpp/risk/pre_trade_risk.cpp:40-47 | whatever other calls do, the orders of a strategy that pass within a span of time number at most burst plus rate times the span |
| `RiskGate.PreTradeRiskEngine.constructor` | cpp/risk/pre_trade_risk.hpp:64 | no switch is set and nothing is configured |
| `RiskGate.PreTradeRiskEngine.Configure` | cpp/risk/pre_trade_risk.cpp:5-14 | exactly the strategies configured so far have a limiter, with the rate first listed for them; a second configuration changes no limiter |
| `RiskGate.PreTradeRiskEngine.StrategyUsedCapital` | cpp/common/types.hpp:387-398 | the loop sums the values of the strategy's positions, whatever order the map yields |
| `RiskGate.PreTradeRiskEngine.StrategyDailyPnl` | cpp/common/types.hpp:373-384 | the loop sums their realised and unrealised profit |
| `RiskGate.PreTradeRiskEngine.Check` | cpp/risk/pre_trade_risk.cpp:20-127 | the decision, and exactly one call of the strategy's limiter if the order gets that far, whatever the later checks say |
| `RiskGate.PreTradeRiskEngine.CheckLimits` | cpp/risk/pre_trade_risk.cpp:49-126 | the checks behind the rate limit, in their order |
| `Candles.RunsAreMaximal` | cpp/market_data/candle_builder.hpp:109-152 | cutting ticks where the bucket changes gives maximal runs that together are the ticks |
| `Candles.MaximalRunsAreUnique` | cpp/market_data/candle_builder.hpp:109-152 | there is only one such cut |
| `Candles.RunsSplit` | cpp/market_data/candle_builder.hpp:118-125 | runs of two stretches stand side by side where the bucket changes |
| `Candles.SummariseConcat` | cpp/market_data/candle_builder.hpp:140-165 | open, high, low, close, volume and open interest of a whole are those of its parts joined |
| `CandleHierarchy.BucketsNest` | cpp/market_data/candle_builder.hpp:115-118 | ticks in one fine bucket are in one coarse bucket, if the interval divides |
| `CandleHierarchy.FineRunsNest` | cpp/market_data/candle_builder.hpp:115-118 | cutting coarsely and then finely is cutting finely |
| `CandleHierarchy.CoarseCandlesJoinFineOnes` | cpp/market_data/candle_builder.hpp:40-46 | every coarse candle emitted is the join of exactly the fine candles of its bucket, and these are emitted before it |
| `CandleBuilder.ExtendedRun` | cpp/market_data/candle_builder.hpp:132-165 | updating the bar in place gives the bar of the run with the tick appended |
| `CandleBuilder.PartlyTracks` | cpp/market_data/candle_builder.hpp:40-46 | in the middle of a tick the intervals already updated have seen it and the others have not |
| `CandleBuilder.StreamFollowsRuns` | cpp/market_data/candle_builder.hpp:40-166 | after any ticks, for every instrument and interval: the candles of all maximal runs but the last are emitted, and the last is the open bar |
| `CandleBuilder.RunsAreCutByTheClock` | cpp/market_data/candle_builder.hpp:112-118 | ticks of a run fall into one interval of the exchange's clock, or the receiver's where the exchange gave no time, and adjacent runs into different ones |
| `CandleBuilder.EmittedCandlesTell` | cpp/market_data/candle_builder.hpp:109-195 | one candle for each run that opens at a positive price: its interval of the clock holds all ticks of the run, and it tells first, highest, lowest and last price, greatest volume and last open interest; a completed one closes with the last nanosecond of its interval, a flushed one at the time of the flush |
| `CandleBuilder.FourIntervals` | cpp/market_data/candle_builder.hpp:197 | an instrument that ticked has bars for 60, 300, 900 and 3600 seconds and no others |
| `CandleBuilder.CoarseCandlesAreMadeOfFineOnes` | cpp/market_data/candle_builder.hpp:40-166 | for any two of the four intervals, at every moment, the coarse candles emitted are joins of consecutive groups of emitted fine ones |
| `CandleBuilder.FlushCoversEveryTick` | cpp/market_data/candle_builder.hpp:50-69 | after the flush there is one candle per maximal run, so every priced tick is in exactly one |
| `CandleBuilder.FlushClosesTheLastRun` | cpp/market_data/candle_builder.hpp:62-66 | flushing the streamed state adds exactly the last run's candle |
| `CandleBuilder.FlushedCandlesAgree` | cpp/market_data/candle_builder.hpp:50-69 | after the flush every coarse candle, the last included, is the join of its group of fine ones, and every fine candle is in a group |
| `CandleBuilder.CandleBuilder.constructor` | cpp/market_data/candle_builder.hpp:26 | no bar is open |
| `CandleBuilder.CandleBuilder.UpdateOneBar` | cpp/market_data/candle_builder.hpp:109-166 | the update of one interval, in place |
| `CandleBuilder.CandleBuilder.OnTick` | cpp/market_data/candle_builder.hpp:40-46 | all four intervals, finest first |
| `CandleBuilder.CandleBuilder.EmitCandle` | cpp/market_data/candle_builder.hpp:168-195 | the candle carries the bar's values and the closing time |
| `CandleBuilder.CandleBuilder.FlushAll` | cpp/market_data/candle_builder.hpp:50-69 | for every key one candle if its bar is open at a positive price, in whatever order the map yields; no bar is left |
| `Pipeline.AcceptedExactly` | cpp/market_data/tick_normalizer.cpp:81-123 | a tick passes exactly when it is fresh, positively priced and within half of the open if there is one |
| `Pipeline.PipelineFilters` | cpp/market_data/tick_normalizer.cpp:41-73 | after any arrivals and turns: ring and candle builder got the same ticks, those popped that pass, in order, and every tick popped is counted once, under the reason it was dropped for if it was |
| `Pipeline.NothingIsReordered` | cpp/market_data/tick_normalizer.cpp:41-50 | ticks popped followed by ticks queued are the arrivals that found room |
| `Pipeline.PipelineCandlesAgree` | cpp/market_data/tick_normalizer.cpp:92-99 | coarse candles are made of fine ones for everything the pipeline emits, with no assumption left on prices |
| `Pipeline.TickNormalizer.constructor` | cpp/market_data/tick_normalizer.cpp:8-13 | starts with zero counters |
| `Pipeline.TickNormalizer.ValidateTick` | cpp/market_data/tick_normalizer.cpp:81-123 | true exactly for a tick that passes; otherwise the matching counter moves by one |
| `Pipeline.TickNormalizer.OneTurn` | cpp/market_data/tick_normalizer.cpp:43-72 | one turn of the loop |
| `Pipeline.TickNormalizer.Run` | cpp/market_data/tick_normalizer.cpp:32-79 | the loop is that many turns |

## Left out

- Network and plumbing: WebSocket and REST clients, the execution manager, Kafka, Redis, strategy plugins, logging, configuration, thread pinning. Their callbacks are steps that may come at any time.
- Market hours and all clocks: inputs of the model.
- Floating-point rounding, memory orders weaker than sequential consistency, and the width of 32-bit quantities, counters and time stamps.
- Fixed-width character arrays: ids are strings of any length, so truncation by `strncpy` is not modelled.
- Resets and reloads (`load_positions`, `FillDeduplicator::reset`, `ArenaAllocator::reset`, `TokenBucketLimiter::reset`): statements are about runs between them.
- `check_greeks`, the setters of the kill switches, `status_name`, `utilization`, `cancel_all_open`, `log_open_orders`, `ArenaAllocator::make`, plain accessors and setters: each is settled by reading it.
- Callbacks to users (`fill_cb_`, `reject_cb_`, `update_cb_`, `kafka_fn_`): that candles are handed out is modelled, what the receivers do is not.
- Record fields that no modelled code reads: order tag, product, trigger price and placing time, symbols, greeks, depth.
- The move overload of `push`: it differs only in how the item is copied.
- SpscQueue.SpscQueue.Size: for a queue at rest; two loads with a moving queue between them can disagree.
- Reading the order's fields to build the fill record is part of the update step, though the source does it just before it takes the lock for the update.
- OmsInvariants.RunInv: for runs in which an update finds its order still in its slot; `OmsInvariants.PartitionedExactlyWhileUpdatesAreCurrent` covers all other runs as far as the pool is concerned.
- OmsAccounting.LiveMeansUnfilled: for positive quantities and fills after their acknowledgement; `OmsAccounting.FilledOrderLingersExactlyWhenUnacknowledged` is the other case.
- Reconciliation.FillsReachThePortfolio: for one fill handler at a time, since otherwise fills reach the queue in another order than they are applied.
- RiskGate.PassKeepsLimits: for a priced order of non-negative quantity whose position is marked at that price.
- OmsAverages.AverageRightExactlyForEqualPrices: for fills of positive quantity.
- Arena.RunInv: for requests that do not wrap; `Arena.WrappedRequestOverlaps` is one that does.
- OmsEngine.OrderManagementSystem.Cancel: which of several exchange ids is used depends on the map and is left open.
- Portfolio.MarkIsFreshExactlyWhenOpen: for fills of positive quantity and price, as an exchange sends them; `Portfolio.AccountEquation` holds without that.
- DisruptorLaps.LogExactlyWhenInTime: for distinct ticks; with equal ones a wrong delivery can look right.
- Disruptor.RunInv: one producer, as the source demands; the sequence number claimed by a second one is not modelled.
