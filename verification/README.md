# A verified model of the market-data pipeline

The repository is a market-data pipeline: a synthetic order-flow generator emits
add/execute/cancel/delete/replace messages, a publisher packs them into datagrams, a
dispatcher hands them through single-producer/single-consumer rings to sharded workers,
and each worker keeps flat-array order books.  Beside it stand a FIFO queue-position
book, a backtest that compares two fill models, and a cross-venue layer with a
consolidated quote and a trade-through guard.  This project models that logic in Dafny
and proves what the pipeline is for: that threads, sharding, packing and loss never
change what the books mean.

The strongest statements, and where they are:

* `Pipeline.ReplayEndsExact` — any stream the generator can emit, any number of shards,
  any schedule of the threads' atomic micro-steps with stale but coherent loads: when
  shutdown returns, every book has exact touches, every level is the sum of its live
  orders, and the live orders are the generator's own.
* `LivePath.LossyPathStaysSound` — the same path over a network that loses any subset of
  the datagrams, with full queues refusing and nobody retrying: what is heard is the
  surviving runs, what is accepted is a subsequence of what was sent, and every book is
  still exact for the messages that got through.
* `Sharding.StreamIsInvisible` — exactly when the number of shards shows in a book or in
  the live orders: when a message names an order resting on a shard it is not sent to.
* `NormalizerProtocol.EveryRunCanFinish` and `Fairness.FairRoundsFinish` — no reachable
  state has lost the possibility of a clean shutdown, and a fair scheduler reaches it within
  a number of rounds known in advance.
* `BookCoupling.ReplayKeepsCoupled` — the array book and the queue book agree after every
  stream whatever, repeated ids and out-of-band prices included.
* `Backtests.QueueFillImpliesNaiveFill`, `Backtests.ResolutionIsTimed` and
  `BacktestLimits.SimulatedTrackersAreExact` — the backtest's relational and timing claims,
  and how many messages they can be trusted for.
* `BacktestReports.NaiveFillsAreTrades`, `TrackedFillsAreFrontTrades`, `FillQuotesAreRaw` and
  `PairsArePlacedWhenDue` — every result of a backtest told from the message stream alone:
  what filled it, that nothing should have sooner, what the market showed, what was placed.
* `TradeThroughGuards.DecisionIsExact` and `TradeThroughGuards.ResendIsAccepted` — the
  guard against raw depth.

## How it is arranged

The state-changing classes of the program are Dafny classes here (`SpscRingBuffer`,
`OrderBook`, `Shard`, `QueuePositionBook`, `FastAheadTracker`, `MarketSimulator`,
`BacktestEngine`, `VenueFeed`), and its loops are methods with invariants.  Each method's
contract equates the new state with a function of the old one; the lemmas then prove what
the program promises about that function.  The threads are a transition system whose
actions are single atomic operations.

| file | what it models |
|---|---|
| `sums.dfy`, `masks.dfy` | weighted totals over maps; `& (capacity - 1)` on indices |
| `protocol.dfy`, `framing.dfy` | messages; their packed structs, byte for byte |
| `packing.dfy`, `scanning.dfy`, `datagrams.dfy` | the publish and receive loops |
| `ring_buffer.dfy`, `normalizer.dfy`, `normalizer_protocol.dfy` | the rings, the shards, the threads |
| `sharding.dfy`, `fairness.dfy` | when the sharding shows; the threads under a fair scheduler |
| `order_book.dfy`, `order_map.dfy` | the array book; the order map that drives it |
| `market_simulator.dfy`, `pipeline.dfy`, `live_path.dfy` | the generator; the two end-to-end paths |
| `queue_book.dfy`, `book_coupling.dfy`, `backtest.dfy`, `backtest_runs.dfy`, `backtest_reports.dfy`, `backtest_limits.dfy` | queue positions and the backtest |
| `venue_feed.dfy`, `nbbo.dfy`, `depth_limits.dfy`, `trade_through_guard.dfy` | the cross-venue layer |

## Where the program departs from what it says

Each of these follows the code.  The lemmas named give the exact condition, and an input
that meets it where the condition alone does not show one.

* An add of quantity zero above the touch moves the touch onto an empty level
  (`OrderBooks.DoKeepsExact`).
* A level index is narrowed to 32 bits, so prices 2^32 ticks apart share a level
  (`OrderMaps.PricesCanAlias`, `OrderMaps.LevelIsPriceTotal`).
* Inserting an id that still rests in the band uncouples the book from the order map
  (`OrderMaps.StepKeepsCoupled`).
* The number of shards shows when a message names, not idly, an order that rests on a shard
  it is not sent to, or replaces an order of its own shard by an id that rests on another,
  and only then (`Sharding.StepIsInvisible`, `Sharding.StreamIsInvisible`).  Two messages
  are enough (`Normalizers.SharedIdsAreVisible`).  That no id is ever used with two
  instruments is sufficient (`Sharding.OwnedNeverShows`) and not necessary
  (`Sharding.OwnershipIsNotNeeded`).
* A tracker starts wrong when the level's total is 2^32 or more
  (`QueueBooks.PlacementAgrees`).  Two buys of 2^31 reach it, and one share traded then
  fills an order with 2^32 ahead of it (`BacktestLimits.FalseFill`).  No generated run of
  8,589,935 messages reaches it at a placement (`BacktestLimits.SimulatedPlacementsFit`),
  and some run of one message more does (`BacktestLimits.LimitIsTight`).
* A quote reports less than the depth when the depth is 2^32 or more
  (`DepthLimits.QuotedQuantityIsExact`).  A venue's feed cannot reach that in 8,589,934
  messages (`DepthLimits.FedQuoteIsExact`) and can in 8,589,935
  (`DepthLimits.QuoteCanFallShort`).
* The comment at `include/backtest_sim.hpp:57` says a naive order records nothing ahead of
  it; the code records the level's real quantity, and so does `Backtests.NaiveOrder`.
* `README.md:622-624` of the repository says an order priced past the national quote is
  rejected.  The code compares the national quote with the own venue's touch instead.  Of
  such orders it accepts those whose limit does not reach the own touch and those whose own
  touch is the national price, refuses for want of liquidity those whose own venue offers
  nothing, and rejects the rest as documented (`TradeThroughGuards.DocumentedRule`, with
  `RestingOrderDisagrees`, `LoneVenueDisagrees` and `EmptyVenueDisagrees` for the cases).
* A venue's book is guaranteed in band for 2663 messages and no more
  (`VenueFeeds.FirstMessagesInBand`, `VenueFeeds.NextMessageCanDrop`).
* A ring of one slot refuses every push (`RingBuffers.OneSlotRefuses`), so the progress
  results ask for two.

## Model

| member | source | states |
|---|---|---|
| Pipeline.ReplayEndsExact | include/live_feed.hpp:229-247 | the offline replay: any generator stream, shard count, schedule and centres of the books end with every book exact, each level the sum of its live orders, and the live orders those of the generator |
| Pipeline.InstrumentReplay | include/normalizer.hpp:114-163 | one instrument's replay holds exactly that instrument's part of the whole order map, and its messages never re-insert a resting id |
| LivePath.LossyPathStaysSound | include/live_feed.hpp:145-196 | the live path: whatever datagrams are lost, whatever pushes are refused and whatever the books are centred on, the receiver hears the surviving runs, the shards accept a subsequence of what was sent, and every book ends exact for it |
| LivePath.GeneratedFits | include/market_simulator.hpp:46-126 | every message of the generator fits its packed struct, for as many messages as the ids and the drift have room |
| LivePath.LossyStreamIsClean | include/market_simulator.hpp:59-71 | ids are inserted at most once, so any part of a self-consistent stream can be lost without a resting id ever being overwritten |
| LivePath.StampingKeepsConsistency | include/live_feed.hpp:161-163 | stamping send times changes nothing the order map sees |
| LivePath.StampsAreSendTimes | include/live_feed.hpp:161-163 | each message is sent with its own time and is otherwise unchanged |
| NormalizerProtocol.EveryScheduleIsSequential | include/normalizer.hpp:78-184 | every schedule ends with each instrument's book and live orders equal to the sequential one-shard fold of the accepted messages, which are all of them under retry |
| NormalizerProtocol.ActionIsInv | include/normalizer.hpp:78-184 | every atomic action of dispatcher and workers keeps the whole invariant: ring safety, routing, processed counts, drain progress |
| NormalizerProtocol.LoadsMayBeStale | include/ring_buffer.hpp:24-34 | the schedules covered: every load of the other side's index may return any value stored since that thread's last one, and a load of the stop flag may miss the store |
| NormalizerProtocol.RunIsInv | include/normalizer.hpp:71-99 | the invariant holds after every run from the start |
| NormalizerProtocol.FinishedShards | include/normalizer.hpp:93-99 | after the joins, each shard processed exactly its accepted messages, once and in order |
| NormalizerProtocol.DrainKeepsLane | include/normalizer.hpp:94-96 | the dispatcher moves past a shard only when everything accepted there has been popped |
| NormalizerProtocol.LossesAreCounted | include/normalizer.hpp:85-88 | accepted messages keep the stream's order, and without retry the refusal counters are exactly the messages lost |
| NormalizerProtocol.WorkNeverGrows | include/normalizer.hpp:165-184 | no action adds to undispatched, queued and in-flight work |
| NormalizerProtocol.SomeActionProgresses | include/normalizer.hpp:165-184 | before the end some enabled action strictly decreases a well-founded measure |
| NormalizerProtocol.CanFinish | include/normalizer.hpp:93-99 | from any state satisfying the invariant some continuation reaches the end of the shutdown |
| NormalizerProtocol.EveryRunCanFinish | include/normalizer.hpp:93-99 | every run, however it went so far, can be completed |
| Fairness.FairRoundsFinish | include/normalizer.hpp:93-99 | rounds in which every thread moves with current loads, in any order, are a run of the protocol that has shut down after 24 rounds a message, 24 a shard and 30 more |
| Fairness.AnyTurn | include/normalizer.hpp:165-184 | the turn of the thread that the run waits for uses up work or one of its turns; any other thread's turn does not disturb that |
| RingBuffers.EveryRunIsFifo | include/ring_buffer.hpp:21-40 | over every interleaving with stale loads, the popped items are a prefix of the pushed and at most capacity less one are held |
| RingBuffers.StepIsSafe | include/ring_buffer.hpp:21-40 | each micro-step of either thread keeps the index and slot invariant |
| RingBuffers.NoSlotRace | include/ring_buffer.hpp:27-37 | the slot being written is not the slot being read nor any queued one |
| RingBuffers.StepRefinesFifo | include/ring_buffer.hpp:21-40 | each micro-step is a step of a bounded first-in first-out queue |
| RingBuffers.RefusalIsTruthful | include/ring_buffer.hpp:24-36 | a push is refused exactly when the loaded counters are capacity less one apart, a pop exactly when they are equal |
| RingBuffers.OneSlotRefuses | include/ring_buffer.hpp:18-26 | a one-slot ring refuses every push |
| RingBuffers.SizeApproxIsExact | include/ring_buffer.hpp:42-46 | the producer's `size_approx` is the pushed count less the pops it has seen |
| RingBuffers.SpscRingBuffer.Push | include/ring_buffer.hpp:21-30 | appends to the contents, or refuses at capacity less one and changes nothing |
| RingBuffers.SpscRingBuffer.Pop | include/ring_buffer.hpp:32-40 | takes the oldest item, or reports empty and changes nothing |
| RingBuffers.SpscRingBuffer.Size | include/ring_buffer.hpp:42-46 | the masked difference of the indices is the number of items held |
| Masks.MaskIsRemainder | include/ring_buffer.hpp:18-49 | masking by a power of two less one is the remainder by it |
| Masks.NextWraps | include/ring_buffer.hpp:23-49 | the successor index, in wrapping machine arithmetic, is the remainder of the successor |
| Masks.SizeApproxIsDifference | include/ring_buffer.hpp:42-49 | the masked unsigned difference is the difference modulo the capacity |
| Normalizers.BuildRouting | include/normalizer.hpp:49-58 | the constructor's tables send instrument i to shard i mod n at local i div n; no two instruments share a book |
| Normalizers.ShardShowsInstrument | include/normalizer.hpp:78-163 | seen from one instrument, its shard runs exactly that instrument's messages |
| Normalizers.ShardingIsInvisible | include/normalizer.hpp:78-163 | with ids owned by one instrument each, every instrument's book and live orders end as under one shard; the exact condition is in the next rows |
| Normalizers.SharedIdsAreVisible | include/normalizer.hpp:114-150 | a two-message stream with a shared id for which one shard and two shards differ |
| Sharding.StepIsInvisible | include/normalizer.hpp:78-163 | while every live order is held by exactly one shard and every book equals the one-shard book, a message keeps it so if and only if it neither names, other than idly, an order resting on another shard nor replaces its own by an id resting on another |
| Sharding.StreamIsInvisible | include/normalizer.hpp:78-163 | the sharding shows after no prefix of a stream if and only if no message shows it at its turn |
| Sharding.IdleIsNoStep | include/normalizer.hpp:123-162 | which messages change nothing even where they find their order |
| Sharding.OwnedNeverShows | include/normalizer.hpp:53-57 | when each id belongs to one instrument no number of shards shows |
| Sharding.OwnershipIsNotNeeded | include/normalizer.hpp:117-149 | a stream with no such assignment of ids for which no number of shards shows |
| Sharding.EveryScheduleIsInvisible | include/normalizer.hpp:78-184 | after every schedule the threads' shards are those of the accepted messages, indistinguishable from one shard if none of these shows the sharding |
| Normalizers.Shard.ApplyAt | include/normalizer.hpp:114-163 | one message moves the order map and the message's own book exactly as the transition says |
| Normalizers.Shard.Apply | include/normalizer.hpp:114-163 | and leaves every other book of the shard as it was |
| OrderBooks.DoKeepsExact | include/order_book.hpp:41-73 | an update keeps both running touches equal to the true extremes if and only if it is not an empty add that outranks the touch |
| OrderBooks.RunKeepsExact | include/order_book.hpp:31-73 | over every run of positive adds and reduces the touches are exact and `dropped` counts the out-of-band calls |
| OrderBooks.DoAt | include/order_book.hpp:41-73 | an update moves one level by its quantity, clamped at zero, and no other level |
| OrderBooks.WalkDownStops | include/order_book.hpp:61-63 | the bid walk ends in range at the next non-empty level or at -1 |
| OrderBooks.WalkUpStops | include/order_book.hpp:68-70 | the ask walk ends in range at the next non-empty level or past the last |
| OrderBooks.CentredIsExact | include/order_book.hpp:28-37 | a book centred anew is empty and exact, has 16384 levels with the reference at level 8192, and keeps its drop count |
| OrderBooks.OrderBook.Init | include/order_book.hpp:31-37 | the loop over both arrays brings that about |
| OrderBooks.OrderBook.Add | include/order_book.hpp:41-52 | the add, its out-of-band branch and its return value |
| OrderBooks.OrderBook.Reduce | include/order_book.hpp:54-73 | the reduce with its clamp and its walk |
| OrderBooks.OrderBook.QtyAt | include/order_book.hpp:97-101 | the depth at a price, zero outside the band |
| OrderMaps.StepKeepsCoupled | include/normalizer.hpp:114-163 | every level stays the sum of its live orders if and only if the message does not re-insert an id resting with quantity in the band |
| OrderMaps.ClampNeverFires | include/order_book.hpp:58-67 | in a coupled book no level holds less than any order recorded there, so the clamp at zero never acts |
| OrderMaps.LevelIsPriceTotal | include/order_book.hpp:103-106 | a level is the live quantity at one exact price if and only if no live order shares it from another price |
| OrderMaps.PricesCanAlias | include/order_book.hpp:103-106 | two prices 2^32 apart share a level |
| OrderMaps.ReplayIsSound | include/venue_feed.hpp:73-125 | after every clean stream all levels are sums of live orders and both touches are exact |
| OrderMaps.ApplyToBook | include/backtest_sim.hpp:74-122 | the five-way switch on a live book and map is the transition |
| QueueBooks.AppliedIsWellFormed | include/queue_book.hpp:97-137 | every message keeps lists non-empty, arrivals strictly increasing, and every index entry resolving |
| QueueBooks.ReplayIsWellFormed | include/queue_book.hpp:97-183 | and so does every stream |
| QueueBooks.AppliedKeepsIndexed | include/queue_book.hpp:97-137 | entries and index stay one to one if and only if no resting id is re-inserted |
| QueueBooks.AheadIsPrefix | include/queue_book.hpp:150-157 | the quantity ahead of an arrival is the sum of a prefix of the list |
| QueueBooks.ApplyAdvances | include/queue_book.hpp:97-183 | a message moves the quantity ahead of any earlier arrival by exactly its reported reduction ahead of it, and by nothing else |
| QueueBooks.TouchedAreTheChanged | include/queue_book.hpp:97-137 | the reported levels are exactly those whose lists the message changes, but for a take of nothing, which reports one |
| QueueBooks.InsertedIsNewest | include/queue_book.hpp:100-132 | an inserted order is the last of its list, under the next arrival number |
| QueueBooks.QuantityIsConserved | include/queue_book.hpp:160-183 | over every stream, resting quantity plus reported reductions is the quantity added |
| QueueBooks.PlacementAgrees | include/queue_book.hpp:141-218 | a fresh tracker agrees with the scan if and only if the level totals less than 2^32 |
| QueueBooks.ConsumeAgrees | include/queue_book.hpp:221-232 | agreement survives every message, the clamp never acts, the quantity ahead never grows, and a fill is reported exactly when nothing was ahead before and the message executes an order of the level |
| QueueBooks.TrackerIsExact | include/queue_book.hpp:209-232 | the constant-time tracker equals the scan after every stream |
| QueueBooks.QueuePositionBook.Apply | include/queue_book.hpp:97-137 | new lists, index and counter, and the reported effect, for every message type |
| QueueBooks.QueuePositionBook.Reduce | include/queue_book.hpp:169-183 | the shared reduction with its erasures |
| QueueBooks.QueuePositionBook.LevelTotalQty | include/queue_book.hpp:141-147 | the level's total, returned in 32 bits |
| QueueBooks.QueuePositionBook.QtyAheadOfSeq | include/queue_book.hpp:150-157 | the oracle loop computes the quantity ahead |
| QueueBooks.QueuePositionBook.TotalRestingQty | include/queue_book.hpp:160-165 | the double loop computes the total over all levels, in any order of visiting |
| QueueBooks.FastAheadTracker.Consume | include/queue_book.hpp:221-232 | the update in place is the tracker's transition |
| BookCoupling.StepKeepsCoupled | include/backtest_sim.hpp:143-146 | one message keeps the array book and the queue book coupled, whatever the message |
| BookCoupling.ReplayKeepsCoupled | include/backtest_sim.hpp:143-146 | after every stream the order maps agree and every in-band level is the sum of the lists that map to it |
| BookCoupling.AheadIsTouchDepth | include/backtest_sim.hpp:195-201 | the quantity ahead read at a placement is the array's touch depth if and only if no other key's quantity shares the level |
| Backtests.QueueFillImpliesNaiveFill | include/backtest_sim.hpp:148-164 | a filled queue-tracked order's naive partner is filled at the same or an earlier message and earlier in the results |
| Backtests.QueueFillsAtMostNaiveFills | include/backtest_sim.hpp:148-164 | queue-tracked fills never outnumber naive fills |
| Backtests.EachOrderReportsOnce | include/backtest_sim.hpp:143-174 | every placed order yields exactly one result and nothing else yields any |
| Backtests.ResolutionIsTimed | include/backtest_sim.hpp:148-171 | with d the larger of 1 and the time to live: fills come within d messages, cancels at exactly d, leftovers are no older than d |
| Backtests.BacktestEngine.Run | include/backtest_sim.hpp:136-175 | the replay loop over its objects produces the specified results |
| Backtests.BacktestEngine.SweepActive | include/backtest_sim.hpp:148-164 | erasing while iterating resolves each order once and keeps the rest in order |
| Backtests.BacktestEngine.PlacePair | include/backtest_sim.hpp:195-209 | one naive and one queue-tracked order at the best bid, with consecutive ids and one pair id |
| BacktestRuns.EngineBooksStayCoupled | include/backtest_sim.hpp:143-146 | the engine's two books agree in every state of every run |
| BacktestRuns.TrackersAreExact | include/backtest_sim.hpp:148-209 | every active tracker equals the scan in every state of a run whose placements fit 32 bits |
| BacktestRuns.FillsAreGenuine | include/backtest_sim.hpp:155-158 | a queue-tracked order fills exactly when the scan found nothing ahead and the message executes an order of its level |
| BacktestReports.NaiveFillsAreTrades | include/backtest_sim.hpp:150-163 | a naive order is filled if and only if its resolving message executes an order resting at its level; no earlier message since its placement did, and none at all if it was cancelled or left resting |
| BacktestReports.TrackedFillsAreFrontTrades | include/backtest_sim.hpp:155-163 | the same of a queue-tracked order placed behind less than 2^32, for trades at its level while nothing that arrived before it still rests there |
| BacktestReports.FillQuotesAreRaw | include/backtest_sim.hpp:211-228 | the quotes of a result are the highest non-empty bid and lowest non-empty offer of the raw arrays after its resolving message, or those at placement where a side is empty |
| BacktestReports.PlacementsAreRaw | include/backtest_sim.hpp:195-209 | side, price, size, touches and quantity ahead of a result are those of the raw book and the queue after the message it was placed at |
| BacktestReports.PairsArePlacedWhenDue | include/backtest_sim.hpp:166-168 | a pair, one order of each model under the next pair number, is placed after a message if and only if the interval divides its index and both raw sides are non-empty then |
| BacktestReports.ResultsAreInOrder | include/backtest_sim.hpp:143-171 | results come message by message and, at one message, in the order of placement |
| BacktestLimits.SimulatedTrackersAreExact | include/backtest_sim.hpp:136-175 | on generated streams of up to 8,589,935 messages every tracker equals the scan, with no side condition |
| BacktestLimits.SimulatedPlacementsFit | include/queue_book.hpp:141-147 | no placement of such a run meets a level of 2^32 |
| BacktestLimits.LimitIsTight | include/queue_book.hpp:141-147 | some generated run of one message more has a wrong tracker |
| BacktestLimits.FalseFill | include/backtest_sim.hpp:195-209 | two buys of 2^31 and a one-share trade: a queue-tracked order with 2^32 ahead of it is reported filled |
| BacktestLimits.PlacementsSeeTheTouch | include/backtest_sim.hpp:195-209 | on one-instrument runs both orders of a placement record the array's positive touch depth, and the tracker starts behind exactly that |
| BacktestLimits.EveryOrderStartsBehind | include/backtest_sim.hpp:136-228 | so every result of such a run reports something ahead of its order at placement |
| BacktestLimits.GeneratedBooksAreExact | include/backtest_sim.hpp:136-146 | on generated streams every book is exact, so the raw statements hold without condition |
| BacktestLimits.GeneratedPlacementsFit | include/backtest_sim.hpp:195-199 | and up to 8,589,935 messages every order was placed behind less than 2^32 |
| MarketSimulators.EmissionKeepsAgreement | include/market_simulator.hpp:46-126 | each emitted message is self-consistent and keeps the receiver's order map equal to the live set |
| MarketSimulators.StreamIsConsistent | include/market_simulator.hpp:46-126 | and so is every stream from a fresh generator |
| MarketSimulators.NothingIsTruncated | include/normalizer.hpp:123-162 | on such messages the unknown-id branch and the truncation to what rests never act |
| MarketSimulators.SwapPopKeeps | include/market_simulator.hpp:119-121 | swap-and-pop removes one order, keeps the others and keeps ids distinct |
| MarketSimulators.EmissionIs | include/market_simulator.hpp:59-117 | for every possible draw the message type, ids, side, price and quantity: an add when nothing rests or an add is drawn, otherwise what was chosen, of the order picked |
| MarketSimulators.EmissionIsInRange | include/market_simulator.hpp:65-110 | buys lie 1 to 200 ticks below the drifted reference and sells above, a replacement on its order's side; quantities are 1 to 500, and taken ones at most what rests |
| MarketSimulators.EveryTypeCanBeEmitted | include/market_simulator.hpp:59-117 | from any state with a live order, each of the five types can be emitted, and of that order every admissible take |
| MarketSimulators.EmptyListAdds | include/market_simulator.hpp:59-71 | where nothing rests an order is added, whatever else was drawn |
| MarketSimulators.EveryQuoteCanBeAdded | include/market_simulator.hpp:51-70 | every side, price, drift and quantity in range can be added |
| MarketSimulators.DrawAdvances | include/market_simulator.hpp:46-126 | a draw moves one reference by its drift, one instrument's list by one order at most, and the next id by one for each id given out |
| MarketSimulators.MarketSimulator.NextMessage | include/market_simulator.hpp:46-126 | the message and the new generator state for every possible draw |
| VenueFeeds.FeedStarts | include/venue_feed.hpp:33-36 | a new venue has an empty book centred on its caller's price, and a flow that starts at its own reference |
| VenueFeeds.EveryFeedIsSound | include/venue_feed.hpp:33-49 | whatever price the book is centred on and whatever is dropped, touches and in-band levels are exact and live orders are the generator's |
| VenueFeeds.DroppedIsOutOfBand | include/order_book.hpp:41-56 | `dropped` is the number of updates asked of the book outside its band |
| VenueFeeds.CoveredIsExact | include/market_simulator.hpp:65-67 | every possible quote is in band if and only if the reference is within -7992 to +7991 of the centre |
| VenueFeeds.CoveredRunDropsNothing | include/venue_feed.hpp:45-49 | while the reference stays there nothing is dropped and every live order is in band |
| VenueFeeds.StepMayDrop | include/venue_feed.hpp:45-49 | the next message is safe from drops, for every draw with that drift, if and only if the drifted reference is in the window |
| VenueFeeds.FirstMessagesInBand | include/market_simulator.hpp:51-54 | centred on the generator's price, the first 2663 messages are never dropped |
| VenueFeeds.NextMessageCanDrop | include/market_simulator.hpp:51-67 | some run drops its 2664th |
| VenueFeeds.VenueFeed.Step | include/venue_feed.hpp:45-49 | one generated message applied to the venue's map and book |
| Nbbo.BestIsNational | include/nbbo.hpp:51-73 | the consolidated touch is the extreme non-empty raw level over all venues, ties to the lowest venue |
| Nbbo.NationalIsUnique | include/nbbo.hpp:46-48 | at most one quote is that |
| Nbbo.BestBid | include/nbbo.hpp:51-61 | the loop over venues computes it for bids |
| Nbbo.BestOffer | include/nbbo.hpp:63-73 | and for offers |
| Nbbo.Classify | include/nbbo.hpp:79-97 | the double loop lists exactly once, in order, each pair of distinct venues whose raw depth locks or crosses |
| Nbbo.ListingIsUnique | include/nbbo.hpp:79-97 | that leaves one possible listing |
| Nbbo.ListingAgreesWithNational | include/nbbo.hpp:75-97 | a listed pair means the national bid is at or above the national offer, and conversely when those come from different venues |
| Nbbo.OwnCrossIsNotListed | include/nbbo.hpp:29-34 | a venue crossing only itself is not listed |
| Nbbo.OracleBestBid | include/nbbo.hpp:108-116 | the downward scan finds the highest non-empty raw level |
| Nbbo.OracleBestAsk | include/nbbo.hpp:118-126 | the upward scan finds the lowest |
| Nbbo.TouchAgreesWithScan | include/nbbo.hpp:100-126 | the cached touch agrees with the scan if and only if the running index is the true extreme |
| Nbbo.BestIsATouch | include/nbbo.hpp:51-73 | the consolidated quote is the touch of the venue it names |
| Nbbo.NothingToQuote | include/nbbo.hpp:20-25 | with nothing resting the quote is blank: venue -1, price 0, quantity 0 |
| DepthLimits.QuotedQuantityIsExact | include/nbbo.hpp:57-69 | a quote reports the touch's depth if and only if the depth is below 2^32 |
| DepthLimits.FedQuoteIsExact | include/nbbo.hpp:57-69 | it does for every venue fed at most 8,589,934 messages |
| DepthLimits.QuoteCanFallShort | include/nbbo.hpp:57-69 | and not for some venue fed one message more |
| TradeThroughGuards.DecisionIsExact | include/trade_through_guard.hpp:48-77 | rejected as a trade-through if and only if marketable at its own venue while another venue's raw depth is strictly better; rejected for liquidity if and only if the own venue's other side is empty; the quote reported is national, and the touch reported is the own venue's best raw price, or zero |
| TradeThroughGuards.ResendIsAccepted | include/trade_through_guard.hpp:60-74 | the rejected order sent to the reported venue is accepted and executes there |
| TradeThroughGuards.DocumentedRule | README.md:622-625 | trade-throughs are all past the national quote; of the orders past it, which are accepted, which lack liquidity and which are trade-throughs, by whether the own venue quotes, the limit reaches its touch, and that touch is the national price |
| TradeThroughGuards.LoneVenueDisagrees | include/trade_through_guard.hpp:60-64 | one venue, a limit past its touch: accepted, the own touch being the national price |
| TradeThroughGuards.RestingOrderDisagrees | include/trade_through_guard.hpp:54-59 | two venues, a limit between their touches: past the better quote, unmarketable at home, and accepted |
| TradeThroughGuards.EmptyVenueDisagrees | include/trade_through_guard.hpp:52-66 | past the other venue's quote, nothing to take at home: refused for want of liquidity |
| TradeThroughGuards.RestingOrderExample | include/trade_through_guard.hpp:54-59 | such a pair of books, in numbers |
| TradeThroughGuards.FedVenuesAreExact | include/venue_feed.hpp:33-49 | every book a venue feed can reach meets the conditions above |
| Framing.RoundTrip | include/protocol.hpp:28-88 | decoding an encoded message gives it with each field reduced to its width, so the same message if and only if every field fits |
| Framing.StructLayout | include/protocol.hpp:34-88 | the packed structs offset by offset and their sizes: 32, 23, 23, 19 and 39 bytes, fields little-endian |
| Framing.HeaderLies | include/protocol.hpp:16-32 | every struct opens with its type byte, two bytes of instrument and eight of time |
| Framing.UnknownBytes | include/protocol.hpp:79-88 | five bytes are types and no other; one byte is a buy |
| Framing.NumberOfBytes | include/protocol.hpp:8-10 | little-endian bytes read back as the value modulo the field's range |
| Packing.GroupsJoin | include/live_feed.hpp:160-171 | packing loses, repeats and reorders nothing |
| Datagrams.RunsAreExact | include/live_feed.hpp:145-173 | all messages in order; each datagram non-empty, at most 1200 bytes, at most 63 messages; each but the last would exceed 1200 bytes with its successor's first message |
| Datagrams.WireLayout | include/live_feed.hpp:44-48 | a datagram is two bytes of count and then its messages |
| Datagrams.MiscountedDatagram | include/live_feed.hpp:183-186 | whatever count a datagram announces, at most that many of its messages are read and none from beyond its end |
| Datagrams.TakenUntilDone | include/live_feed.hpp:177-198 | a session takes what its calls brought up to the first that brings nothing with the publisher done |
| Datagrams.UnpackReads | include/live_feed.hpp:183-194 | a datagram unpacks to its messages and is consumed exactly to its end, whatever lies behind it in the buffer |
| Datagrams.ArrivalsAreHeard | include/live_feed.hpp:175-196 | any list of datagrams, reordered or repeated, is heard as exactly their messages |
| Datagrams.LossIsWholeRuns | include/live_feed.hpp:175-196 | losing any subset leaves exactly the concatenation of the surviving runs |
| Datagrams.LosslessSession | include/live_feed.hpp:145-196 | losing none leaves the published stream field for field |
| Datagrams.Publish | include/live_feed.hpp:145-173 | the publish loop over one packet buffer sends the datagrams of those runs, so every bound above holds of what it sends |
| Datagrams.Receive | include/live_feed.hpp:183-194 | the inner loop over the receive buffer reads what the datagram says, whenever that lies inside the buffer |
| Datagrams.ReceiveAll | include/live_feed.hpp:175-199 | the outer loop over one reused buffer: calls that bring nothing count for nothing and end the loop once the publisher is done; the counters count the rest and their messages |

## Left out

- Integer widths of counters: ids, sequence numbers, level quantities and counters are unbounded here; the 64-bit wrap-around of `next_order_id_`, `next_seq_`, `dropped_` and the level arrays is not modelled. The narrowings that the code writes out (level index, level total, quote quantity, struct fields, the packet's 16-bit count) are.
- Weak memory: index loads and stop-flag loads may be stale but coherent; slot contents and each shard's own data are sequentially consistent, as the acquire/release pairs provide. The single relaxed stores are not reordered.
- Fairness: `Fairness.FairRoundsFinish` is about schedulers that give every thread a turn in each round, with loads that return the latest store; a thread that is never run, or whose loads stay stale for ever, is not made to progress.
- NormalizerProtocol.EveryRunCanFinish: asks for at least two ring slots, because a one-slot ring accepts nothing (`RingBuffers.OneSlotRefuses`); the program fixes 2^20.
- Datagrams.Receive: speaks of datagrams whose announced messages lie inside the buffer; past its end the program's own behaviour is undefined. `Datagrams.ShortIsReadable` shows this holds of every datagram of at most 65,497 bytes in the 65,536-byte buffer, and the publisher never exceeds 1200.
- Datagrams.Receive: a byte that is no message type reads as no message; the program dispatches a zeroed message, which no worker applies.
- LivePath.LossyPathStaysSound: asks that send times, ids and drifting prices stay within 64 bits, as the program's own fields do.
- Backtests.BacktestEngine.Run: takes the message stream as a parameter instead of drawing it from a generator of its own; `BacktestLimits` states the results on generator streams.
- MarketSimulators.MarketSimulator.NextMessage: the random engine is a parameter constrained to the distributions' ranges; probabilities and seeds are not modelled.
- MarketSimulators.MarketSimulator.constructor: takes the initial reference prices instead of drawing them.
- FastAheadTracker inside the backtest: active orders hold the tracker by value, as the program's `optional` member does; the object form is proved separately.
- List iterators of the queue book: an iterator is named by its entry's arrival number. After a resting id is re-inserted the old entry stays, unreachable from the index, as in the program.
- Creation of the shards' books in the normalizer's constructor, and `init_reference_price`: the opening books are given; `Normalizers.BuildRouting` models the tables and the counts.
- Sockets, multicast, receive timeouts and thread creation: the network delivers an arbitrary subset (or any list) of the datagrams sent.
- Clocks, latency vectors, percentiles, throughput and loss percentages: timing and floating point. Send times are a parameter.
- The Python binding, its zero-copy views and lifetimes, and reads of a book while workers run.
- CSV output, command lines, benchmarks and the profit script: input, output and floating point without a deep invariant.
- The legal text of Regulation NMS: only the arithmetic the code implements.
