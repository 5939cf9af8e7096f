# hl-orderbook-server: a verified model

The server keeps an in-memory order book per coin in step with two independently read
event streams of a node (order statuses and book diffs) and serves derived views of it.
This project models five connected parts of it and proves that each agrees with something
much simpler:

1. **The book engine.** A doubly linked list over a slab refines a duplicate-free
   sequence; a price level keeps a running aggregate; a book of levels with an oid index
   matches crossing orders in price-time order and keeps its representation invariant over
   every run; snapshots round-trip.
2. **Status/diff pairing.** The state machine that lets an order rest once its status and
   its New diff have met is confluent: any interleaving of the two streams leaves the same
   orders resting with the same sizes. Replaying events a snapshot already contains is
   harmless.
3. **Stream merge, snapshot install and loss bookkeeping.** The merge conserves both
   streams and bounds their disorder over every run, and each call of it takes in block order; the phased
   install equals one single-lock replay for every schedule, and hands over the orders of the
   node's own book also when the dump is newer than its cut; a loss is never forgotten before an install
   covers it.
4. **L2 views.** One-pass bucketing equals grouping the whole side and truncating; the
   incremental cache equals recomputation; a client of the diff channel holds the top of
   the live book, described level by level from the book alone, across lag, re-subscription and installs.
5. **Byte readers.** Lines are reassembled independently of the chunks, the backfill cut is
   exact, and the MessagePack cursor reads exactly the values encoded. Fills pair into
   trades independently of their batches.

Check everything with `dafny verify dfyconfig.toml`.

## Layout

| file | what it holds |
|---|---|
| Types.dfy | shared vocabulary, saturating arithmetic |
| SlabList.dfy | linked list over a slab |
| Levels.dfy | one price level: queue, aggregate, fills |
| BookCore.dfy | a book as a value: matching, resting, cancelling, invariants over runs |
| Engine.dfy | the book on the heap: level objects over linked lists with disjoint footprints, and the loops over them |
| RestingMap.dfy, MultiBook.dfy | what rests under an oid, in one book and per coin |
| Adding.dfy | what an add does that crosses: who trades, what rests, and where |
| Snapshots.dfy, Readout.dfy | reading a book out, price bands, rebuilding |
| Pairing.dfy, StateMachine.dfy | the pairing state machine as functions and as an object |
| Waiting.dfy | stamps, ages and losses of waiting halves, zeroed orders, heights, reported coins |
| Confluence.dfy, OverReplay.dfy | interleavings and repeated events |
| Merge.dfy, MergeOrder.dfy | the two-stream merge: conservation and bounded disorder, and block order |
| Clockless.dfy, Install.dfy, Handoff.dfy | installs and what they hand over |
| Marks.dfy, Losses.dfy | what marks a book, and that no loss is forgotten |
| Buckets.dfy, L2Levels.dfy, L2View.dfy, L2Diff.dfy, L2Feed.dfy | the L2 path |
| Lines.dfy, NodeLines.dfy, Backfill.dfy | line reassembly, the node's lines, and the start of a stream |
| Utf8.dfy, MsgPack.dfy, StateHeight.dfy, Cursor.dfy | MessagePack and the persisted height |
| Trades.dfy | trade pairing |

Functions over values specify; classes and methods with loops follow the source's own
updates and are proved against those functions; lemmas state what the source promises.

## Findings

Properties that do not hold of the code as it stands, each with the condition under which they do:

- A level's aggregate is its queue's sum while that sum fits 64 bits; past that, one removal
  makes it drift (`Levels.SaturatedRemoveDrifts`, an if-and-only-if; `Levels.HalfRangeOrdersDrift` is an instance).
- A status and a New diff of one order commute exactly when the status is that of an open order
  that is neither a trigger nor immediate-or-cancel, or of a trigger that has fired: a waiting New pairs with any status (`Confluence.PairCommutesIff`,
  `Confluence.AnyStatusPairsWithAWaitingNew`).
- A batch that fails half way can have changed books it does not report. It reports everything
  if and only if no step is rejected or nothing had changed before the first rejected one
  (`Pairing.ReportsAllIff`), which is sure when all its events parse
  (`Pairing.ParsedBatchReportsAll`); an instance is `Confluence.FailedBatchHidesItsChange`.
- After the replay cache has overflowed, batches that arrive before the install commits are in
  no cache, and nothing marks them (`Losses.DropIsNotMarked`). The comment at
  `replay_cache_status` says a dead cache keeps the book marked; it does so exactly when a
  replay failed or the overflow's mark lies above what the install covers
  (`Install.DeadCommitIs`). Otherwise the flag goes down, and batches above what the install
  covers are in no book (`Losses.DeadCacheCanForget`; the exact condition over all runs is
  `Losses.LossIsForgottenIff`). This is about the listener's calls in any order. The main loop
  takes no book batch from a fetch to its install (mod.rs:1959, 2036, 2073, 2141), so today no
  batch for replay arrives in that window.
- A loss marked before any height was observed can be forgotten: its unbounded mark is
  downgraded without the margin. Marks made once a height is known are safe
  (`Losses.NoLossIsForgotten`), and from every listener that knows none a loss can be forgotten
  (`Losses.UnobservedLossCanBeForgotten`).
- Backfill silently skips older files when the newest file's head cannot be read, files that
  do not open, and whatever stands behind a non-UTF-8 line in an older file
  (`Backfill.UnreadableHeadHidesOlderFiles`, `Backfill.EmptyNewestHidesADueRecord`,
  `Backfill.DamageHidesLaterRecords`; exact
  condition in `Backfill.DeliveredIffNothingMissed`). The comment at the backfill promises
  that no line is skipped; the code is followed.

## Model

| member | source | states |
|---|---|---|
| `SlabList.OrderIsDetermined` | server/src/order_book/linked_list.rs:20-35 | the links admit only one order of slots from head to tail, so the abstract sequence is well defined |
| `SlabList.NoRepeats` | server/src/order_book/linked_list.rs:20-35 | the sequence a well-linked list stands for holds no key twice |
| `SlabList.AppendedWalk` | server/src/order_book/linked_list.rs:37-59 | writing a new tail node and its links yields a well-linked list that walks as the old one with the pair appended |
| `SlabList.RemovedWalk` | server/src/order_book/linked_list.rs:124-147 | unlinking a node from its neighbours yields a well-linked list that walks as the old one without that key |
| `SlabList.LinkedList.constructor` | server/src/order_book/linked_list.rs:33-35 | a new list is well linked and empty |
| `SlabList.LinkedList.PushBack` | server/src/order_book/linked_list.rs:37-59 | appends the pair and keeps the links, or refuses a key that is present and changes nothing |
| `SlabList.LinkedList.InsertBefore` | server/src/order_book/linked_list.rs:64-83 | puts the pair right before the anchor, or refuses when the anchor is absent or the key present |
| `SlabList.LinkedList.RemoveFront` | server/src/order_book/linked_list.rs:98-122 | drops the first pair; fails only on an empty list |
| `SlabList.LinkedList.RemoveNode` | server/src/order_book/linked_list.rs:124-147 | drops exactly the keyed pair and returns its value; an absent key changes nothing |
| `SlabList.LinkedList.SetNodeValue` | server/src/order_book/linked_list.rs:153-156 | changes one value in place and nothing else of the sequence |
| `SlabList.LinkedList.ToVec` | server/src/order_book/linked_list.rs:158-169 | walking the links returns the abstract sequence |
| `SlabList.LinkedList.Compact` | server/src/order_book/linked_list.rs:211-231 | rebuilding the slab leaves the sequence unchanged |
| `Levels.PushKeepsExact` | server/src/order_book/price_level.rs:27-35 | the aggregate stays the queue's sum exactly when the new sum fits 64 bits |
| `Levels.InsertKeepsExact` | server/src/order_book/price_level.rs:40-48 | the same for an insertion in the middle |
| `Levels.RemoveKeepsExact` | server/src/order_book/price_level.rs:56-63 | removing keeps an exact aggregate exact |
| `Levels.ModifyKeepsExact` | server/src/order_book/price_level.rs:67-77 | a size change keeps the aggregate exact exactly when the new sum fits 64 bits |
| `Levels.SaturatedRemoveDrifts` | server/src/order_book/price_level.rs:56-63 | on a saturated aggregate a removal keeps the saturated sum if and only if the sum fitted |
| `Levels.HalfRangeOrdersDrift` | server/src/order_book/price_level.rs:27-63 | two orders of half the range pushed and one removed leave an aggregate one short of the remaining order |
| `Levels.FillIsPriceTime` | server/src/order_book/price_level.rs:87-107 | filling a queue consumes a prefix completely, at most the next order partly, and touches nothing behind it |
| `Levels.FillConserves` | server/src/order_book/price_level.rs:87-107 | the taker's loss is the makers' loss, and a taker left with size has emptied the queue |
| `Levels.MatchKeepsExact` | server/src/order_book/price_level.rs:87-107 | matching keeps an exact aggregate exact |
| `Levels.PriceLevel.PushBackOrder` | server/src/order_book/price_level.rs:27-35 | the level's queue and aggregate become those of the specification; a present oid is refused |
| `Levels.PriceLevel.InsertOrderBefore` | server/src/order_book/price_level.rs:40-48 | likewise for an insertion before an anchor |
| `Levels.PriceLevel.RemoveOrder` | server/src/order_book/price_level.rs:56-63 | likewise for a removal, returning the removed order |
| `Levels.PriceLevel.ModifyOrderSz` | server/src/order_book/price_level.rs:67-77 | likewise for a size change in place |
| `Levels.PriceLevel.FillHead` | server/src/order_book/price_level.rs:87-107 | one round of the fill loop: the traded size leaves the head and the aggregate, and a filled head leaves the queue |
| `Levels.PriceLevel.MatchAgainst` | server/src/order_book/price_level.rs:87-107 | the loop over the queue head computes the specified fill, remainder and filled oids |
| `Levels.PriceLevel.CompactLevel` | server/src/order_book/price_level.rs:128-132 | compaction leaves the level unchanged |
| `BookCore.SortedIsUnique` | server/src/order_book/mod.rs:288-317 | a set of prices has one best-first order |
| `BookCore.CancelKeepsInv` | server/src/order_book/mod.rs:144-159 | cancelling keeps index and queues in agreement, no level empty, all sizes positive, the book uncrossed |
| `BookCore.ModifyKeepsInv` | server/src/order_book/mod.rs:161-176 | so does a size change, to zero included |
| `BookCore.MatchKeepsInv` | server/src/order_book/mod.rs:288-317 | so does matching; while the taker has size left no crossing maker remains and its own side is untouched |
| `BookCore.AddKeepsInv` | server/src/order_book/mod.rs:109-142 | so does adding any order, crossing or not |
| `BookCore.RunKeepsInv` | server/src/order_book/mod.rs:99-202 | the representation invariant holds after every sequence of adds, cancels, size changes and compactions |
| `BookCore.RunKeepsAllExact` | server/src/order_book/price_level.rs:27-132 | over every such run each level's aggregate is its queue's sum while the sums fit 64 bits |
| `BookCore.BboIsTheTouch` | server/src/order_book/mod.rs:182-189 | the quote of a side is its best price with that level's size and count, and the bid is below the ask |
| `BookCore.SideIsQuoted` | server/src/order_book/mod.rs:182-189 | a side is quoted if and only if it has an order |
| `BookCore.MatchIsOneQueue` | server/src/order_book/mod.rs:288-317 | matching level by level equals filling one long queue of the crossing makers in price-then-time order |
| `BookCore.MatchIsPriceTime` | server/src/order_book/mod.rs:129-142 | filled makers are a prefix of that queue with at most the next partly filled, size is conserved, and nothing else in the book changes |
| `Engine.DeferredRemoval` | server/src/order_book/mod.rs:288-317 | removing emptied levels after the loop equals removing each as it empties |
| `Engine.MatchOrder` | server/src/order_book/mod.rs:288-317 | the nested loop over level objects, each filled in place, leaves a side that stands for the specified match, with the emptied levels gone |
| `Engine.AddOrderToBook` | server/src/order_book/mod.rs:261-286 | resting at the anchor, else at the back, on an existing level object or a new one that shares nothing with the others, and reporting the fallback |
| `Engine.OrderBook.AddOrderBefore` | server/src/order_book/mod.rs:109-142 | on a heap of level objects over linked lists with disjoint footprints, the book stands for the specified one after an add; a known oid is ignored |
| `Engine.OrderBook.CancelOrder` | server/src/order_book/mod.rs:144-159 | the same for a cancel, reporting whether the oid was queued, with an emptied level removed |
| `Engine.OrderBook.ModifyOrderSz` | server/src/order_book/mod.rs:161-176 | the same for a size change in place; zero cancels |
| `Engine.WalkGoesOn` | server/src/order_book/mod.rs:297-312 | one turn of the walk over the maker levels keeps the outcome of the whole match |
| `RestingMap.RestsIffIndexed` | server/src/order_book/mod.rs:88-97 | an oid rests if and only if the index knows it, with its own side and price |
| `RestingMap.AddRests` | server/src/order_book/mod.rs:109-142 | adding an order that crosses nothing adds exactly it to the resting map, unless already there or without size |
| `Adding.AddTradesThenRests` | server/src/order_book/mod.rs:129-142 | adding any new order, crossing or not: the resting orders its limit reaches lose size from the front in price-time order, each what the taker still has when its turn comes; the taker rests if and only if they could not fill it, with what is left; no other oid changes; and taker and makers lose the same |
| `Adding.AddPlacesTheRemainder` | server/src/order_book/mod.rs:261-286 | the remainder stands right in front of its anchor when that is queued at its price, and else at the back; the other levels of its side do not change; the fallback is reported if and only if the remainder rests without the anchor it named |
| `Adding.CrossingLevelsAreMakers` | server/src/order_book/mod.rs:288-317 | the crossing levels read best first are exactly the resting orders within the limit, best price first and oldest first at a price |
| `Adding.KnownOidIsRefused` | server/src/order_book/mod.rs:109-127 | an order whose oid rests changes nothing |
| `RestingMap.CancelRests` | server/src/order_book/mod.rs:144-159 | cancelling removes exactly that oid from the resting map |
| `RestingMap.ModifyRests` | server/src/order_book/mod.rs:161-176 | a size change changes exactly that oid's size, and zero removes it |
| `MultiBook.AddToRests` | server/src/order_book/multi_book.rs:67-70 | adding through the per-coin map affects exactly that coin and oid |
| `MultiBook.CancelInRests` | server/src/order_book/multi_book.rs:72-91 | so does cancelling, although an emptied book is evicted |
| `MultiBook.ModifyInRests` | server/src/order_book/multi_book.rs:94-103 | so does a size change |
| `MultiBook.EmptiedBookLeaves` | server/src/order_book/multi_book.rs:72-103 | a coin stays in the map after a cancel or a size change if and only if something still rests in its book |
| `MultiBook.CompactAllRests` | server/src/order_book/multi_book.rs:128-132 | compaction and eviction of empty books change nothing that rests |
| `Snapshots.BandIsAFilter` | server/src/order_book/mod.rs:228-240 | a banded snapshot is the whole snapshot filtered by price, order kept; an inverted band is empty |
| `Readout.SnapshotListsOrders` | server/src/order_book/mod.rs:220-240 | a snapshot lists as bids exactly the resting bids inside the bounds, both bounds included, best price first and oldest first at a price, and likewise the asks |
| `Readout.CancelTakesOut` | server/src/order_book/mod.rs:144-159 | a cancelled order leaves its queue, the others in it stand as they did, and no other queue changes |
| `Readout.ModifyKeepsPlace` | server/src/order_book/mod.rs:161-176 | a resized order keeps its place in its queue, and no other queue changes |
| `Snapshots.PopTriggers` | server/src/order_book/mod.rs:63-85 | the loop pops exactly the tail orders present on both sides, up to the first single-sided one |
| `Snapshots.QueuesDetermineBook` | server/src/order_book/mod.rs:242-253 | two well-formed books with the same queues are the same book, index and aggregates included |
| `Snapshots.SnapshotRoundTrip` | server/src/order_book/mod.rs:220-253 | a book read out and rebuilt is the same book, with trigger stripping off or on, and also from a dump with trigger orders appended to both tails |
| `Pairing.AppliesIffNotRejected` | server/src/listeners/order_book/state.rs:486-617 | a step applies if and only if it is not a heard diff that does not parse nor a pair whose status does not |
| `Pairing.BatchAppliesIffAccepted` | server/src/listeners/order_book/state.rs:432-619 | a batch applies if and only if none of its steps is rejected where it comes |
| `Pairing.ReportsAllIff` | server/src/listeners/order_book/state.rs:432-619 | a batch reports every book it changed if and only if no step is rejected, or no step before the first rejected one changed a book |
| `Pairing.ParsedBatchReportsAll` | server/src/listeners/order_book/state.rs:432-619 | a batch of events that parse, on a state whose waiting statuses parse, applies and reports every book it changed |
| `StateMachine.LifeKeepsCachesDisjoint` | server/src/listeners/order_book/state.rs:290-619 | over any sequence of batches, failing ones included, and maintenance passes, no oid ever waits in both pending caches |
| `Waiting.WaitingNewIsStamped` | server/src/listeners/order_book/state.rs:557-617 | a New that waits after a batch waited before it, or carries the time, anchor and owner it arrived with |
| `Waiting.WaitingStatusIsStamped` | server/src/listeners/order_book/state.rs:486-507 | a status that waits after a batch waited before it, or arrived in the batch at the time it is stamped with |
| `Waiting.MaintenanceIs` | server/src/listeners/order_book/state.rs:290-408 | a half is kept only while younger than 60 seconds, and always then unless 200 000 others are kept that are no older; a loss is reported if and only if a New goes that was young or not placed by the protocol, or a young status goes |
| `Waiting.MaintenanceKeepsBooks` | server/src/listeners/order_book/state.rs:290-408 | the pass changes nothing that rests, and a coin keeps its book if and only if something rests in it |
| `Waiting.BatchForgetsZeroings` | server/src/listeners/order_book/state.rs:541-549 | a diff batch begins by forgetting zeroings from the front up to the first one that is not more than 64 blocks old, and no others; a status batch forgets none |
| `Waiting.ZeroedRemoveIsAbsorbed` | server/src/listeners/order_book/state.rs:589-617 | the Remove of an order that an Update took to zero at most 64 blocks earlier drops no waiting half and changes nothing that rests |
| `Waiting.BatchMovesClock` | server/src/listeners/order_book/state.rs:437-442 | a batch moves the state to its height and time unless the state is past that height, whether or not it applies |
| `Waiting.ReportedIsNamed` | server/src/listeners/order_book/state.rs:432-619 | a reported coin is named by an event of the batch or by a status that waited |
| `Waiting.RejectedStepIs` | server/src/listeners/order_book/state.rs:509-534 | a rejected step changes nothing except that the half that had been waiting is gone |
| `Waiting.PairTakesItsPlace` | server/src/listeners/order_book/state.rs:487-505 | whichever half came first, the order stands right in front of its anchor when that is queued and else at the back, the books are the same, and a missed anchor is counted once |
| `StateMachine.OrderBookState.ApplyOneStatus` | server/src/listeners/order_book/state.rs:486-507 | one status pairs with a waiting New, or waits if it goes into the book, exactly as specified |
| `StateMachine.OrderBookState.ApplyOneDiff` | server/src/listeners/order_book/state.rs:557-617 | one diff of any kind changes books, caches and the record of zeroings exactly as specified |
| `StateMachine.OrderBookState.ApplyDiffToPendingNew` | server/src/listeners/order_book/state.rs:626-650 | an Update or Remove that overtook the status changes the waiting New and nothing else |
| `StateMachine.OrderBookState.ApplyOrderStatuses` | server/src/listeners/order_book/state.rs:432-508 | the loop over a status batch is the specified run, stopping at the first error without reporting coins |
| `StateMachine.OrderBookState.ApplyOrderDiffs` | server/src/listeners/order_book/state.rs:537-619 | the same for a diff batch, after forgetting old zeroings |
| `StateMachine.EvictOldest` | server/src/listeners/order_book/state.rs:370-400 | keeps at most the cap and drops only entries no younger than every kept one |
| `StateMachine.OrderBookState.CleanupStalePending` | server/src/listeners/order_book/state.rs:290-408 | leaves each cache within its cap, oldest dropped first, and reports a loss if and only if a non-protocol New aged out or a cap was overrun |
| `Confluence.RestingIsExpected` | server/src/listeners/order_book/state.rs:432-671 | for every interleaving, an oid rests with the size plain replay of the diffs gives if and only if live and its status was delivered, and its New waits at that size if and only if live without status |
| `Confluence.PairingIsConfluent` | server/src/listeners/order_book/state.rs:589-625 | two interleavings of the same two streams leave the same orders resting |
| `Confluence.AnyStatusPairsWithAWaitingNew` | server/src/listeners/order_book/state.rs:487-505 | a concrete pair of events that ends differently in the two orders of arrival |
| `Confluence.PairCommutesIff` | server/src/listeners/order_book/state.rs:487-505 | a status and a New of one placeable order commute if and only if the status is that of an open order that is neither a trigger nor immediate-or-cancel, or that of a trigger that has fired |
| `Confluence.OpenOrderRests` | server/src/types/node_data.rs:54-59 | an open order that is neither a trigger nor immediate-or-cancel rests once its New is there too, whichever came first, and nothing is left waiting |
| `Confluence.FiredTriggerRests` | server/src/types/node_data.rs:54-59 | so does a trigger that has fired |
| `Confluence.OtherStatusIsDropped` | server/src/listeners/order_book/state.rs:503-507 | with no New waiting, any other status changes nothing: an open immediate-or-cancel order, a trigger that has not fired, and every other kind |
| `Confluence.FailedBatchHidesItsChange` | server/src/listeners/order_book/mod.rs:1229-1242 | an instance: a diff that rests an order, followed by one that does not parse, changes a book and reports no coin |
| `OverReplay.ReplayIsIdempotent` | server/src/listeners/order_book/mod.rs:88-98 | applying a legal history of an order to its own outcome changes nothing, also across removal and re-placement |
| `OverReplay.RunPerformsOps` | server/src/order_book/mod.rs:109-176 | fed in block order, the pairing machine performs exactly the node's operations on every order |
| `OverReplay.OverReplayIsHarmless` | server/src/listeners/order_book/mod.rs:88-98 | events a dump already contains, applied again before the later ones, leave every order as the later events alone would |
| `Merge.MergeConserves` | server/src/listeners/order_book/mod.rs:1711-1867 | over every run with cancelled waits and timeouts, handed out, ready, peeked and on the channel are together the parsed input above the floor, per stream and in order |
| `Merge.DisorderIsBounded` | server/src/listeners/order_book/mod.rs:1782-1793 | with non-decreasing streams, after a batch taken while the other stream had a head or was live and seen, no later batch of the other stream is more than 32 blocks below it |
| `Merge.StreamOrderIsKept` | server/src/listeners/order_book/mod.rs:1798-1820 | what is handed out of one stream is a prefix of that stream above the floor |
| `Merge.TakeRunKeepsInv` | server/src/listeners/order_book/mod.rs:1798-1820 | a whole call of take keeps the invariant behind both theorems |
| `Merge.LiveMerge.RefillStream` | server/src/listeners/order_book/mod.rs:1768-1777 | the read-ahead loop is the specified refill |
| `Merge.LiveMerge.PickStream` | server/src/listeners/order_book/mod.rs:1782-1793 | the decision is the specified one |
| `Merge.LiveMerge.TakeBatches` | server/src/listeners/order_book/mod.rs:1798-1820 | the loop of take is the specified run up to its return or its wait |
| `Merge.AcceptKeepsContent` | server/src/listeners/order_book/mod.rs:1755-1764 | accepting a line moves it from the channel to the head, or drops it if malformed or at or below the floor, so what the stream still has to deliver above the floor is unchanged |
| `MergeOrder.PickIs` | server/src/listeners/order_book/mod.rs:1782-1793 | of two heads the lower block is picked, the status on a tie; nothing is picked if and only if there is no head, or a lone one lies more than 32 blocks past a live stream that was taken from |
| `MergeOrder.TakeMerges` | server/src/listeners/order_book/mod.rs:1798-1820 | every call of take, from any state, takes batch by batch the one that may go by what both streams still have to deliver, and stops only at 64 batches, at a closed and drained stream, or when nothing may go |
| `MergeOrder.TakeIsInBlockOrder` | server/src/listeners/order_book/mod.rs:1698-1701 | over every run of non-decreasing streams, what one call takes is in block order, statuses before the diffs of their block, and comes before everything both streams had sent and the call leaves |
| `MergeOrder.WaitCanEnd` | server/src/listeners/order_book/mod.rs:1822-1867 | a call that waits leaves a stream without a head, and any such stream can end the wait |
| `MergeOrder.TimeoutLetsGo` | server/src/listeners/order_book/mod.rs:1843-1867 | when the wait for the other stream times out, the lone head is the one picked next |
| `Clockless.ClockDoesNotMatter` | server/src/listeners/order_book/state.rs:432-671 | the same events at other times reach the same state except for the stamps of waiting halves |
| `Install.CacheIsAlwaysCounted` | server/src/listeners/order_book/mod.rs:494-605 | whatever is called on a listener and in whatever order, its counter is the number of events cached and within the cap |
| `Install.PhasedInstallIsOneReplay` | server/src/listeners/order_book/mod.rs:198-327 | for every schedule of live batches, losses and chase rounds that leaves the cache alive, the commit gives the listener one replay of everything cached would give, stamps aside |
| `Install.InstallIsOneReplay` | server/src/listeners/order_book/mod.rs:198-305 | a whole install leaves the listener of one single-lock install; or gives up, commits what had been replayed and marks the book; or finds its cache dead, commits what had been replayed and keeps the flag up if and only if a replay failed or the mark is above what it covers |
| `Handoff.CommittedBookIs` | server/src/listeners/order_book/mod.rs:310-319 | for every schedule that leaves the cache alive, the committed book is the snapshot with the cached batches above its height applied in order, stamps and the fallback count aside; and exactly when the flag stays up |
| `Handoff.InstalledBookIs` | server/src/listeners/order_book/mod.rs:198-305 | the same of the whole install: the batches are those cached before it and those that arrived in its windows up to the commit |
| `Handoff.GappedBookIs` | server/src/listeners/order_book/mod.rs:284-302 | an install that gives up commits the snapshot with everything it had replayed; only what was still cached is missing |
| `Handoff.ChaseIsBounded` | server/src/listeners/order_book/mod.rs:198-305 | the chase takes at most the given number of rounds and stops early only with a dead cache or a small enough residue |
| `Handoff.ReplayIsAbove` | server/src/listeners/order_book/mod.rs:310-319 | a replay applies exactly the batches above its height, in order, going on past one that fails, and has failed if and only if one of them was rejected |
| `Handoff.StepsOfIs` | server/src/listeners/order_book/state.rs:432-619 | a batch notes its height and time and then brings its events one by one and in order |
| `Handoff.LiveBookGoesOn` | server/src/listeners/order_book/mod.rs:1098-1290 | the live book follows every batch that arrives, in order, the ones over 100 000 events excepted |
| `Handoff.InstallIsSeamless` | server/src/listeners/order_book/mod.rs:88-98 | with a dump of the node's book at the height of the cut or any later one, and whatever the schedule, the committed book holds exactly the orders that the node's book at the cut holds after every cached batch |
| `Install.DeadCommitIs` | server/src/listeners/order_book/mod.rs:624-678 | for every listener with a dead cache: the book committed, and exactly when the flag stays up |
| `Install.GapIsMarked` | server/src/listeners/order_book/mod.rs:284-302 | giving up always leaves the book marked, with a bound of at least the observed height and its margin |
| `Marks.BatchMarksIff` | server/src/listeners/order_book/mod.rs:1098-1290 | a batch raises the flag if and only if drift is not tolerated and it has over 100 000 events, overfills the cache, is rejected by the live book, or comes with a maintenance pass that lost something; the mark then reaches 100 blocks past everything seen, and otherwise nothing changes |
| `Marks.BatchIsCached` | server/src/listeners/order_book/mod.rs:1032-1053 | a batch that is neither oversize nor fills is appended to a living cache, which is dropped if and only if it does not fit |
| `Marks.BatchIsTidied` | server/src/listeners/order_book/mod.rs:1255-1290 | the outcome of the maintenance pass that comes with a batch is what the live book holds after it |
| `Marks.CommitLeavesMarks` | server/src/listeners/order_book/mod.rs:624-678 | after a commit the flag, urgency and mark are clear, those of a fresh failure, or those of a recorded loss above what the install covers, an unbounded one being brought down to the height seen |
| `Install.OrderBookListener.ApplyBatch` | server/src/listeners/order_book/mod.rs:1098-1290 | height, cache, live book and marks after a live batch are the specified ones |
| `Install.OrderBookListener.ApplyCounted` | server/src/listeners/order_book/mod.rs:1255-1290 | the same with the maintenance pass of every thousandth batch, whose loss report marks the book |
| `Install.OrderBookListener.PushToReplayCache` | server/src/listeners/order_book/mod.rs:1032-1053 | the batch is appended and counted, or the cache is dropped and the book marked |
| `Install.OrderBookListener.CommitInstall` | server/src/listeners/order_book/mod.rs:624-678 | the commit replays the residue, does the loss bookkeeping and swaps the book as specified |
| `Install.OrderBookListener.InstallSnapshot` | server/src/listeners/order_book/mod.rs:198-305 | the chase loop with anything happening between its lock holds is the specified install |
| `Install.OrderBookListener.Mark` | server/src/listeners/order_book/mod.rs:508-535 | the mark and its bound are the specified ones |
| `Losses.BatchRaisesHeight` | server/src/listeners/order_book/state.rs:437-442 | a batch raises the book to its height whether or not it applies |
| `Losses.RunKeepsWatchInv` | server/src/listeners/order_book/mod.rs:508-678 | over every legal run, losses keep the flag up and lie within the mark or below the highest batch dropped past a dead cache, and a cache is dead before a book comes only with the flag up |
| `Losses.NoLossIsForgotten` | server/src/listeners/order_book/mod.rs:508-678 | over every legal run, whatever heads the fetches start with, the flag is down only when every past loss was covered by a later install: oversize batches, overflows, batches that arrive past a dead cache, failed batches and replays, halves lost by maintenance and given-up installs |
| `Losses.DropIsNotMarked` | server/src/listeners/order_book/mod.rs:1059-1075 | a batch that arrives past a dead cache changes neither the flag nor the mark |
| `Losses.LossIsForgottenIff` | server/src/listeners/order_book/mod.rs:637-678 | after every legal run, an install whose replay does not fail forgets a loss if and only if what it covers reaches the mark but not the highest batch dropped past a dead cache |
| `Losses.DeadCacheCanForget` | server/src/listeners/order_book/mod.rs:589-594 | a legal run of an overflow and a later batch, after which a covering install leaves the flag down with that batch in no book |
| `Losses.UnobservedLossCanBeForgotten` | server/src/listeners/order_book/mod.rs:529-535 | from any listener that has observed no height, a loss above height 1 is forgotten by a continuation that is legal throughout |
| `Buckets.BucketIsDecidedByPrice` | server/src/order_book/levels.rs:7-18 | comparing a later price with the current bucket's price decides membership, also where the digit count changes, and other buckets lie strictly beyond |
| `Buckets.BucketFits` | server/src/order_book/levels.rs:7-18 | no bucket computation leaves 64 bits for prices up to 18e18 |
| `Buckets.BucketIsRounding` | server/src/order_book/levels.rs:7-18 | the bucket of a price is the only multiple of mantissa times ten to the digits past the significant ones that lies less than one width above an ask, or below a bid |
| `Buckets.ShapesAre` | server/src/types/subscription.rs:57-90 | the shapes a subscription can ask for are these seven |
| `L2Levels.BuildL2Level` | server/src/order_book/levels.rs:121-146 | one step joins the level to the current bucket, or closes it and opens the next unless the cap is reached |
| `L2Levels.MapToL2Levels` | server/src/order_book/levels.rs:86-119 | the one-pass builder returns the first buckets of the whole side grouped by bucket |
| `L2Levels.GroupsAreSorted` | server/src/order_book/levels.rs:86-119 | bucket prices are distinct and strictly monotone |
| `L2Levels.GroupsConserve` | server/src/order_book/levels.rs:86-119 | order counts add up over the buckets, and sizes do while they fit 64 bits |
| `L2Levels.L2SideIsSorted` | server/src/order_book/levels.rs:22-33 | both sides of an L2 snapshot of a well-formed book are strictly sorted |
| `L2View.SnapshotIsTop` | server/src/order_book/levels.rs:22-33 | a snapshot shows the top of the bids as bids and the top of the asks as asks: each entry sums exactly the levels that round to its price, entries run outwards, and a level is in an entry unless the view is full and the level lies beyond it |
| `L2View.TopIsDetermined` | server/src/order_book/levels.rs:86-119 | that description admits one view only |
| `L2View.RawEntryIsLevel` | server/src/order_book/levels.rs:103-113 | without rounding an entry is one level: its price, its aggregate and the length of its queue |
| `L2Diff.ComputeBetween` | server/src/types/mod.rs:92-107 | the fill-and-drain loops compute the specified diff |
| `L2Diff.DiffRebuilds` | server/src/types/mod.rs:92-107 | applying the diff of two sides to the old ladder gives the new one, whatever the sides |
| `L2Diff.BetweenIsMinimal` | server/src/types/mod.rs:92-111 | a diff names exactly the new levels the old side does not have as they are and exactly the prices that are gone, and is empty if and only if the sides are equal |
| `L2Diff.LadderDeterminesSide` | server/src/types/mod.rs:92-107 | a ladder sorted by price is the side it was made from |
| `L2Diff.DeliverKeepsSync` | server/src/servers/websocket_server.rs:1130-1227 | after a flush that carries the coin and shape the client shows exactly its top levels, and an update's previous height is that of the last frame the client applied |
| `L2Diff.ConnFollowsDeliver` | server/src/servers/websocket_server.rs:505-528 | each subscription of a connection is served, and its client fed, as if it were alone |
| `L2Diff.Connection.OnSubscribe` | server/src/types/subscription.rs:168-178 | the connection gains the subscription, or has it already and does not change |
| `L2Diff.Connection.OnUnsubscribe` | server/src/servers/websocket_server.rs:787-800 | the subscription goes and its served height with it |
| `L2Diff.Connection.OnFlush` | server/src/servers/websocket_server.rs:505-528 | the loop sends exactly the frames owed, records their height, and makes lag good |
| `L2Diff.LagIsMadeGood` | server/src/servers/websocket_server.rs:611-618 | after a lag the next flush carries the whole view, and the client then shows exactly it, whatever was missed |
| `L2Diff.FrameIs` | server/src/servers/websocket_server.rs:1130-1227 | new or lagging, a subscription gets the whole view; otherwise nothing while its coin was not rebuilt, the whole view of a coin that was not there before, and else an update if and only if what it sees has changed |
| `L2Feed.BackfillIsCapped` | server/src/listeners/order_book/utils.rs:447-456 | a missing coin is backfilled unless exactly the cap of others was |
| `L2Feed.FlushBackfills` | server/src/listeners/order_book/utils.rs:447-456 | a flush adds at most 32 coins that no batch has changed, and fewer only when every coin is cached |
| `L2Feed.ComputeIncremental` | server/src/listeners/order_book/utils.rs:427-488 | cache, rebuilt coins and the coin-set flag after an incremental rebuild; the flag is raised if and only if the cached coins changed |
| `L2Feed.ApplyKeepsFeedInv` | server/src/listeners/order_book/mod.rs:1344 | applying a batch that reports what it changes keeps every clean cached coin equal to a fresh build |
| `L2Feed.FlushRefreshes` | server/src/listeners/order_book/mod.rs:1357-1441 | after a flush nothing is dirty, every cached coin is a fresh build for the active shapes, and every dirty coin present is cached |
| `L2Feed.FlushShowsTheBook` | server/src/listeners/order_book/mod.rs:1357-1441 | and for every active shape and the raw one the cache holds the first 1000 entries of each side of the live book |
| `L2Feed.FlushFollows` | server/src/listeners/order_book/mod.rs:1390-1425 | consecutive broadcasts are linked as the diff channel needs them |
| `L2Feed.RunKeepsSysInv` | server/src/listeners/order_book/mod.rs:1357-1441 | cache freshness, and sync of every subscription of a connection with its client, hold over every run of batches, compactions, installs, flushes, lags, subscriptions and unsubscriptions |
| `L2Feed.UpdatesChain` | server/src/servers/websocket_server.rs:1130-1227 | after any run, a frame a flush sends carries the height of the live book, an update names the height of the last frame its client applied, and a client whose coin and shape are in the flush then shows the top of each side of the live book at its depth |
| `L2Feed.ClientHoldsTheBook` | server/src/servers/websocket_server.rs:1130-1227 | end to end, after any run from a fresh server and connection, every served client that missed nothing holds, for a cached coin unchanged since the last flush, the first entries of each side of the live book up to its depth and 1000 |
| `Lines.SplitIsExact` | server/src/listeners/order_book/parallel.rs:417-444 | lines and tail are the text again, each line ends in its only newline, and the tail has none |
| `Lines.SplitExtends` | server/src/listeners/order_book/parallel.rs:394-396 | reading on from the carried-over tail is reading the whole |
| `Lines.ReassemblyIsChunkIndependent` | server/src/listeners/order_book/parallel.rs:347-481 | with no line over the cap the emitted lines are the records of the whole content however it was cut, and a desync is flagged if and only if a terminated line is corrupt |
| `Lines.QuietReaderMissesNothing` | server/src/listeners/order_book/parallel.rs:446-458 | for any content and chunks, a reader that flags nothing has emitted every record |
| `Lines.FlaggedIff` | server/src/listeners/order_book/parallel.rs:417-458 | for any content and chunks a desync is flagged if and only if a terminated line is corrupt or a read left an unfinished line over 16 MiB; without such a line the records are emitted exactly, and never more than 16 MiB is carried over |
| `Lines.FileReader.OnModify` | server/src/listeners/order_book/parallel.rs:347-481 | one read emits, flags and carries over as specified, and moves the position by what it read |
| `NodeLines.TrimEndIsExact` | server/src/listeners/order_book/parallel.rs:427 | trimming takes off white space and nothing else, and leaves none at the end |
| `NodeLines.RecordIsReadBack` | server/src/listeners/order_book/parallel.rs:417-444 | a UTF-8 record in braces is read back from its line with either line ending |
| `NodeLines.JudgedRecordIs` | server/src/listeners/order_book/parallel.rs:431-439 | whatever is taken for a record is in braces and lost only white space |
| `NodeLines.JudgeIs` | server/src/listeners/order_book/parallel.rs:417-444 | every line is judged: not UTF-8; blank if and only if white space through and through; a record if and only if braces with nothing but white space behind them; malformed otherwise |
| `NodeLines.SpaceAtEndIsWhite` | server/src/listeners/order_book/parallel.rs:427 | what is trimmed is the encoding of a white space character of Unicode |
| `NodeLines.FindIsFirst` | server/src/listeners/order_book/parallel.rs:39-40 | a field is found at its first occurrence, and not found if and only if it does not occur |
| `NodeLines.LeadingNumberIs` | server/src/listeners/order_book/parallel.rs:41-46 | what is read off any text are the digits behind its leading white space, when there are some and their number fits 64 bits |
| `NodeLines.LateHeightIsUnreadable` | server/src/listeners/order_book/parallel.rs:51-56 | a height that does not stand within the first 8 KB is not found |
| `NodeLines.BlockNumberIs` | server/src/listeners/order_book/parallel.rs:40 | the field is the text "block_number" in quotes with a colon |
| `NodeLines.HeightIsReadBack` | server/src/listeners/order_book/parallel.rs:39-47 | a height written after the first occurrence of its field is the one extracted, whatever follows |
| `NodeLines.NodeHeightIsReadBack` | server/src/listeners/order_book/parallel.rs:39-47 | the same for the node's own field and format |
| `NodeLines.NodeHeadIsReadable` | server/src/listeners/order_book/parallel.rs:51-56 | a file whose first record has its height within the first 8 KB has a readable head |
| `NodeLines.NodeFileIsDelivered` | server/src/listeners/order_book/parallel.rs:347-481 | however a file of records is cut into reads, exactly those records are delivered in order and nothing is flagged |
| `Backfill.CutIsExact` | server/src/listeners/order_book/parallel.rs:216-261 | what the newest file's backfill emits, then what live tracking reads from the cut, is everything due, whatever is appended meanwhile |
| `Backfill.CutIsLatest` | server/src/listeners/order_book/parallel.rs:216-261 | the cut is as late as it can be: at the end of what was read, or in front of a line that is not UTF-8, not terminated, or reaches past the recorded length |
| `Backfill.OlderDeliveredIff` | server/src/listeners/order_book/parallel.rs:222-267 | the older files deliver all that is due if and only if nothing due is in a file left out or that does not open, or behind a damaged line |
| `Backfill.WalkLeavesNothing` | server/src/listeners/order_book/parallel.rs:199-213 | with growing heights and readable heads the walk leaves out only files with nothing due, or flags the cut |
| `Backfill.WalkIs` | server/src/listeners/order_book/parallel.rs:199-213 | the walk goes on from a file if and only if its head is known and above the floor, reads at most four files, and is cut short if and only if it would have gone on to a fifth |
| `Backfill.KeepIs` | server/src/listeners/order_book/parallel.rs:243-248 | due are exactly the records of unknown height and those above the floor |
| `Backfill.NewestMisses` | server/src/listeners/order_book/parallel.rs:216-266 | a newest file that does not open loses what is due in front of its recorded length and nothing else |
| `Backfill.DeliveredIffNothingMissed` | server/src/listeners/order_book/parallel.rs:183-275 | backfill and quiet live reads deliver every due record once and in order if and only if nothing is missed in older files, nor in a newest file that does not open |
| `Backfill.StartIsExact` | server/src/listeners/order_book/parallel.rs:183-275 | under the stated conditions on files they do, or a desync is flagged |
| `Backfill.UnreadableHeadHidesOlderFiles` | server/src/listeners/order_book/parallel.rs:209-212 | an unreadable head of the newest file ends the walk without a flag |
| `Backfill.EmptyNewestHidesADueRecord` | server/src/listeners/order_book/parallel.rs:199-213 | an instance: with an empty newest file, a due record of the older file is never delivered and nothing is flagged |
| `Backfill.DamageHidesLaterRecords` | server/src/listeners/order_book/parallel.rs:253-256 | a due record behind a non-UTF-8 line of an older file is not emitted and nothing is flagged |
| `Backfill.BackfillAndTrack` | server/src/listeners/order_book/parallel.rs:183-275 | emitted lines, live position, tail and flag after a backfill are the specified ones, files that do not open and a channel that closes on the way included |
| `MsgPack.ParseRoundTrip` | server/src/listeners/order_book/utils.rs:299-332 | any encoded value followed by anything is read back and the cursor lands right after it |
| `MsgPack.ParseSound` | server/src/listeners/order_book/utils.rs:299-332 | whatever is read is one well-formed value and the rest is what follows it |
| `MsgPack.ParsesIffBeginsWithValue` | server/src/listeners/order_book/utils.rs:299-332 | for every byte string a value is read if and only if the bytes begin with one well-formed value |
| `MsgPack.EncodingIsPrefixFree` | server/src/listeners/order_book/utils.rs:299-332 | bytes begin with at most one value |
| `MsgPack.HeaderFollowsTable` | server/src/listeners/order_book/utils.rs:299-326 | for every first byte, the header bytes read, the payload bytes and the values inside are those of the format table, and only 0xc1 announces nothing |
| `Utf8.ValidIffEncoded` | server/src/listeners/order_book/utils.rs:276-285 | bytes count as UTF-8 if and only if they are the encoding of some sequence of Unicode scalar values |
| `MsgPack.TextIff` | server/src/listeners/order_book/utils.rs:276-285 | a string is read if and only if the value there is a UTF-8 string |
| `MsgPack.UintIff` | server/src/listeners/order_book/utils.rs:287-296 | an unsigned integer is read if and only if the value there is one |
| `StateHeight.EnterIffKeyIsThere` | server/src/listeners/order_book/utils.rs:336-344 | entering succeeds if and only if the map has the key past readable entries, and stops at the first one's value |
| `StateHeight.HeightIsTheOneEncoded` | server/src/listeners/order_book/utils.rs:189-211 | the height read is the one encoded at exchange.locus.ctx, in any bytes that lead there: with ctx complete, with its height and time in the part at hand, or cut off or damaged right after the entries that are |
| `StateHeight.HeightInIsEncoded` | server/src/listeners/order_book/utils.rs:189-211 | a reported height stands as an unsigned integer under the key of that name |
| `StateHeight.WrongKindEndsReading` | server/src/listeners/order_book/utils.rs:189-211 | a height that is no unsigned integer or a time that is no text ends the reading with what was found in the entries in front of it |
| `StateHeight.NamesAre` | server/src/listeners/order_book/utils.rs:189-211 | the path is exchange, locus, ctx, and the names are height and time |
| `Cursor.MsgPackCursor.Skip` | server/src/listeners/order_book/utils.rs:299-332 | terminates, never passes the end, succeeds if and only if a value is there, and lands right after it |
| `Cursor.MsgPackCursor.EnterKey` | server/src/listeners/order_book/utils.rs:336-344 | the loop over entries is the specified search |
| `Cursor.ReadStateHeight` | server/src/listeners/order_book/utils.rs:189-211 | the whole reader computes the specified height and time |
| `Trades.PairIffMatched` | server/src/types/mod.rs:223-246 | two legs of one trade id make a trade if and only if they are the two sides of one coin; buyer, seller and aggressor come from the right legs |
| `Trades.FillsAreConserved` | server/src/listeners/order_book/mod.rs:963-983 | fills in are twice the trades, the unpaired legs counted and the leg held |
| `Trades.BatchesDoNotMatter` | server/src/listeners/order_book/mod.rs:958-990 | however the stream is cut, each coin's trades are those of the whole stream |
| `Trades.MatchesAllBecomeTrades` | server/src/listeners/order_book/mod.rs:943-957 | when both legs of every match are neighbours every match is printed and no leg is given up |
| `Trades.TradesAreGreedy` | server/src/listeners/order_book/mod.rs:958-990 | whatever the stream and the leg held: from the front, two neighbours with one trade id are taken together and printed from the selling leg when they match, and every other leg is counted once as unpaired |
| `Trades.TradePairer.Group` | server/src/listeners/order_book/mod.rs:963-990 | the loop pairs and groups per coin as specified |

## Left out

- Runtime and I/O: tasks, sockets, HTTP routes, writer queues, heartbeats, inotify, directory scans, opening files and Docker. Channels, files and lock holds are values or moves of a run.
- JSON parsing and serialization, frame sharing, metrics and logging. A line is the batch it parses to, or malformed.
- Floating point: prices and sizes are integers, the digit count is exact instead of `log10` on `f64`, and the decimal text of a price is taken to be an injective key.
- Wall-clock time: ages are numbers, and the merge's timeout may fire at any wait.
- The untriggered-orders side table, and the fields of an order beyond coin, oid, side, price and size (trigger conversion among them).
- Queue-position confluence: anchored inserts may fall back to the back of a level, as the source accepts; only what rests is confluent.
- Hash-based suppression of repeated l2Book messages, the L4 body cache, BBO broadcasts and the L4 grouping of events.
- The live switch to a newer file and the look-back at the old one; the reader is modelled on one growing file after the backfill.
- The recursion depth of the MessagePack cursor: a deeply nested value takes no stack in the model.
- The free list of the slab: a new node may take any free slot.
- MultiBook.AddToRests: the per-coin map of books is modelled on values, not as an object.
- StateMachine.EvictOldest: selects the oldest entry repeatedly where the source sorts once; ties may be dropped in any order.
- Install.PhasedInstallIsOneReplay: the side table's carry-forward is not part of the state compared.
- Install.OrderBookListener.ApplyBatch: broadcasts are not part of it, and which half a maintenance pass lost is known only by its height.
- Lines.FileReader.OnModify: stated for any way of judging lines; the node's own (UTF-8, trimming, braces, the height field) is `NodeLines.NodeFormat`, for which the judging theorems are proved.
- Backfill.StartIsExact: the newest file opens and the channel stays open; `Backfill.DeliveredIffNothingMissed` covers a newest file that does not open when its recorded length is a line boundary.
- Backfill.BackfillAndTrack: the heights near the heads of the files, and which files open, are given with them (`NodeLines.NodeFile` computes the heights).
- Losses.NoLossIsForgotten: heights are positive and stay 100 below the 64-bit limit, install heights do not decrease, a loss from elsewhere is marked once a height is known and lies at most 100 blocks above it, and a commit whose replay does not fail keeps the flag up or covers every batch dropped past a dead cache, which is nothing when none was dropped (`Losses.WithoutDropsAnyInstallIsLegal`).
- Confluence.RestingIsExpected: each oid is placed once with a positive size, its first status is one that goes into the book, no add crosses, and no batch fails or entry is evicted during the run.
- L2Diff.Connection.OnSubscribe: the cap on subscriptions per connection counts every channel's, so it is not part of a model of one; a subscription over the cap changes nothing.
- L2Feed.ClientHoldsTheBook: batches report what they change (see `Pairing.ReportsAllIff`) and the subscribed shape is active; a shape that is not yet built exports as an empty snapshot.
- OverReplay.OverReplayIsHarmless: events come in block order with every New after its status, batches apply, and no add crosses; of queues it says what rests, not where.
- Handoff.InstallIsSeamless: the cache stays alive, cached batches come in block order with every New after its status, apply, and cross nothing; of queues it says what rests, not where.
- MergeOrder.TakeIsInBlockOrder: the heights of each stream above the floor do not decrease, and the order is that within one call of take; across calls `Merge.DisorderIsBounded` holds.
- L2View.SnapshotIsTop: sizes are the aggregates the levels keep, which are the queues' sums while these fit 64 bits (`BookCore.RunKeepsAllExact`).
- Merge.DisorderIsBounded: the heights of each stream above the floor do not decrease; a batch taken past a stream that was dead or never seen is not bounded.
