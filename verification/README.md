# A model of the limit order book matching engine

The engine keeps one order book per symbol. Orders rest in price levels, first come first served within a price;
stop orders wait for the last trade price and then enter as market or limit orders, which may trade and trigger
further stops. Commands reach one worker per partition through a queue with redelivery. The worker deduplicates a
command, executes it, appends it to a durable log, saves a recovery snapshot and acknowledges. Standby workers
follow the log and take over when the lock of the partition expires.

The project models this at three heights and connects them.

- **The book as a value.** A side of the book is one flat price-time queue (`Matching`), and each command is a
  function from book to book and reply (`BookSpec`). The properties of the book are lemmas about these functions:
  invariants, optimality, the stop cascade, atomic rejection, which stops trigger and what becomes of them, limits,
  accounting, the ledger, sequence numbers, refusals, trailing stops, recovery.
- **The book on the heap.** The Go worker's book, with shared order objects, level slices, the side maps, the id
  index and the stop list (`GoOrders`, `GoLevels`, `GoSide`, `GoStops`, `GoBook`, `GoRecovery`, `GoRegistry`), and the
  Node engine's book of doubly linked levels (`LinkedLevel`, `NodeSide`, `NodeBook`), are proved to do what the value
  functions say. The two engines therefore match, rest and cancel alike.
- **The protocol.** Any number of workers, their crashes, the expiry of the lock, redelivery and the standby catch-up
  are a state machine (`Failover`, `FailoverSafety`, `Promotion`, `Handover`). `Processor`, `Restart` and `Standby` tie the
  imperative code to it, and `Delivery` the broker.

A timestamp that a triggered order takes from the clock is the one thing a replay cannot repeat, so books are
compared up to the timestamps of orders and the trade history, which is not restored (`Likeness.Alike`). The clock
is an input of every command.

## Findings

Where a promise fails, the code is modelled as it is, an input shows the failure, and the exact condition is proved.

- **A market-type stop with a limit price.** Placing a stop-market or trailing stop copies a limit price
  (go-worker/internal/matching/book.go:176), and executing it is later refused (go-worker/internal/matching/order.go:40)
  after the book has changed. `Atomicity.PoisonIsAccepted` shows such a stop accepted. `Atomicity.AtomicExactly` proves
  that rejections are atomic in every run from a book if and only if the book holds no such stop, other than a plain
  sell stop whose trigger is not positive; `Atomicity.RejectionIsAtomicIff` says which single rejections change the book.
- **The cycle limit.** `StopCascade.CyclesTerminate` proves that n clean stops need at most n + 1 cycles, so fewer
  than 1000 stops cannot exceed the limit of 1000 (go-worker/internal/matching/book.go:306-309). `Ladder.LimitIsTight`
  gives, for every n, a run of clean commands from the empty book that leaves n stops pending, after which one order takes
  exactly n + 1 cycles; from 1000 stops on it is rejected after the book has changed. `Ladder.AtomicIffBelowLimit`
  puts the two together: rejections on books of n clean stops are atomic if and only if n is below 1000.
- **An abandoned promotion.** A Node worker starts its consumer before it checks once more that it holds the lock, and
  on failure it returns to its replica without rebuilding the books (src/application/replication/MatchingNode.js:124-161).
  `Promotion.StaleNodeConsumes` is a run that ends with a worker that holds the lock and consumes with a book that is not
  the replay of the log, and that refuses the redelivered command as a duplicate. `FailoverSafety.AbandonIsCleanIff`
  proves that after the step every book is the replay of its recorded prefix if and only if no command has succeeded since
  the consumer started, and `FailoverSafety.AbandonKeepsReplayIff` says so symbol by symbol. The safety theorems are stated for
  the runs that meet this condition (`Failover.CleanRun`); all runs of Go workers do (`Promotion.GoRunsAreClean`).
- **Symbols of white space.** The Go worker and the Node engine do not trim the same characters: only Go trims a next line
  character (U+0085), only Node a byte order mark (U+FEFF). `Partition.PartitionsAgreeIff` proves that both give a
  symbol the same partition, or both refuse it, if and only if it is not white space with the one character
  or the other (go-worker/internal/partition/partition.go:10, src/application/partitioning/symbolPartitioner.js:6).

## Model

| member | source | states |
|---|---|---|
| Matching.MatchClosedForm | go-worker/internal/matching/book.go:218-261 | The loop trades with a prefix of the flat queue, the i-th trade with the i-th order at that order's price, with the incoming order as the aggressor and as the buyer exactly if it buys; it stops only when the order is filled or no acceptable price is left, and leaves the rest of the queue in unchanged order |
| Matching.FillsNeverFail | go-worker/internal/matching/book.go:234-239 | The errors of the two fills that the loop discards cannot occur |
| Optimality.TradesAsMuchAsPossible | go-worker/internal/matching/book.go:218-261 | The traded quantity is the smaller of the order and of everything acceptable on the opposite side |
| Optimality.GreedyIsOptimal | go-worker/internal/matching/book.go:218-278 | Among all ways of taking the same quantity, the fills made cost a buyer least and earn a seller most |
| Invariant.ExecKeepsWF | go-worker/internal/matching/book.go:59-216 | Every command, successful or not, keeps the book invariant: uncrossed, sorted live queues, distinct ids in disjoint places, well-formed stops |
| Invariant.UncrossedThroughout | go-worker/internal/matching/book.go:263-278 | No resting bid reaches any resting ask |
| Invariant.RunStopFailsIff | go-worker/internal/matching/book.go:344-364 | Executing a pending stop fails exactly if it is a market-type stop with a limit price |
| StopCascade.RunStopsFailsIff | go-worker/internal/matching/book.go:317-326 | A cycle fails exactly if one of its stops is such a stop |
| StopCascade.CyclesReachFixpoint | go-worker/internal/matching/book.go:300-342 | After a cascade no pending stop is eligible at the last price, which is the price of the final trade |
| StopCascade.CyclesTerminate | go-worker/internal/matching/book.go:300-342 | n clean pending stops need at most n + 1 cycles, and the limit cannot fire below 1000 stops |
| StopCascade.RejectionIsAtomic | go-worker/internal/matching/book.go:59-216 | On a clean book with room for a cascade a rejected command leaves the book exactly as it was |
| StopCascade.CancelNeverFails | go-worker/internal/matching/book.go:97-99 | The discarded cancel error cannot occur |
| Atomicity.RejectionIsAtomicIff | go-worker/internal/matching/book.go:59-113 | A rejected command leaves the book as it was if and only if it is not an order that passed validation |
| Atomicity.TriggerRejects | go-worker/internal/matching/book.go:300-326 | An order whose last trade triggers a stop that cannot be executed is rejected |
| Atomicity.AtomicExactly | go-worker/internal/matching/book.go:59-184 | Rejections are atomic in all runs from a book if and only if the book holds no stop that can fail |
| Atomicity.PoisonIsAccepted | go-worker/internal/matching/book.go:152-184 | A stop-market order with a limit price is accepted, and from then on the book can fail |
| Ladder.LadderIsReached | go-worker/internal/matching/book.go:59-184 | For every n clean commands lead from the empty book to one of n + 1 asks and n stops, each to be triggered by the trade of the one before |
| Ladder.LimitIsTight | go-worker/internal/matching/book.go:306-309 | On the book that this run reaches one order takes n + 1 cycles; with 1000 stops or more it is rejected with the book changed |
| Ladder.AtomicIffBelowLimit | go-worker/internal/matching/book.go:300-342 | Rejections are atomic on all books of n clean stops, and on all that runs reach, if and only if n is below 1000 |
| Accounting.PlaceAccounts | go-worker/internal/matching/book.go:59-113 | What the placed order bought (or sold) in all returned trades is initial minus remaining, through the whole cascade, and it sold (or bought) nothing; no trade has one order on both sides |
| Accounting.PlaceAccountsOthers | go-worker/internal/matching/book.go:218-261 | Every other resting order dealt, on its own side only, exactly what it lost |
| Stakes.PlaceSettles | go-worker/internal/matching/book.go:218-364 | For every other id, resting or pending: what it bought or sold is what it had at stake before, less what it has after and what a market order could not fill |
| Limits.LimitsHold | go-worker/internal/matching/book.go:222-243 | Over any run nothing that was placed as a limit or stop-limit order ever buys at more, or sells at less, than its limit, whether it arrives, rests or waited as a stop |
| Placing.PlacedOrder | go-worker/internal/matching/book.go:59-113 | The order in the reply is the one of the input, with the status that its remaining quantity tells; a limit order rests as it is in the reply, exactly if something is left |
| Placing.CancelReturns | go-worker/internal/matching/book.go:186-216 | Cancelling returns the order or stop of that id as cancelled and takes it, and nothing else, out of the book |
| Placing.HistoryGrows | go-worker/internal/matching/book.go:250-251 | The trade history is what it was, followed by the trades in the reply |
| Refusals.PlaceIsChecked | go-worker/internal/matching/order.go:18-50 | A limit or market order fails with the error of its first failing check, the id first, and changes nothing then; past the checks only a stop or the cycle limit can fail it |
| Refusals.StopIsChecked | go-worker/internal/matching/book.go:152-184 | A stop fails with the error of its first failing check, and is accepted if none fails |
| Refusals.TrailingIsChecked | go-worker/internal/matching/book.go:123-146 | So does a trailing stop, whose own three checks come first |
| Refusals.CancelIsCheckedIn | go-worker/internal/matching/book.go:186-216 | Cancelling fails exactly if the id is not in use |
| Refusals.CancelIsChecked | go-worker/internal/matching/order.go:73-79 | Cancelling an order fails exactly if it is filled or cancelled already |
| Refusals.FillIsChecked | go-worker/internal/matching/order.go:54-71 | A fill fails with the error of its first failing check, and otherwise fills the order exactly if nothing is left |
| Numbering.PlaceNumbers | go-worker/internal/matching/book.go:59-113 | An accepted order carries 2 events, and one for every trade, fill, triggered stop and order that rests, and the sequence advances by exactly that |
| Numbering.ExecNumbers | go-worker/internal/matching/book.go:421-435 | Every command that succeeds advances the sequence by the number of its events, but for cancelling a stop |
| Triggers.TriggersExactly | go-worker/internal/matching/book.go:300-401 | A pending stop is triggered exactly if one of the last prices that the order sets reaches its trigger, trailing on the way, and otherwise it stays |
| Triggers.WaitingIsNotReached | go-worker/internal/matching/book.go:386-401 | After a command that traded, the last price is below the trigger of every pending stop that buys and above that of every one that sells |
| Triggers.PlaceTriggers | go-worker/internal/matching/book.go:300-342 | Every stop is triggered at the first price that reaches it, as it is by then; stops reached by the same price are triggered in the order of their placement; none is lost |
| StopLife.TriggeredBecomes | go-worker/internal/matching/book.go:344-364 | Where a triggered stop is in the reply, which order it became, what that order dealt in the whole command, and what of it rests |
| StopLife.LifeOfAStopLimit | go-worker/internal/matching/book.go:119-121 | From the command that places it: once triggered it is a limit order with the command's id, user, side, limit and quantity, nothing of it trades beyond the limit, and what it has not dealt rests at the limit |
| StopLife.LifeOfAStopMarket | go-worker/internal/matching/book.go:115-117 | From the command that places it: once triggered it is a market order with the command's fields, and what it cannot deal is dropped |
| StopLife.LifeOfATriggeredTrailingStop | go-worker/internal/matching/book.go:123-146 | Likewise for a trailing stop, whose trigger lies at the trailing amount from the extreme of all last prices up to the one that reached it |
| Ledger.ExecBalances | go-worker/internal/matching/book.go:59-216 | One command balances on each side: held before plus accepted is held after plus traded plus cancelled |
| Ledger.RunBalances | go-worker/internal/matching/book.go:59-216 | Over any run, accepted quantity is resting plus pending plus traded plus cancelled |
| Ledger.BothSidesTradeTheSame | go-worker/internal/matching/book.go:218-261 | Traded quantity is the same on both sides over any run |
| Trailing.RunKeepsRange | go-worker/internal/matching/book.go:300-384 | Between commands a sell trailing stop has trigger < last price <= peak, with the mirror image for buys |
| Trailing.TrailingStopsRatchet | go-worker/internal/matching/book.go:366-384 | The peak is the running maximum of the last prices set, the trigger follows at the trailing amount and never falls |
| Trailing.CascadeMarks | go-worker/internal/matching/book.go:306-330 | A cascade sets the last price once for the trades that set it off and once for each cycle that trades, to the price of the final trade of the batch |
| Trailing.MarksAreTradePrices | go-worker/internal/matching/book.go:306-330 | The trades of a run are the batches of its orders and cycles one after the other, and the last prices it sets are those of their final trades |
| Trailing.LifeOfATrailingStop | go-worker/internal/matching/book.go:123-146 | From placement on, the peak is the running maximum of the last price at placement and the final trade price of each batch since |
| Likeness.ExecAlike | go-worker/internal/matching/book.go:344-351 | Books that agree but for timestamps answer a command alike, whatever the clocks read |
| Likeness.RunAlike | go-worker/internal/matching/book.go:344-351 | So they do over every sequence of commands |
| Recovery.SnapshotRoundTrip | go-worker/internal/matching/recovery.go:5-71 | Restoring a book's snapshot gives the book back, but for its trade history |
| Recovery.LevelsInOrder | go-worker/internal/matching/recovery.go:21-26 | The levels of a snapshot go strictly from the best price to the worst |
| Recovery.LevelsAreExact | go-worker/internal/matching/recovery.go:13-20 | Each saved level holds all orders of its price with exact total and count |
| Recovery.KeptExactly | go-worker/internal/matching/recovery.go:55-67 | Restoring ignores a saved order with nothing left, wherever it is, and keeps every other one in its place |
| Recovery.RestoredBookBehavesAlike | go-worker/internal/matching/recovery.go:30-71 | A restored book answers every later command sequence with the same results, sequence numbers and errors |
| Recovery.SnapshotPlusSuffix | go-worker/internal/storage/redis.go:281-312 | Snapshot plus replay of the log's suffix is full replay |
| RoundTrips.PlaceThenCancel | go-worker/internal/matching/book.go:186-216 | Placing an order that makes no trade and cancelling it restores the book, advancing the sequence by 6 |
| RoundTrips.PlaceStopThenCancel | go-worker/internal/matching/book.go:152-193 | Likewise for a stop, by 2 |
| RoundTrips.PlaceTrailingThenCancel | go-worker/internal/matching/book.go:123-193 | Likewise for a trailing stop |
| Runs.SuccessMovesOn | go-worker/internal/matching/book.go:421-435 | Every successful command numbers new events or removes a stop, so no later book is the earlier one |
| GoOrders.MakeOrder | go-worker/internal/matching/order.go:18-50 | Allocates exactly the validated order, or the first of the eight errors that applies |
| GoOrders.OrderRef.FillUp | go-worker/internal/matching/order.go:54-71 | Fills in place, or says why not and changes nothing |
| GoOrders.OrderRef.CancelUp | go-worker/internal/matching/order.go:73-79 | Cancels in place, or says why not and changes nothing |
| GoOrders.PriceLevel.Append | go-worker/internal/matching/order.go:96-99 | The order goes last, and the total grows by what it has left |
| GoOrders.PriceLevel.Remove | go-worker/internal/matching/order.go:101-109 | Removes exactly this object, and its quantity from the total |
| GoSide.BestPrice | go-worker/internal/matching/book.go:263-278 | The scan over the map in arbitrary order finds the extreme price, or that there is none |
| GoSide.BookSide.Cross | go-worker/internal/matching/book.go:232-240 | Filling both orders at the head keeps levels, totals and queue together |
| GoSide.BookSide.Unlink | go-worker/internal/matching/book.go:252-258 | Removing an order, and its level if that is empty, removes it from the queue |
| GoSide.BookSide.Rest | go-worker/internal/matching/book.go:280-292 | A resting order enters the queue behind everything at least as good |
| GoBook.EngineBook.constructor | go-worker/internal/matching/book.go:39-45 | A new book is valid and empty |
| GoBook.EngineBook.Match | go-worker/internal/matching/book.go:218-261 | The matching loop on the heap computes the flat queue's match, and what left the queue is filled |
| GoBook.EngineBook.Submit | go-worker/internal/matching/book.go:67-77 | Matching and then resting or dropping is the specified submission; watched orders that leave are filled and their ids free |
| GoBook.EngineBook.ExecuteStop | go-worker/internal/matching/book.go:344-364 | A triggered stop is submitted as specified, or fails with the validation error |
| GoBook.EngineBook.MarkPrice | go-worker/internal/matching/book.go:310-312 | Marks the price, moves the trailing stops and finds exactly the eligible stops in list order |
| GoBook.EngineBook.RunEligible | go-worker/internal/matching/book.go:316-339 | The inner loop of the cascade gathers what the specification says, up to the first failure |
| GoBook.EngineBook.ProcessStops | go-worker/internal/matching/book.go:300-342 | The cycle loop is the specified cascade, with its partial state on an error |
| GoBook.EngineBook.IsTaken | go-worker/internal/matching/book.go:49-57 | The index and the stop map know exactly the ids in use |
| GoBook.EngineBook.PlaceOrder | go-worker/internal/matching/book.go:59-113 | Limit and market placement, with the order as the cascade leaves it |
| GoBook.EngineBook.PlaceStopWithExtrema | go-worker/internal/matching/book.go:152-184 | Stop placement with its checks in order |
| GoBook.EngineBook.PlaceTrailingStop | go-worker/internal/matching/book.go:123-146 | Trailing stop placement from the last price |
| GoBook.EngineBook.CancelCommand | go-worker/internal/matching/book.go:186-216 | Cancelling a stop or a resting order |
| GoBook.EngineBook.Execute | go-worker/internal/application/command.go:60-93 | Every command on the heap book refines the specification and keeps the heap invariant |
| GoStops.DeleteStop | go-worker/internal/matching/book.go:403-411 | Deleting from map and id list deletes one stop, order kept |
| GoStops.UpdateTrailing | go-worker/internal/matching/book.go:366-384 | The loop trails every pending stop |
| GoStops.FindEligible | go-worker/internal/matching/book.go:386-401 | The loop finds the eligible stops in list order |
| GoRecovery.SnapshotSide | go-worker/internal/matching/recovery.go:11-28 | From the map of levels, in any order, the sorted levels of the queue |
| GoRecovery.RecoverySnapshot | go-worker/internal/matching/recovery.go:5-9 | The heap book's snapshot is the snapshot of its value |
| GoRecovery.RestoreLevel | go-worker/internal/matching/recovery.go:55-71 | A restored level holds the saved orders with something left, with their exact total, and all are indexed |
| GoRecovery.SavedIsSound | go-worker/internal/matching/recovery.go:5-28 | Every snapshot that a book writes can be rebuilt |
| GoRecovery.FromRecoverySnapshot | go-worker/internal/matching/recovery.go:30-53 | The book rebuilt from a sound snapshot, whatever its totals, counts and spent orders, is valid, entirely new, and has the restored value |
| GoRegistry.Registry.GetOrCreate | go-worker/internal/application/command.go:38-48 | Finds or makes the book; only a blank symbol is refused |
| GoRegistry.Registry.Set | go-worker/internal/application/command.go:50-56 | Takes over a book exactly if it is for this symbol |
| GoRegistry.Registry.Execute | go-worker/internal/application/command.go:60-93 | Executes in the book of the symbol and leaves every other book as it was |
| Independence.SymbolsAreIndependent | go-worker/internal/application/command.go:38-93 | A symbol's final book and results are those of its own commands alone |
| Independence.InterleavingsAgree | go-worker/internal/application/command.go:38-93 | All interleavings that keep per-symbol order end in the same registry with the same results |
| Independence.SwapNeighbours | go-worker/internal/application/command.go:60-93 | Neighbouring commands for different symbols can change places |
| Independence.RunKeepsHoused | go-worker/internal/application/command.go:38-48 | The registry has a well-formed book for exactly the symbols that are not blank and have had a command |
| LinkedLevel.OrderNode.FillUp | src/engine/OrderNode.js:69-88 | Fills in place, or says why not and changes nothing |
| LinkedLevel.Level.Append | src/engine/PriceLevel.js:18-34 | Links the order last, refused exactly for a wrong price, an attached order or nothing left; links, total and count stay exact |
| LinkedLevel.Level.Remove | src/engine/PriceLevel.js:40-62 | Unlinks from anywhere, refused exactly for an order of another level; links, total and count stay exact |
| LinkedLevel.Level.DecreaseTotal | src/engine/PriceLevel.js:64-72 | Refused exactly if not positive or more than the total |
| LinkedLevel.Level.ToArray | src/engine/PriceLevel.js:88-98 | Following the links yields the orders first come first |
| LinkedLevel.Level.Cross | src/engine/OrderBook.js:507-541 | One turn of the loop hits the head as specified, and none of its checks throws |
| LinkedLevel.Level.CancelHere | src/engine/OrderBook.js:650-651 | Removing and then cancelling takes the order off by id, and never throws |
| NodeSide.MatchOrder | src/engine/OrderBook.js:493-543 | The loop over linked levels computes the flat queue's match, and takes exactly the orders that leave the queue out of the id map |
| NodeSide.Rest | src/engine/OrderBook.js:597-612 | A resting order enters the queue behind everything at least as good |
| NodeBook.OrderBook.MatchBuy | src/engine/OrderBook.js:493-543 | An incoming buy order meets the asks as specified; sides, id map and trades stay together |
| NodeBook.OrderBook.MatchSell | src/engine/OrderBook.js:545-595 | The mirror image |
| NodeBook.OrderBook.AddResting | src/engine/OrderBook.js:597-612 | The order goes on its side and into the id map, the other side is untouched |
| NodeBook.OrderBook.Submit | src/engine/OrderBook.js:72-98 | A validated order is matched and then rested or dropped by the same function as in the worker's book |
| NodeBook.OrderBook.CancelResting | src/engine/OrderBook.js:633-657 | Cancelling by id finds exactly the resting orders, as in the worker's book, and none of its checks but the look-up refuses |
| Partition.HashIsLowOfExact | go-worker/internal/partition/partition.go:17-23 | Wrapping at every step computes the low 32 bits of the exact hash |
| Partition.GoId | go-worker/internal/partition/partition.go:9-29 | The worker's partition, always in 0..count-1, the most negative hash included; blank symbols refused first |
| Partition.NodeHash | src/application/partitioning/symbolPartitioner.js:5-17 | Exact addition with truncation only at the bitwise operators gives the same hash |
| Partition.NodeId | src/application/partitioning/symbolPartitioner.js:23-29 | The partition to the Node engine, which looks at the count before it looks at the symbol |
| Partition.PartitionsAgreeIff | src/application/partitioning/symbolPartitioner.js:5-29 | Worker and Node engine say the same of a symbol if and only if it is not white space with a character that only one of them trims |
| Partition.PartitionIsResidue | go-worker/internal/partition/partition.go:24-28 | The partition is the residue of the size of the hash, for a negative hash too |
| Partition.LastUnitMatters | go-worker/internal/partition/partition.go:19-23 | Symbols that differ in the last unit only have different hashes |
| Standby.StandbyReplica.RecoverSymbol | src/application/recovery/replayCommand.js:26-57 | From snapshot and suffix, or from the whole log, the book that replaying the log gives |
| Standby.StandbyReplica.ReplayAll | src/application/recovery/replayCommand.js:59-74 | Every listed symbol is rebuilt to the end of its log |
| Standby.StandbyReplica.Initialize | src/application/replication/StandbyReplica.js:27-42 | Tracks exactly the symbols of the partition, each at the end of its log |
| Standby.StandbyReplica.DiscoverSymbols | src/application/replication/StandbyReplica.js:44-66 | New symbols of the partition are rebuilt and tracked, the others stay where they were |
| Standby.StandbyReplica.ReplayAvailable | src/application/replication/StandbyReplica.js:68-89 | In batches of any size, the position reaches the end of the log, and the count is what was missing |
| Standby.StandbyReplica.CatchUp | src/application/replication/StandbyReplica.js:91-100 | On an unchanging log every symbol of the partition ends at its end, no position moves back, and the count is how far the replica was behind |
| Standby.StandbyReplica.GrowthKeepsValid | src/application/replication/StandbyReplica.js:68-89 | A log that grows leaves every replica book the replay of its recorded prefix |
| Standby.ReachableIsSource | src/application/recovery/replayCommand.js:26-57 | Every store that a clean run of the protocol reaches has sound logs and matching snapshots for all listed symbols |
| Standby.ListedHasPartition | src/application/partitioning/symbolPartitioner.js:46-48 | Every listed symbol has a partition, the same to both engines |
| Standby.UnitsDecode | go-worker/internal/partition/partition.go:20 | A code point is one unit, or a high and a low surrogate that carry its bits |
| Processor.CommandProcessor.Persist | go-worker/internal/worker/processor.go:85-97 | Log entry, snapshot of the book after the command, and status |
| Processor.CommandProcessor.Handle | go-worker/internal/worker/processor.go:53-104 | The call's steps with their early exits and three leadership checks; a command is refused exactly if it is of another partition, written only if it is acknowledged, and acknowledged only if it is processed or the book refused it |
| Processor.AnswersAreRight | go-worker/internal/worker/processor.go:58-104 | What the broker is told, for all calls: refused, back to the queue, or acknowledged, and exactly when, over the stores before and after and the reply |
| Processor.AcceptedIsLogged | go-worker/internal/worker/processor.go:85-104 | An accepted command leaves one more log entry, its id among the processed ones, and a snapshot of the book after it under that entry |
| Delivery.NeverLostNorDoubled | go-worker/internal/worker/processor.go:53-104 | After any publications, calls and breakdowns every published command is in the log exactly once, or not in it and still with the broker or refused |
| Processor.CallIsARun | go-worker/internal/worker/processor.go:58-103 | Every call is a run of the protocol's state machine, whatever its leadership checks answer |
| Processor.FirstWorkerConsumes | go-worker/internal/service/service.go:46-80 | A first worker can acquire the lock, recover and consume |
| Restart.RecoverSymbol | go-worker/internal/storage/redis.go:281-312 | On the heap, from snapshot and suffix, the book that replaying the whole log gives; other books stay |
| Restart.RecoverPartition | go-worker/internal/storage/redis.go:258-279 | Every listed symbol of the partition is recovered, and no other |
| Restart.RecoveryIsARun | go-worker/internal/service/service.go:57-80 | From the free lock to the first delivery, recovery is a run of the state machine, with exactly the books that the registry ends with |
| Handover.TakeOver | go-worker/internal/service/service.go:46-80 | After any clean run, when the holder of the lock lets go, a waiting worker can take over without waiting for the lock to expire, and then has the book of the whole log for every symbol |
| FailoverSafety.StepKeepsInv | go-worker/internal/worker/processor.go:65-103 | Every step of every worker keeps the protocol's invariant, but for abandoning a trial in which a command succeeded |
| FailoverSafety.FailoverIsSafe | go-worker/internal/service/service.go:46-80 | After any clean run, a worker that consumes, holds the lock and is not mid-command has the books that replaying the whole log gives |
| FailoverSafety.CrashesAreConsistent | go-worker/internal/worker/processor.go:69-103 | After any clean run no id is in a log twice, every snapshot is the state at its recorded id, every reported command is logged |
| FailoverSafety.RecoveryNeverFails | go-worker/internal/storage/redis.go:281-312 | After any clean run recovery meets no snapshot it cannot restore and no command that fails |
| FailoverSafety.ReplicaIsPrefix | src/application/replication/StandbyReplica.js:68-89 | After any clean run every book is the replay of the log up to its recorded position |
| FailoverSafety.PositionsAdvance | src/application/replication/StandbyReplica.js:83-87 | No step moves a position back, unless the worker drops its memory |
| FailoverSafety.AbandonKeepsReplayIff | src/application/replication/MatchingNode.js:131-161 | After an abandoned promotion the book of a symbol is the replay of its recorded prefix if and only if no command for it succeeded |
| FailoverSafety.AbandonIsCleanIff | src/application/replication/MatchingNode.js:131-161 | All books are, if and only if no command succeeded since the consumer started |
| Promotion.StaleNodeConsumes | src/application/replication/MatchingNode.js:84-164 | A run after which a promoted worker consumes with a book that is not the replay of the log |
| Promotion.GoRunsAreClean | go-worker/internal/service/service.go:46-80 | Go workers exit instead, so every run of theirs is clean |

## Left out

- Clean commands: the API never sends a limit price with a market-type stop, so runs of the protocol, the ledger and the trailing stops assume commands that place none; `Atomicity` treats all of them.
- Room for a cascade: the same runs assume fewer than 1000 pending stops at every limit and market order; `Ladder` shows why.
- Clock readings are natural numbers, one per stop id and command: a stop runs at most once in a command, and a negative reading would be refused as an order timestamp.
- Stop orders on the heap are values in the stop map, not shared objects; nothing else in the code keeps a reference to one.
- `GoBook.EngineBook.Submit` is one method for the steps that PlaceLimit, PlaceMarket and executeStop repeat.
- GoRecovery.FromRecoverySnapshot: is stated for snapshots whose value is a well-formed book, with each order on the level of its price; the code accepts others and leaves a book that breaks its invariant. No book writes one.
- The books of the replica are values.
- Processor.CommandProcessor.Persist: leaves out the event log and the read model, which are written between log entry and snapshot and which recovery does not read.
- Processor.CommandProcessor.Handle: takes the answers of the three leadership checks as inputs, and leaves out storage errors.
- Configuration is validated before a processor or a replica is made (go-worker/internal/service/service.go:34, src/application/replication/MatchingNode.js:27); `Restart` and `Standby` have no step for a partition count that is not positive.
- Event payloads and the order of events; only their number is kept, for the sequence numbers. A reply's snapshots of the book are left out.
- Trade history in the read model, which a recovered book does not have.
- Stream ids are numbers of log entries; trimming of the stream and the limit of 100,000 entries per read are left out.
- Storage errors: a storage call succeeds or the worker crashes. The second leadership check and the append are one step, as the code has no fencing token. The status REJECTED is not kept.
- Time: expiry of the lock is a step that may happen whenever it likes; renewal and polling intervals are left out.
- Interleavings inside one Node process: promotion, its failure and the loss of leadership are single steps, and a command in flight when a consumer stops counts as finished before it. `MatchingNode.handleLeadershipLost` outside a promotion is the step `Reset`.
- Overflow of quantities, prices and sequence numbers, except in the partition hash.
- Decoding of command payloads: a payload that cannot be decoded, and an unknown command type, are commands of their own that fail.
- The Node engine's stops and their processing: they follow the Go book, except that placing a stop does not validate its inputs. Its validation of orders refuses the same inputs, but also ids and users of white space. `NodeBook` starts with a validated order and a free id.
- API routes, WebSocket fan-out, read models, message broker and Redis client code, configuration.
