# Wallet model

A Dafny model of the stateful algorithms of an expiry-aware Bitcoin wallet: how its chain clients follow the best
chain, filter blocks, track the mempool and share block requests, how its address manager hands out child indices and
account numbers and stores them, and how the wallet selects coins to spend and to renew.

Each component has two layers.  A specification says in functions what one operation does to the state, and lemmas
about it say what every run keeps; where the source updates things in place, a class with the source's loops and fields
is proved to do exactly what the specification says.  `dafny verify dfyconfig.toml` checks the whole project.

| module | source | what is modelled |
|---|---|---|
| ChainReorg | chain/bitcoind_client.go | following the best chain on an immutable block tree; the queue of notifications is replayed with a stack; backend calls may fail at any point |
| BlockFilter, FilterScan | chain/block_filterer.go, chain/bitcoind_client.go, chain/btcd.go, chain/neutrino.go | the incremental block filterer against a declaration of relevance; the compact-filter scan against the full scan |
| LocalMempool, MempoolPoll | chain/mempool.go | the two-way input index, marks and sweeps; the poll interleaved with other callers, and its batching |
| PrunedDispatcher | chain/pruned_block_dispatcher.go | shared block requests, responses and cancels |
| ConcurrentQueue, NotificationHandler | chain/queue.go, chain/btcd.go, chain/neutrino.go | the select loops as step machines |
| AddressIndex, Accounts, RowCodec, BlockWindow | waddrmgr/scoped_manager.go, waddrmgr/db.go, waddrmgr/manager.go, waddrmgr/migrations.go | child indices across commit and rollback, account numbers and names, the byte layout of rows, the bounded store of block hashes |
| CoinSelection, AutoRenew, Expiry | wallet/createtx.go, wallet/autorenew.go, wallet/expiry.go, wallet/expiry_policy.go | largest-first selection, auto-renew selection, expiry arithmetic |

Hashes, addresses and scripts are opaque ids.  Buckets are maps, and a database transaction is committed or discarded.
What the outside world decides is a parameter: whether a backend call succeeds, what a fetch answers, what deriving a
child key yields, which scripts an address and an output have.  Fixed-width arithmetic is written out where it can
wrap: int32 heights, the uint32 limit check on indices, account numbers, row offsets, and the int64 projected reclaim.

Where the code does less than its comments or its callers expect, the model follows the code and a lemma says exactly
when the expectation holds:

- From the second disconnect of a reorganisation on, the notification carries the hash of the popped block's parent
  (`ChainReorg.DisconnectsNameTheirBlocks`); a backend failure in the middle of one leaves the queue ahead of the best
  block (`ChainReorg.FailedReorgInSync`), and `ChainReorg.RepairedIff` says when a later reorganisation makes up for it.
- A block response does not clear the cancel channels of the block, so a later cancel can reach waiters already served
  (`PrunedDispatcher.CancelReachesOnlyCurrent`, with an instance in `PrunedDispatcher.StaleChannelReached`).
- Calls on a branch after a `nextAddresses` call in the same transaction repeat its indices, a `nextAddresses` call for
  no addresses makes the commit panic, and a rolled-back `extendAddresses` leaves the cache ahead of the database
  (`AddressIndex.RepeatsIffAfterNext`, `AddressIndex.PanicsIffNoneAsked`, `AddressIndex.RolledBackExtendDisagrees`).
- `NewAccountWatchingOnly` has no upper bound on the account number (`Accounts.WatchingNeedsRoom`,
  `Accounts.WatchingOverwritesImported`).
- The expiry height is checked against the uint32 bound and then cast to int32 (`Expiry.ExpiryHeightExact`).
- The projected reclaim of a very large output wraps, and auto-renew skips the output (`AutoRenew.EligibleMeans`,
  `AutoRenew.HugeOutputIsSkipped`).
- The compact-filter scan misses outputs that pay a watched address with a script other than its canonical one
  (`FilterScan.ScansAgreeIff` says when the scans agree, `FilterScan.NonCanonicalOutputIsMissed` is an instance).
- `PutSyncedTo` accepts heights below genesis (`BlockWindow.RunKeepsWindow`).

## Model

| member | source | states |
|---|---|---|
| `ChainReorg.RunKeepsSync` | chain/bitcoind_client.go:565-613 | Over every run of block notifications with successful backend calls, replaying the queue (a connect pushes one block, a disconnect pops one, each only at the expected height) gives exactly the path from genesis to the best block |
| `ChainReorg.HandleBlockKeepsSync` | chain/bitcoind_client.go:580-608 | One notification keeps that agreement: for the next successor, for a reorganisation, and for a stale block below our height |
| `ChainReorg.PlanReplays` | chain/bitcoind_client.go:755-879 | The notifications of one complete reorganisation turn the old path into the new one, wherever the two branches fork |
| `ChainReorg.ForkLenIsGreatest` | chain/bitcoind_client.go:793-852 | The surviving part of the old chain is the longest common prefix of both paths, except that the old tip itself is never kept |
| `ChainReorg.ForkParents` | chain/bitcoind_client.go:804-840 | Walking down from the old tip, the parents on the two branches agree for the first time exactly at the fork |
| `ChainReorg.PlanDisconnects` | chain/bitcoind_client.go:804-852 | The i-th notification of a reorganisation disconnects the i-th block below the old tip with that block's height and header time; the first carries the tip's hash, every later one the hash of the block's parent |
| `ChainReorg.PlanConnects` | chain/bitcoind_client.go:854-872 | After the disconnects come, for each block of the new branch in order, the filtered and the plain connect with that block's hash, height and time, and nothing more |
| `ChainReorg.SuccessorConnects` | chain/bitcoind_client.go:585-600 | A direct successor is announced and connected at its own height and time |
| `ChainReorg.BestIsLastHighest` | chain/bitcoind_client.go:565-613 | After every run the best block is the last notified block of the greatest height seen, or the starting block when all are lower |
| `ChainReorg.CallsMade` | chain/bitcoind_client.go:755-879 | How many backend calls a reorganisation makes, and how much is queued when call k is made |
| `ChainReorg.DisconnectsNameTheirBlocks` | chain/bitcoind_client.go:806-829 | All disconnects of a reorganisation carry the hash of the block they pop if and only if the old tip's parent survives; deeper ones carry a parent's hash |
| `ChainReorg.EmittedIsPrefix` | chain/bitcoind_client.go:755-879 | When backend call k fails, what has been queued is a proper prefix of the complete reorganisation |
| `ChainReorg.EmittedReplays` | chain/bitcoind_client.go:804-872 | Replaying a cut-off reorganisation gives the old path cut at the height reached, or the new path up to the height reached |
| `ChainReorg.FailedReorgInSync` | chain/bitcoind_client.go:755-879 | When backend call k fails the best block stays, and the replayed queue still matches it if and only if nothing was queued before call k, or the old tip lies on the new branch and had just been connected again |
| `ChainReorg.RunFailingFollowed` | chain/bitcoind_client.go:565-613 | Over every run in which any notification may fail at any backend call, replaying the queue is possible exactly when a stack, followed notification by notification, can be, and gives that stack |
| `ChainReorg.LengthMismatchIsFatal` | chain/bitcoind_client.go:806-879 | Once the replayed stack has another length than the path to the best block, a later notification can be replayed if and only if it queues nothing |
| `ChainReorg.RepairedIff` | chain/bitcoind_client.go:806-879 | A reorganisation that failed after queueing something is repaired by a later complete one if and only if it had got to connecting the new branch exactly up to the old tip's height and the later one goes back at least as deep |
| `ChainReorg.SecondDisconnectMisnamed` | chain/bitcoind_client.go:806-829 | An instance in which the second disconnect carries genesis's hash for the block above it |
| `ChainReorg.FailureLeavesSync` | chain/bitcoind_client.go:819-825 | An instance in which a failing header call leaves the queue one disconnect ahead of the best block |
| `ChainReorg.BitcoindClient.OnBlock` | chain/bitcoind_client.go:578-608 | One notification in place, for any failing call: exactly the specified new state, and success exactly when enough backend calls succeed |
| `ChainReorg.BitcoindClient.Reorg` | chain/bitcoind_client.go:755-879 | The three loops together: a lower block changes nothing, otherwise the queue grows by the plan and the tip moves, or by the cut-off plan and the tip stays |
| `ChainReorg.BitcoindClient.CollectBranch` | chain/bitcoind_client.go:777-791 | The first loop collects exactly the new branch from our height up |
| `ChainReorg.BitcoindClient.WalkBack` | chain/bitcoind_client.go:793-852 | The second loop terminates on block height, stops at the fork, and has queued exactly the disconnects down to it and collected the new branch from it |
| `ChainReorg.BitcoindClient.FastForward` | chain/bitcoind_client.go:854-876 | The third loop queues the connects of the collected blocks and moves the best block to the new tip only when it finishes |
| `ChainReorg.BitcoindClient.FilterBlock` | chain/bitcoind_client.go:1190-1193 | One filtered-block notification, then one plain connect, for the same hash and height |
| `ChainReorg.BitcoindClient.constructor` | chain/bitcoind_client.go:565-576 | A client starts at a block of the tree with an empty queue |
| `BlockFilter.FindingsAreDeclared` | chain/block_filterer.go:108-118 | From any earlier findings, filtering a block finds exactly the declared relevant transactions, outpoints and indices; with no relevant transaction nothing changes, so the filterer can be reused |
| `BlockFilter.HitIsRelevant` | chain/block_filterer.go:125-175 | What is tested at transaction k equals the declaration: it pays a watched address, spends a watched outpoint, or spends an output of an earlier transaction of the block that pays a watched address |
| `BlockFilter.SomeRelevant` | chain/block_filterer.go:108-118 | The list of relevant transactions is non-empty exactly when some transaction is relevant |
| `BlockFilter.RelevantMeans` | chain/block_filterer.go:125-175 | Relevance without helper notions: an input that is watched, found before, or a paying output of an earlier transaction of the block, or an output with an external or internal address of the request |
| `BlockFilter.RelevantTxnsByPosition` | chain/block_filterer.go:108-118 | The list of relevant transactions holds each one exactly once, in block order |
| `BlockFilter.DeclaredMeans` | chain/block_filterer.go:108-217 | For distinct request addresses, what a block adds: the external and the internal indices whose address it pays, its paying outputs, and its relevant transactions in order |
| `BlockFilter.OutPointsMean` | chain/block_filterer.go:145-172 | The found outpoints are exactly the outputs with a requested address, each with the first address of such an output |
| `BlockFilter.BlockOutPointsExact` | chain/block_filterer.go:145-172 | The found outpoints are exactly the outputs that pay a watched address, each with that output's first address |
| `BlockFilter.FoundIndicesExact` | chain/block_filterer.go:182-217 | With distinct request addresses, the found indices are exactly the requested indices whose address the block pays |
| `BlockFilter.BlockMarksExact` | chain/block_filterer.go:182-217 | In general, an index is found exactly when some output pays an address the reverse index maps to it |
| `BlockFilter.NothingFound` | chain/block_filterer.go:108-175 | A block with no relevant transaction contributes no index and no outpoint |
| `BlockFilter.BuildReverse` | chain/block_filterer.go:74-88 | A reverse index holds exactly the request's addresses, each with one of its own indices, whatever the map order |
| `BlockFilter.BlockFilterer.constructor` | chain/block_filterer.go:69-103 | A fresh filterer has valid reverse indexes and no findings |
| `BlockFilter.BlockFilterer.FilterOutputAddrs` | chain/block_filterer.go:182-217 | True exactly when one of the addresses is watched; adds the mark of every watched one |
| `BlockFilter.BlockFilterer.FilterTx` | chain/block_filterer.go:125-175 | True exactly when the transaction spends a watched or found outpoint or pays a watched address; records every paying output even after a match |
| `BlockFilter.BlockFilterer.FilterBlock` | chain/block_filterer.go:108-118 | The new findings are the declared ones, the result says whether there was a relevant transaction, and a false result leaves the filterer unchanged |
| `FilterScan.ScansAnswerAlike` | chain/btcd.go:319-397 | With distinct request addresses, and filters and scripts as below, the answer of a compact-filter scan equals that of a full scan of the same request, whatever the order in which indexes and watch list were built |
| `FilterScan.ScansAgreeIff` | chain/btcd.go:319-397 | When the backend serves every block and filter, the compact-filter scan agrees with the full scan if and only if the filter of the first block with a relevant transaction, if there is one, has at least 4 bytes, is not empty and matches the watch list |
| `FilterScan.CompactAgreesWithFull` | chain/btcd.go:319-397 | The compact-filter scan returns the same response as the full scan for every request, when filters never miss a contained script, watched addresses are paid only by canonical scripts, and each watched outpoint maps to the address of the output it names |
| `FilterScan.AnswerDescribes` | chain/bitcoind_client.go:895-921 | For distinct request addresses, a response of either scan names a requested block and lists exactly its paid external indices, paid internal indices, paying outputs with their first address, and relevant transactions in block order |
| `FilterScan.FullStopsAt` | chain/bitcoind_client.go:888-927 | The full scan stops at the first block that cannot be fetched, with that error, or that has a relevant transaction; otherwise it finds nothing |
| `FilterScan.CompactStopsAt` | chain/btcd.go:319-397 | The compact-filter scan passes over short, empty and non-matching filters and blocks without a relevant transaction, and stops at the first other block, with the error that applies or a response |
| `FilterScan.MatchHasWatchedScript` | chain/btcd.go:335-376 | Under those assumptions a block with a relevant transaction has a watched script in its filter's contents |
| `FilterScan.FullScanFindsFirst` | chain/bitcoind_client.go:888-927 | The full scan returns the first block with a relevant transaction, with that block's findings, or nothing when no block has one |
| `FilterScan.NonCanonicalOutputIsMissed` | chain/neutrino.go:327-365 | The canonical-script assumption is needed: a request, with a filter that misses none of its block's scripts, for which the full scan finds the block and the compact scan finds nothing |
| `FilterScan.FullScan` | chain/bitcoind_client.go:888-927 | The loop with one reused filterer computes the scan specified block by block, including the error for a block that cannot be fetched |
| `FilterScan.CompactScan` | chain/btcd.go:319-397 | The loop skips empty filters and non-matching blocks, and fails for an address without a script, an unavailable or malformed filter, a failed match or a missing block, as specified |
| `FilterScan.BuildWatchList` | chain/neutrino.go:327-365 | The watch list holds exactly the scripts of the external, internal and outpoint addresses; it fails exactly when one has no script |
| `FilterScan.AppendScripts` | chain/neutrino.go:337-362 | Appends the script of every address, in any order, or fails exactly when one has none |
| `FilterScan.FilterOne` | chain/bitcoind_client.go:895-921 | One block through a still fresh filterer: hit exactly when the block has a relevant transaction, and otherwise still fresh |
| `LocalMempool.SpenderIsLastAdded` | chain/mempool.go:58-99 | Over every run of adds, cleans, marks and sweeps, the index names t as spender of an outpoint exactly when t was the last added spender of it and has stayed tracked since |
| `LocalMempool.StepSpends` | chain/mempool.go:200-344 | One operation: an added spender takes the outpoint; otherwise an entry stays exactly as long as its spender is tracked |
| `LocalMempool.RunClosed` | chain/mempool.go:262-276 | After every run each indexed spender is a tracked transaction |
| `LocalMempool.AddMeans` | chain/mempool.go:262-276 | Adding is refused exactly for a transaction whose only input is the null outpoint; otherwise it is tracked, marked and, when the index is kept, the spender of all its inputs |
| `LocalMempool.MarkingMeans` | chain/mempool.go:281-344 | What unmarking, marking and sweeping do to one transaction |
| `LocalMempool.WithInputsAt` | chain/mempool.go:363-376 | Indexing a transaction's inputs makes it the spender of exactly those outpoints |
| `LocalMempool.CachedInputs.AddInput` | chain/mempool.go:58-88 | Adding or replacing a spender keeps both directions of the index consistent and sets just that entry |
| `LocalMempool.CachedInputs.RemoveInputsFromTx` | chain/mempool.go:90-105 | Removing a transaction filters out exactly its entries, in both directions |
| `LocalMempool.Mempool.constructor` | chain/mempool.go:167-186 | An empty mempool, indexed exactly when the backend has no previous-output lookup |
| `LocalMempool.Mempool.ContainsInput` | chain/mempool.go:249-258 | Answers from the index exactly as the plain map from outpoint to spender would |
| `LocalMempool.Mempool.AddTx` | chain/mempool.go:262-276 | Tracks a non-coinbase transaction and indexes its inputs; a coinbase changes nothing |
| `LocalMempool.Mempool.CleanTxs` | chain/mempool.go:200-214 | Drops the transactions and their index entries |
| `LocalMempool.Mempool.UnmarkTxs` | chain/mempool.go:293-299 | Clears every mark, touching nothing else |
| `LocalMempool.Mempool.MarkTx` | chain/mempool.go:312-320 | Marks a transaction only if it is tracked |
| `LocalMempool.Mempool.DeleteUnmarked` | chain/mempool.go:333-346 | Drops exactly the unmarked transactions with their index entries |
| `LocalMempool.Mempool.UpdateInputs` | chain/mempool.go:363-376 | Makes the transaction the spender of all its inputs when the index is kept |
| `LocalMempool.Mempool.RemoveInputs` | chain/mempool.go:350-358 | Filters out the transaction's entries when the index is kept |
| `MempoolPoll.SweepDeletesExactly` | chain/mempool.go:426-478 | In every interleaving with other callers, a sweep deletes exactly what was held at the unmark step, is not in the snapshot, and was neither added again nor cleaned in between |
| `MempoolPoll.InvRun` | chain/mempool.go:200-344 | In every interleaving the unmarked transactions during a poll are exactly those held at the unmark and since then neither added, cleaned nor marked |
| `MempoolPoll.PollRequests` | chain/mempool.go:505-605 | Without backend errors and duplicates, each unseen id is requested exactly once, in snapshot order, in full batches except perhaps the last |
| `MempoolPoll.PollReturns` | chain/mempool.go:505-605 | A poll returns, once each, exactly the transactions of the snapshot that were not held and that the backend has |
| `MempoolPoll.PollTracks` | chain/mempool.go:426-478 | A poll leaves tracked exactly (held ∩ snapshot) ∪ fetched |
| `MempoolPoll.UpdateMempoolTxes` | chain/mempool.go:426-478 | Unmark, scan, sweep and fetch: the new pool, the returned transactions and the batches sent, also when sending a batch fails |
| `MempoolPoll.ScanAndSweep` | chain/mempool.go:436-468 | Keeps what the snapshot still has and lists the unseen ids in order |
| `MempoolPoll.BatchGetRawTxes` | chain/mempool.go:505-605 | Concatenated batches are the ids, or on failure a proper prefix; every batch but the last is full; replies are tracked as they arrive |
| `MempoolPoll.SendBatch` | chain/mempool.go:570-590 | One batch appended to those sent and all its replies received |
| `MempoolPoll.ProcessBatch` | chain/mempool.go:526-554 | Every receiver of a batch is answered exactly once, in some order; received transactions are tracked and returned, errors are skipped |
| `PrunedDispatcher.RunKeepsInv` | chain/pruned_block_dispatcher.go:555-767 | Every interleaving of requests, responses and cancels keeps, per channel and hash: registrations = pending + handed to delivery + dropped by cancel |
| `PrunedDispatcher.DeliveriesFitBuffer` | chain/pruned_block_dispatcher.go:555-610 | In every run the deliveries handed to a reply channel never exceed its buffer |
| `PrunedDispatcher.CancelReachesDependents` | chain/pruned_block_dispatcher.go:724-767 | Each pending hash has a cancel channel for every waiter beyond the first, so a cancel reaches all of them; any other channel it reaches is that of a waiter that had joined a request for the hash and was handed the block already |
| `PrunedDispatcher.CancelReachesOnlyCurrent` | chain/pruned_block_dispatcher.go:686-700 | In every run a cancel of a pending hash reaches the dependent waiters and nobody else if and only if no response since the last cancel of the hash found more than one waiter |
| `PrunedDispatcher.StaleChannelReached` | chain/pruned_block_dispatcher.go:686-700 | A run after which a hash with a single waiter has the cancel channel of a waiter already served |
| `PrunedDispatcher.RequestKeepsInv` | chain/pruned_block_dispatcher.go:555-610 | A request, complete or cut short by an error, keeps the balance and the buffer bound |
| `PrunedDispatcher.RespondKeepsInv` | chain/pruned_block_dispatcher.go:642-717 | A response keeps them although it leaves cancel channels behind |
| `PrunedDispatcher.CancelKeepsInv` | chain/pruned_block_dispatcher.go:724-767 | A cancel keeps them |
| `PrunedDispatcher.NewHashesAre` | chain/pruned_block_dispatcher.go:571-593 | The first occurrences of hashes that are not pending list each such hash exactly once |
| `PrunedDispatcher.NewHashesByPosition` | chain/pruned_block_dispatcher.go:571-593 | And in the order of their first occurrence |
| `PrunedDispatcher.RequestOpens` | chain/pruned_block_dispatcher.go:555-610 | A request opens one reply channel whose buffer is the number of its blocks, and registers as many when it completes |
| `PrunedDispatcher.Dispatcher.NewRequest` | chain/pruned_block_dispatcher.go:555-610 | With MaxRequestInvs from 1 to the message limit, for any input: the lists concatenate to the first occurrences of hashes not already pending, in order; each is non-empty and all but the last have exactly MaxRequestInvs entries |
| `PrunedDispatcher.Dispatcher.RegisterBlocks` | chain/pruned_block_dispatcher.go:571-607 | The loop of a request, which registers every block and fills and flushes the inventory list |
| `PrunedDispatcher.Dispatcher.RegisterBlock` | chain/pruned_block_dispatcher.go:576-593 | Adds one waiter; only a waiter that joins a pending block adds its cancel channel |
| `PrunedDispatcher.Dispatcher.HandleResp` | chain/pruned_block_dispatcher.go:621-718 | Progress exactly for a sane pending block in answer to a block request; delivers to every waiter in order; finished exactly when nothing of the request is pending any more |
| `PrunedDispatcher.Dispatcher.CancelRequest` | chain/pruned_block_dispatcher.go:724-767 | Forgets the block and fails every dependent waiter |
| `PrunedDispatcher.Dispatcher.constructor` | chain/pruned_block_dispatcher.go:188-213 | A new dispatcher has no pending block |
| `ConcurrentQueue.RunFifo` | chain/queue.go:46-82 | In every run, delivered then held items are the accepted items in order until quit; what is delivered is always a prefix of what was accepted |
| `ConcurrentQueue.FifoNext` | chain/queue.go:50-80 | Each branch of the select loop keeps this; quitting loses at most the one item in flight |
| `ConcurrentQueue.CanAcceptAndDeliver` | chain/queue.go:50-80 | A running queue accepts any item and can deliver its first item to a ready consumer; after quitting the buffer can still be received |
| `NotificationHandler.RunInv` | chain/btcd.go:495-568 | In every run of the handler: delivered then queued is what was accepted; `next` is the queue head whenever dequeue is enabled; the served block is the last delivered connect or the initial best block; a handler that ends on closed input has delivered everything |
| `NotificationHandler.InvNext` | chain/neutrino.go:737-819 | Each branch of the select loop keeps this |
| `NotificationHandler.CanAcceptAndDeliver` | chain/btcd.go:518-562 | In every run a running handler accepts a notification while its input is open, and delivers the oldest one it holds to a ready consumer |
| `NotificationHandler.LastConnectedMeans` | chain/btcd.go:537-543 | The served block is the last connected one by position |
| `AddressIndex.RunKeepsInv` | waddrmgr/scoped_manager.go:1088-1491 | Over every run of committed or rolled-back transactions in which, on each branch, extensions come before at most one request for new addresses, and no extension is rolled back: the indices stored on a branch are exactly the valid ones below its next index, each once, and cached and database next indices agree |
| `AddressIndex.RunFromNewAccount` | waddrmgr/scoped_manager.go:1088-1491 | In particular over every such run on a new account |
| `AddressIndex.TxKeepsInv` | waddrmgr/scoped_manager.go:1266-1300 | One such transaction keeps this; a rollback leaves the database as it was and the cache in agreement with it |
| `AddressIndex.NextIsFresh` | waddrmgr/scoped_manager.go:1136-1201 | The n addresses handed out are the next n valid indices of the branch, none of them stored before |
| `AddressIndex.NextFailsIff` | waddrmgr/scoped_manager.go:1115-1166 | nextAddresses fails exactly when the uint32 limit check does, or else when a derivation fails before enough valid children are found, and with which error |
| `AddressIndex.ExtendFailsIff` | waddrmgr/scoped_manager.go:1343-1393 | extendAddresses does nothing below the next index, and otherwise fails exactly above the limit or when a derivation on the way does |
| `AddressIndex.ExtendCovers` | waddrmgr/scoped_manager.go:1345-1447 | A successful extension stores every valid index up to the last index asked for |
| `AddressIndex.ChildrenExact` | waddrmgr/scoped_manager.go:1136-1201 | Deriving n children yields exactly the valid indices passed over, skipping invalid ones |
| `AddressIndex.ChildrenThroughExact` | waddrmgr/scoped_manager.go:1367-1429 | So does deriving until the next index passes the last one asked for |
| `AddressIndex.PutKeepsExact` | waddrmgr/db.go:1722-1812 | Writing such a run one address at a time keeps the row exact and moves its next index to the end of the run |
| `AddressIndex.RepeatsIffAfterNext` | waddrmgr/scoped_manager.go:1107-1113 | Over any calls in one transaction, from any state: some index of a branch is handed out twice if and only if some call returns indices of the branch after a nextAddresses call on it returned some |
| `AddressIndex.TwoCallsOverlap` | waddrmgr/scoped_manager.go:1107-1113 | Two calls in a row that both return indices of a branch overlap if and only if the first is nextAddresses |
| `AddressIndex.SecondCallRepeats` | waddrmgr/scoped_manager.go:1107-1113 | A second nextAddresses call of the same size returns the very same indices |
| `AddressIndex.TwoRequestsRepeat` | waddrmgr/scoped_manager.go:1107-1113 | An instance: on a new account two requests for one address both return index 0 |
| `AddressIndex.PanicsIffNoneAsked` | waddrmgr/scoped_manager.go:1290-1300 | A commit panics if and only if some successful nextAddresses call of the transaction was for no addresses |
| `AddressIndex.RolledBackExtendDisagrees` | waddrmgr/scoped_manager.go:1464-1490 | After a rolled-back extension the cached next index agrees with the database if and only if the extension had nothing to do |
| `AddressIndex.ScopedManager.Next` | waddrmgr/scoped_manager.go:1088-1303 | The loops compute the specified state, result and pending closure for any number of addresses, none included, with the uint32 wrap of the limit check |
| `AddressIndex.ScopedManager.Extend` | waddrmgr/scoped_manager.go:1312-1491 | The loops compute the specified state and result; the cache moves at once |
| `AddressIndex.ScopedManager.FindChild` | waddrmgr/scoped_manager.go:1146-1166 | Finds the least index from a start that is not an invalid child |
| `AddressIndex.ScopedManager.DeriveNext` | waddrmgr/scoped_manager.go:1136-1201 | Collects n valid children, or fails if a derivation fails otherwise |
| `AddressIndex.ScopedManager.DeriveThrough` | waddrmgr/scoped_manager.go:1367-1429 | Collects valid children until the next index passes the last one asked for |
| `AddressIndex.ScopedManager.PutAddresses` | waddrmgr/scoped_manager.go:1203-1218 | Writes the addresses in turn; the account row's next index follows the last |
| `AddressIndex.ScopedManager.LoadNext` | waddrmgr/scoped_manager.go:504-646 | The cached next index, loaded from the running transaction when there is none |
| `AddressIndex.ScopedManager.CommitTx` | waddrmgr/scoped_manager.go:1266-1300 | The database takes the transaction's rows and the closures run in order; when one panics the rows are in the database all the same |
| `RowCodec.AccountRoundTrip` | waddrmgr/db.go:708-972 | For all field values whose encoding is shorter than 2^32 bytes, decoding an encoded account row through both layers gives the row back: default, and watch-only with or without a schema |
| `RowCodec.AddressRoundTrip` | waddrmgr/db.go:1342-1593 | The same for chained, imported, script, witness script and taproot-versioned address rows |
| `RowCodec.DefaultDecodes` | waddrmgr/db.go:747-821 | A default account decodes from exactly those raw data that begin with its serialization |
| `RowCodec.EncodedAccountLayout` | waddrmgr/db.go:732-743 | An encoded account: kind 0 or 1, the length of the raw data, the raw data |
| `RowCodec.DefaultRawLayout` | waddrmgr/db.go:790-819 | The raw data of a default account, field by field: the two keys, external index, internal index, name |
| `RowCodec.WatchOnlyRawLayout` | waddrmgr/db.go:904-945 | The raw data of a watch-only account: key, fingerprint, then the rest |
| `RowCodec.WatchOnlyTailLayout` | waddrmgr/db.go:945-972 | The rest: external index, internal index, name, schema flag and, if set, the internal and external address types |
| `RowCodec.EncodedAddressLayout` | waddrmgr/db.go:1369-1385 | An encoded address: its kind, account, eight-byte time, sync status and raw data with its length |
| `RowCodec.ChainedLayout` | waddrmgr/db.go:1411-1420 | The raw data of a chained address |
| `RowCodec.TwoFieldsLayout` | waddrmgr/db.go:1456-1525 | The raw data of imported and script addresses |
| `RowCodec.WitnessLayout` | waddrmgr/db.go:1568-1593 | The raw data of a witness script address |
| `RowCodec.WatchOnlyRoundTrip` | waddrmgr/db.go:823-972 | The inner layer of watch-only accounts |
| `RowCodec.OuterRoundTrip` | waddrmgr/db.go:708-743 | The outer layer of account rows, for every kind and raw data |
| `RowCodec.DecodedAccountFits` | waddrmgr/db.go:708-972 | A row decoded from fewer than 2^32 bytes encodes into no more bytes than it came from, so it can always be written back |
| `RowCodec.AddressInnerRoundTrip` | waddrmgr/db.go:1389-1593 | The inner layer of every kind of address |
| `RowCodec.AddressReads` | waddrmgr/db.go:1342-1385 | The outer layer of address rows |
| `RowCodec.LERoundTrip` | waddrmgr/db.go:732-743 | A little-endian number of k bytes is read back as written |
| `RowCodec.LECanonical` | waddrmgr/db.go:722-724 | Every k bytes are the encoding of the number read from them |
| `RowCodec.ReadFieldMeans` | waddrmgr/db.go:764-784 | A length-prefixed field is read exactly when its length and bytes lie at the offset, with uint32 offsets and a panic out of bounds |
| `RowCodec.ScopeBucket.PutChainedAddress` | waddrmgr/db.go:1722-1812 | Stores the address row and changes exactly one next index of one account row, byte for byte decodable, and nothing else; with a malformed account row the address is stored and the error returned |
| `RowCodec.ScopeBucket.PutAddress` | waddrmgr/db.go:1696-1718 | Stores one address row that decodes to what was written |
| `RowCodec.ScopeBucket.BumpAccount` | waddrmgr/db.go:1743-1809 | The decoded row afterwards has, for branch 1, the internal next index set to index + 1 and nothing else changed, and for any other branch the external one; the index wraps to 0 at 2^32 - 1 |
| `Accounts.RunRefines` | waddrmgr/scoped_manager.go:1689-1972 | Every run of account creation and renaming below MaxAccountNum answers each operation, error or number, as one map from number to name would, and keeps the indexes, the numbering and the cached names right |
| `Accounts.LookupsAreInverse` | waddrmgr/db.go:1160-1199 | In every such run from a created scope the name index and the id index are mutual inverses agreeing with the name in each row, and the numbers are exactly 0 to last and the imported account |
| `Accounts.StepRefines` | waddrmgr/scoped_manager.go:1724-1799 | One operation keeps the invariant and does to the names what the reference map does |
| `Accounts.WatchingNeedsRoom` | waddrmgr/scoped_manager.go:1811-1888 | Creating a watch-only account, which does not check the number, keeps the invariant if and only if the last account is below the maximum or the call is refused |
| `Accounts.WatchingOverwritesImported` | waddrmgr/scoped_manager.go:1811-1846 | The bound can be passed: some run of allowed operations ends at the maximum, and then the call succeeds under the imported account's number and breaks the indexes |
| `Accounts.NewStopsAtMaximum` | waddrmgr/manager.go:1475-1488 | Creating an account with keys is refused at the maximum |
| `Accounts.NewMeans` | waddrmgr/scoped_manager.go:1689-1799 | When creating an account succeeds, with which error it fails, and that the new row has the keys given, next indices 0 and the next number, and nothing else changes |
| `Accounts.NewWatchingMeans` | waddrmgr/scoped_manager.go:1811-1888 | The same for watch-only accounts, with fingerprint and schema |
| `Accounts.RenameMeans` | waddrmgr/scoped_manager.go:1893-1972 | When a rename succeeds, with which error it fails, and everything it changes |
| `Accounts.RenameKeepsRest` | waddrmgr/scoped_manager.go:1893-1972 | A rename changes nothing but the name of one account: keys, next indices and other rows stay |
| `Accounts.ImportedStays` | waddrmgr/manager.go:89-97 | In every such run the imported account keeps its row and name |
| `Accounts.CreatedInv` | waddrmgr/manager.go:1761-1773 | A newly created scope has the default and the imported account and satisfies the invariant |
| `Accounts.ScopedAccounts.NewAccount` | waddrmgr/scoped_manager.go:1689-1799 | Performs the specified creation in place, with the source's order of checks |
| `Accounts.ScopedAccounts.NewAccountWatchingOnly` | waddrmgr/scoped_manager.go:1811-1888 | Performs the specified watch-only creation in place |
| `Accounts.ScopedAccounts.RenameAccount` | waddrmgr/scoped_manager.go:1893-1972 | Removes the old index entries, writes the row and both new entries, and renames the cached account |
| `Accounts.ScopedAccounts.PutAccountInfo` | waddrmgr/db.go:1303-1317 | Writes the row and both index entries |
| `Accounts.ScopedAccounts.constructor` | waddrmgr/manager.go:1761-1773 | The buckets of a created scope |
| `BlockWindow.RunKeepsWindow` | waddrmgr/db.go:2208-2249 | In every run of calls one above or one below the tip, the heights stored are exactly 0 and max(1, M-9999) to M for the highest height M reached, and the heights below genesis that were reached, which the call does not refuse; the next height always succeeds, and a rollback succeeds exactly while the window reaches genesis or two stored heights lie below the tip |
| `BlockWindow.InvStep` | waddrmgr/db.go:2208-2249 | One call keeps this, and is refused exactly when it rolls back further than that |
| `BlockWindow.StoreIsBounded` | waddrmgr/db.go:2234-2242 | At most MaxReorgDepth + 1 hashes are ever stored, besides those below genesis |
| `BlockWindow.RefusedMeans` | waddrmgr/db.go:2211-2227 | A hash is refused exactly when the birthday block is set, the height is above genesis and the height below is missing; before the birthday block is set none is |
| `BlockWindow.StoredMeans` | waddrmgr/db.go:2229-2242 | Storing a hash drops exactly the height 10000 below it, unless that is genesis or lower |
| `BlockWindow.MigrationYieldsWindow` | waddrmgr/migrations.go:391-420 | The migration turns a full store 0..tip into that form |
| `BlockWindow.RunsMayStart` | waddrmgr/migrations.go:391-420 | Genesis and a migrated store both satisfy the invariant |
| `BlockWindow.SyncBucket.PutSyncedTo` | waddrmgr/db.go:2208-2249 | Refused exactly when the height below is missing once the birthday block is set; otherwise stores the hash, drops the stale height and moves the tip, and no other hash changes |
| `BlockWindow.SyncBucket.StoreMaxReorgDepth` | waddrmgr/migrations.go:391-420 | The descending loop removes exactly the heights from 1 to the stale height |
| `CoinSelection.NoFewerCoinsReach` | wallet/createtx.go:580-601 | For arranged coins of non-negative value and any sequence of calls, no pick of fewer eligible coins reaches the greatest target asked |
| `CoinSelection.TakenIsShortest` | wallet/createtx.go:26-58 | After any sequence of calls with any targets the coins handed out are the shortest prefix reaching the greatest target so far, or all coins |
| `CoinSelection.PrefixIsBest` | wallet/createtx.go:580-601 | Any pick of coins is worth at most as many coins from the front of the arranged list |
| `CoinSelection.GreatestMeans` | wallet/createtx.go:36-37 | The greatest target asked, counting zero, is at least every target and is one of them |
| `CoinSelection.InputSource.Call` | wallet/createtx.go:34-57 | The total, inputs, values and scripts returned all describe the same prefix, and the total is its sum |
| `CoinSelection.InputSource.constructor` | wallet/createtx.go:26-34 | A source that has handed out nothing |
| `CoinSelection.ArrangeCoins` | wallet/createtx.go:580-601 | Sorts in place by descending value: sorted and a permutation |
| `Sorting.SortedIsUnique` | wallet/autorenew.go:436-441 | When no two different elements tie there is only one sorted arrangement |
| `AutoRenew.RunTakesMostUrgent` | wallet/autorenew.go:333-448 | An enabled, validated run with something eligible takes the greatest number of outputs, at least 1, that the count, MaxUtxosPerRun and a set budget allow, ordered by blocks left and then outpoint text; every eligible output left out has at least as many blocks left as every one taken, and on a tie does not come before it |
| `AutoRenew.SelectForRenewal` | wallet/autorenew.go:333-362 | A run renews the first k of the eligible outputs in order of urgency |
| `AutoRenew.RunWithinBudget` | wallet/autorenew.go:78-185 | For an enabled, validated configuration with something eligible, k is at least 1 and is the least of the count, MaxUtxosPerRun and budget/amount when a budget is set; k x amount never exceeds a set budget |
| `AutoRenew.NoneSkippedIsMoreUrgent` | wallet/autorenew.go:436-447 | Of the first k in that order, anything left out has more blocks left, or as many and an outpoint text that does not come before |
| `AutoRenew.OrderIndependent` | wallet/autorenew.go:390-448 | The result does not depend on the order in which unspent outputs arrive |
| `AutoRenew.EligibleOfPermutation` | wallet/autorenew.go:402-434 | Permuted outputs give permuted candidates |
| `AutoRenew.EligibleFrom` | wallet/autorenew.go:402-434 | The candidates collected are exactly those of the outputs |
| `AutoRenew.AcceptedMeans` | wallet/autorenew.go:78-127 | Exactly which configurations are accepted |
| `AutoRenew.UrgencyMeans` | wallet/autorenew.go:436-441 | The order used: fewer blocks left first, and on a tie the outpoint text that is a prefix or has the smaller character at the first difference |
| `AutoRenew.EligibleMeans` | wallet/autorenew.go:402-434 | An output is eligible exactly when it is confirmed, worth more than the amount, in the renewal window, and its projected reclaim is not negative after the int64 wrap |
| `AutoRenew.HugeOutputIsSkipped` | wallet/expiry_policy.go:94-96 | A validated configuration and an output in the window that is skipped because the projected reclaim wraps |
| `AutoRenew.MoreUrgentIsOrder` | wallet/autorenew.go:436-441 | That order is total up to ties |
| `AutoRenew.BuildCandidates` | wallet/autorenew.go:390-448 | Collects, sorts and truncates: the first MaxUtxosPerRun of the sorted eligible outputs |
| `Expiry.ExpiryHeightExact` | wallet/expiry.go:53-67 | An accepted expiry height is the true sum if and only if the sum fits int32; between the int32 and uint32 bounds it is negative and the output counts as expired at every tip |
| `Expiry.StatesMoveForward` | wallet/expiry.go:69-136 | As the tip grows the status moves only ok, expiring, expired, and the renewal risk only forward to expired |
| `Expiry.ExpiredTogether` | wallet/expiry.go:139-186 | Status and risk are expired exactly when BlocksToExpiry is 0, and BlocksToExpiry counts down to the expiry height |
| `Expiry.StatusMeans` | wallet/expiry.go:69-82 | Exactly when the status is expired, expiring or ok |
| `Expiry.RiskMeans` | wallet/expiry.go:91-136 | Every field of the renewal view: the latest renew height, the blocks until it, and exactly when each risk and warning applies |
| `Expiry.InfoMeans` | wallet/expiry.go:152-186 | Every field of the expiry view, and exactly when each error is returned |
| `Expiry.BarredMeans` | wallet/expiry.go:193-212 | Exactly when an output is barred from spending |
| `Expiry.BarredIffNotRenewable` | wallet/expiry.go:193-212 | Once expiry is active with the same window, an output is barred from spending exactly when a renewal can no longer be included in the next block |

## Left out

- The rescan loop of the bitcoind client, matching of single transactions against its watch lists, and its map of
  confirmed transactions by height; block timestamps only as carried by notifications.
- Notifications suppressed by the client's own flags: every block is assumed to be announced.
- Polling for a missing compact filter and its retry errors (chain/neutrino.go): a filter is available, unavailable or
  malformed.
- The per-scope nesting of the found-index maps: they are one set of scoped indices.
- Shutdown checks during a mempool poll, two polls at once, and the pause between batches.
- The channel sends of deliveries and cancels: the model has which channels are served, not when a receiver takes the
  value or that a send stops at shutdown.  A dispatcher configured above the message limit does not exist in the model,
  as its constructor refuses.
- Fees, peers, banning and timeouts around the pruned block dispatcher.
- `PrunedDispatcher.Dispatcher.NewRequest`: the inventory clauses need MaxRequestInvs of at least 1, as the source
  checks only the upper bound; registration is stated without it.
- `MempoolPoll.PollReturns`: assumes the backend answers a request for an id with a transaction of that id or an error.
- Key derivation, encryption, locking and zeroing: a child index is valid, invalid or fails otherwise, and account keys
  are made or not.  The search for a valid child is assumed to end: no index past the hardened boundary is an invalid
  child.
- `AddressIndex.RunKeepsInv`: nothing on a branch after a request for new addresses in the same transaction, no request
  for none, and no extension rolled back; the lemmas beside it show what happens otherwise.  Which closures ran before a
  panicking one, and so the cache after it, is not modelled.
- Reading each new address back, the address cache, the list of addresses to derive on unlock, and taproot script rows,
  which use a format of another library.
- The address-to-account index written beside each address row.
- A slice that ends beyond the length of a database value but within its capacity: every slice out of bounds panics.
- `Accounts.RunRefines`: accounts created by explicit number and whole new scopes can reuse numbers and are not
  operations of a run; a watch-only account is created only below the maximum number.  A cached name is not undone when
  the transaction of a rename is rolled back.
- `BlockWindow.RunKeepsWindow`: moves of one height, with the birthday block set; the sync time and block hashes after
  `disconnectBlock` (which stores an empty hash) are not claimed.  Heights are unbounded integers.  Its callers never
  roll back below genesis, because they look up the hash below first (wallet/chainntfns.go:282-298).
- `CoinSelection.TakenIsShortest`: totals are unbounded integers, so an int64 sum past 2^63 is not modelled.
- Go's sort is represented by an in-place insertion sort: any sorted permutation satisfies the statements.  Random coin
  selection is not modelled.
- `Expiry.ExpiredTogether`: heights are non-negative and the sum fits int32, as `Expiry.ExpiryHeightExact` shows is
  needed; the chain's expiry key of an output is its creation height plus the window.
- Renewing the selected outputs, the back-off timer and the scheduler's fields; reading the configuration of the expiry
  policy.
- Transaction building, signing, fees, PSBT, the transaction store, RPC servers, networking, configuration and logging.
