# electrum-go: index, reorganisations, mempool and proofs, verified

electrum-go keeps a scripthash, UTXO and history index over a key-value store, follows a Bitcoin node whose best chain
can reorganise, and lays an unconfirmed mempool over the confirmed rows. This project models that core in Dafny and
proves what it is for: the rows always replay the current chain, the chain manager converges on Core's chain, the
mempool's derived indexes never drift from the transactions held, and what clients are told adds up.

`dafny verify dfyconfig.toml` checks every file.

## How the model is laid out

| file | what it holds |
|---|---|
| `Types`, `Store` | transactions, blocks, the keyspaces as one map each, write batches as edit lists applied in order |
| `Indexing`, `Replay`, `HistoryRows` | what one block writes, what its undo record restores, and the rows of a whole chain |
| `Outputs` | which outputs are found at all, said of values and script bytes alone |
| `TxStore` | blob, offsets and positions of raw transactions |
| `Indexer` | `IndexBlock` as nested loops over a batch, with the overlay updated on the way |
| `ChainSync`, `Reorg`, `Runs` | a store in step with a chain; reorganisation; every run of index, rollback and prune steps |
| `Manager`, `Following` | the chain manager; every run of its calls against a Core that changes from call to call |
| `Overlay`, `Mempool`, `OverlayRuns` | the overlay as a value, as a heap class with aliased output cells, and every run of it |
| `Sums`, `Balance`, `Queries`, `HistoryQuery` | balance, unspent list and history of a scripthash |
| `Confirm`, `Consistency` | a block that confirms held transactions; what keeps overlay and rows consistent |
| `Attribution`, `Statuses`, `Unreported` | whose outputs the rows and the overlay say they are; affected scripthashes and the status cache; what it is not told |
| `Keys`, `UndoCodec`, `Merkle`, `Gaps`, `Subscriptions` | key order and prefix ranges, the undo record's bytes, Merkle branches, gap repair, subscriptions |

A *ledger* (`Reorg.Ledger`) is the specification's view of what has been indexed: a chain of blocks from a start height,
each with the order in which its history rows happened to be numbered, and the lowest height whose undo record is kept.
The methods take it as a ghost argument and return the new one. Core is a sequence of blocks, fixed during one call.
A *node* (`Manager.Node`) is a chain manager's store, overlay and memory at one moment; predicates such as `Processed`
and `CaughtUp` relate the nodes and ledgers before and after a call, and the methods' contracts state them. `Unfolds`
and `UnfoldsAt` are predicates without content: naming one in a proof unfolds a definition that is otherwise left
folded.

Assumptions, wherever they are used, are preconditions: transaction ids are new along a chain from its start height on
(BIP 30, BIP 34; `Fresh`, `UniqueTxids`, `Following.NoneTwice`); an outpoint is spent by at most one block
(`SpentOnce`); a block hash stands for one block (`Identified`, `Following.Blocks`) and a transaction id for one list
of inputs and outputs (`Attribution.Universe`); a block spends outputs of its own or of the chain's that no block has
spent, or older ones (`Attribution.SpendsWell`), and its first transaction is its coinbase; Core's chain is
hash-linked with 80-byte headers (`Sound`); the store is anchored at a start height of at least 1 (`Tracks`).

## Where the code departs from the ideal

The model follows the code. Each departure has a theorem, or a contract, that says when it bites.

- An output spent in the block that makes it keeps its row: `IdealWhenNoOwnSpends`.
- Rollback leaves positions, blobs and offsets behind. Transactions of the current chain are still served right
  (`SyncedTxFound`), but an orphaned one is answered with whatever lies at its old position in the block that took its
  height: `OrphanIsMisserved`, and exactly for every id and every run, `RunServes`.
- Rollback forgets the start height, after which a chain that left Core's below the start cannot be dropped any more
  unless it starts at 1: `DivergedBelowStart`.
- The checkpoint moves only after every per-block batch, so a rollback that meets a missing undo record part of the way
  down leaves checkpoint and memory on the old tip. That is the only way a run gets out of step: `RunStands`.
- If an empty ledger's anchor is orphaned, the checkpoint keeps the old hash while memory takes Core's: `MemoryAt`.
- On an unanchored store one pass of the catch-up loop changes nothing and asks for another: `FetchBlocks`.
- Removing a mempool child, or adding a parent late, leaves a wrong spent flag: `RemovedFlags`, `AddedFlags`, and a run
  that gets there, `StaleFlagRun`.
- A confirmed transaction that conflicts with a held one breaks the overlay's spend index: `ConfirmTxExact`.
- A reorganisation marks no status dirty, neither for the blocks that go nor for the cleared overlay:
  `ReorganisedUnreported`, `ClearIsUnreported`. Nor are the blocks fetched on the way to an announced one reported:
  `CaughtUpUnreported`.
- With a tip that is not Core's, the start-up check moves memory and checkpoint and undoes no block (`MoveTip`), after
  which the store is in step with no ledger at all: `MovedIsOutOfStep`.
- The upper bound of a prefix that ends in 0xff lets shorter keys in: `RangeExactWhen`.
- An undo record that ends in an output can lose up to 31 bytes unnoticed: `CutShort`.
- The Merkle branch omits the sibling of an unpaired node, so the plain fold of Electrum protocol 1.4 misses the root
  exactly then: `PlainFoldGivesRootWhen`.

## Model

| member | source | states |
|---|---|---|
| `Indexer.BlockIndexer.IndexBlock` | internal/indexer/block.go:29-274 | indexing commits exactly the rows, undo record, positions, blob, offsets and checkpoint of `IndexDb`, or nothing; it fails exactly for a negative height or a header that is not 80 bytes; the overlay becomes `ConfirmBlock` either way |
| `Indexer.BlockIndexer.SpendInputs` | internal/indexer/block.go:87-144 | the batch deletes the rows of every committed output the inputs spend, in input order, and the overlay loses those outpoints |
| `Indexer.BlockIndexer.CreateOutputs` | internal/indexer/block.go:146-192 | the batch adds UTXO and outpoint rows for exactly the outputs that are neither OP_RETURN nor zero |
| `Indexer.BlockIndexer.WriteHistory` | internal/indexer/block.go:194-224 | one history row per scripthash not yet listed for this txid, numbered on from the block's running index, in some order |
| `Indexing.RollbackInvertsIndex` | internal/indexer/block.go:65-247 | applying a block's undo record after the block gives back every row, if and only if the block made no row that was already there, other than one it also spends |
| `Replay.IndexKeepsAgreement` | internal/indexer/block.go:87-192 | indexing a block with new txids keeps: the outpoint row for o names sh exactly when the UTXO row (sh, o) exists |
| `Replay.RollbackIsReplay` | internal/indexer/reorg.go:250-337 | rolling back block n of a chain leaves exactly the rows of replaying the blocks below it |
| `Replay.UtxoRowsExact` | internal/indexer/block.go:87-192 | the UTXO rows of a chain are exactly its indexable outputs that no strictly later block spends, each with true value, height and block hash |
| `Replay.IdealWhenNoOwnSpends` | internal/indexer/block.go:96-104 | they are the ideal UTXO set if and only if no block spends an output of its own |
| `Replay.OwnSpendLeaks` | internal/indexer/block.go:96-104 | an output spent in its own block is a row although it is spent |
| `Outputs.OutputRows` | internal/indexer/block.go:87-192 | an output of a chain has its UTXO and outpoint rows if and only if it is worth something, its script is empty or begins with another byte than 0x6a, and no later block lists it as an input outside its first transaction; with its value, height and block hash, and under no other scripthash |
| `Outputs.RunOutputRows` | internal/indexer/block.go:87-192 | likewise at the end of every run of index, rollback and prune steps |
| `Outputs.PaidIsInHistory` | internal/indexer/block.go:146-224 | a transaction that pays a scripthash with such an output is in its history rows |
| `Outputs.AddedLists` | internal/indexer/mempool.go:152-176 | an added transaction lists exactly such outputs, at their positions, with their values, unspent |
| `Outputs.AddedRecords` | internal/indexer/mempool.go:95-150 | each of its inputs but null ones is recorded with the overlay's output, else the confirmed row, else as unknown, and filed as its spend |
| `Outputs.ConfirmedDrops` | internal/indexer/block.go:87-226 | confirming a transaction takes its own spends and outputs and the known outpoints it spends from the overlay, and nothing else |
| `Outputs.AffectedExact` | internal/indexer/writer.go:236-275 | a block collects exactly the scripthashes that it pays with such outputs or that the outpoint rows of its inputs name |
| `HistoryRows.HistoryExact` | internal/indexer/block.go:194-224 | a scripthash has a history row for (height, position) exactly when that transaction touches it |
| `HistoryRows.HistoryOnce` | internal/indexer/block.go:194-224 | no scripthash has two history rows for one transaction |
| `HistoryRows.TouchedMeaning` | internal/indexer/block.go:85-191 | a transaction touches the scripthashes of its indexable outputs and of the earlier blocks' live outputs it spends |
| `HistoryRows.NumberIsPosition` | internal/indexer/block.go:206-223 | a block numbers its history rows 0, 1, 2, ... in the order of its undo record |
| `HistoryRows.NumberingIsAllThatVaries` | internal/indexer/block.go:194-224 | two indexings of the same blocks differ only in the numbers of history rows |
| `TxStore.StoredIsFound` | internal/electrum/handlers.go:604-647 | slicing the stored blob by the stored offsets returns a transaction's bytes, if it ends below 2^32 |
| `TxStore.ServedByPosition` | internal/electrum/handlers.go:604-647 | whatever id is asked for, the answer is the transaction at its position in the blob at its height, or an error beyond the last |
| `ChainSync.SyncedTxFound` | internal/electrum/handlers.go:604-647 | in a store that is in step, this holds for every transaction of the current chain, whatever stale rows of orphaned blocks are left |
| `ChainSync.OrphanIsMisserved` | internal/electrum/handlers.go:604-647 | index a block, roll it back, index another at its height: the orphaned id is answered with the other block's transaction |
| `ChainSync.IndexKeepsSynced` | internal/indexer/block.go:29-274 | a block with new txids on top keeps rows, undo records and raw transactions in step with the chain |
| `ChainSync.RollbackKeepsSynced` | internal/indexer/reorg.go:250-337 | rolling back the tip leaves the store in step with the chain below |
| `ChainSync.PruneKeepsSynced` | internal/storage/storage.go:948-989 | pruning forgets undo records below a height and nothing else |
| `Reorg.ReorgHandler.RollbackBlock` | internal/indexer/reorg.go:250-337 | one batch undoes one block from its record; it fails exactly when the record is missing, and then changes nothing |
| `Reorg.ReorgHandler.GetOurBlockHash` | internal/indexer/reorg.go:160-199 | the checkpoint's hash, else that of the first undo record in key order at the height, else that of a well-formed header |
| `Reorg.OurHashIsLedgers` | internal/indexer/reorg.go:160-199 | in step, these give the indexed block's hash at exactly the indexed heights (and the checkpoint's) |
| `Reorg.ReorgHandler.FindForkPoint` | internal/indexer/reorg.go:114-158 | the loop finds the fork of `Fork`, and returns Core's hash there |
| `Reorg.ForkIsHighestCommon` | internal/indexer/reorg.go:114-158 | linked chains with different tips agree up to some height and nowhere above it; the search finds that height if it is at or above the boundary and within depth, and otherwise falls just below the boundary |
| `Reorg.AgreeBelow` | internal/indexer/reorg.go:121-139 | linked chains that agree at a height agree at every indexed height below |
| `Reorg.CommonExists` | internal/indexer/reorg.go:121-139 | the local chain always splits into a part Core shares and a part it does not |
| `Reorg.DivergedBelowStart` | internal/indexer/reorg.go:237-240 | a chain that left Core's below its start can be dropped if and only if the start height is still known or is 1, depth allows it, and nothing was pruned |
| `Reorg.ReorgHandler.RollbackBlocks` | internal/indexer/reorg.go:209-225 | blocks are undone down to the target exactly if no undo record in between is missing; else down to the lowest one; the store is the old one with just those blocks rolled back (`RolledBack`), positions, blobs and offsets untouched |
| `Reorg.ReorgHandler.RollbackToHeight` | internal/indexer/reorg.go:201-248 | success if and only if the records and a fork hash are there; then the store follows the cut chain with the checkpoint at the target, otherwise the checkpoint has not moved |
| `Reorg.ReorgHandler.CheckAndHandle` | internal/indexer/reorg.go:43-112 | success if and only if Core has the height and either the tip matches or the fork is reachable; result fields, new ledger, cleared overlay; a failure changes nothing, or stops at the lowest undo record exactly in the case `Halfway`; the store is the old one rolled back, up to the checkpoint |
| `Reorg.ReorgHandler.PruneOldUndoData` | internal/indexer/reorg.go:339-357 | exactly the undo records more than the maximal depth below the given height go, and their number is returned |
| `Manager.ChainManager.Connect` | internal/indexer/chain.go:109-120 | a connecting block extends the ledger, memory and checkpoint by one, with its history rows validly numbered |
| `Manager.ChainManager.FetchBlocks` | internal/indexer/chain.go:202-242 | one pass reaches the target exactly if Core has it and its chain continues memory's block, and else indexes all that Core has; if a block does not connect, exactly what the reorganisation check does (`Fetched`); on an unanchored store nothing changes |
| `Manager.ChainManager.CatchUpTo` | internal/indexer/chain.go:189-259 | terminates after at most one rollback; succeeds if and only if the target is reached already, or Core has it and the tip is Core's or the fork is reachable; whether it succeeds or not, ledger, memory, store and overlay are what `CaughtUp` says: nothing changed, or Core's blocks indexed up to the highest wanted one Core has, or a rollback that stopped half-way |
| `Manager.ChainManager.ProcessBlock` | internal/indexer/chain.go:104-187 | at which height the block is indexed, if at all (`HeightFor`), and in every case the whole outcome (`Processed`): appended, caught up and appended, left where the failed catch-up got to, or rolled back to the fork with memory, checkpoint, overlay and ledger there |
| `Manager.ChainManager.SetStartHeight` | internal/indexer/chain.go:564-595 | anchors memory and checkpoint at Core's block below the given height, only while no block is indexed |
| `Manager.AnchoredTracks` | internal/indexer/chain.go:578-590 | an anchored store without rows follows the empty ledger |
| `Manager.ChainManager.Initialize` | internal/indexer/chain.go:62-101 | an orphaned tip is rolled back to the fork and the overlay cleared, a tip of Core's changes nothing, and memory is at the checkpoint; every block left is Core's; it fails exactly when the check does |
| `Manager.ChainManager.PruneOldUndoData` | internal/indexer/chain.go:559-561 | pruning at the tip keeps the store in step and the last maxReorgDepth records (`Pruned`), and returns how many went |
| `Manager.LandedSame` | internal/indexer/reorg.go:92-107 | after a reorganisation every block left is Core's block at its height |
| `Manager.CaughtUpMeans` | internal/indexer/chain.go:189-259 | a catch-up that succeeds leaves memory and checkpoint both at Core's block at the target, with every indexed block Core's |
| `Manager.ProcessedMeans` | internal/indexer/chain.go:104-187 | the outcome of `Processed` fixes the height returned; the ledger stays hash-linked and the rows in step |
| `Following.MayProcess` | internal/indexer/chain.go:104-187 | with a block for each hash and no id twice along hash-linked blocks, every announcement meets the preconditions, whatever the best chain |
| `Following.CallKeeps` | internal/indexer/chain.go:104-259 | after a call store, memory and ledger are together again if and only if no reorganisation broke off half-way |
| `Following.RunStands` | internal/indexer/chain.go:104-259 | so over every sequence of announcements, catch-ups and prunings against changing best chains |
| `Following.FirstCall` | internal/indexer/chain.go:104-187 | announcing any block of Core's puts memory, store and ledger on Core's chain if and only if memory is on it already or the fork can be reached |
| `Following.RetryFollows` | internal/indexer/chain.go:157-186 | one retry is enough: after a second announcement the ledger is Core's chain up to that block at least |
| `Runs.RunKeeps` | internal/indexer/reorg.go:201-337 | over every run of index, rollback and prune steps the rows replay the current chain, so an orphaned branch leaves no trace |
| `Runs.DepthIsEnough` | internal/indexer/reorg.go:339-357 | if H is the highest tip at which pruning ran, a rollback to t goes through if and only if t >= H - maxReorgDepth - 1 (or t is the tip); so every reorganisation within depth from a tip at or above H does |
| `Runs.RunUtxos` | internal/indexer/block.go:87-192 | at the end of every run the UTXO rows are exactly the current chain's outputs that no later block spends |
| `Runs.RunTxFound` | internal/electrum/handlers.go:604-647 | at the end of every run of index, rollback and prune steps every transaction of the current chain is returned byte for byte |
| `Runs.RunServes` | internal/electrum/handlers.go:604-647 | and every other id is answered with what lies at the place where it was last indexed, in the block last indexed at that height |
| `Runs.OnlyTheChainMatters` | internal/indexer/reorg.go:43-112 | two runs that end on the same blocks hold the same rows up to the numbering of history rows |
| `Mempool.MempoolOverlay.AddTransaction` | internal/indexer/mempool.go:79-235 | a held or conflicting transaction changes nothing; any other is added as `Added` says, across four maps and aliased output cells |
| `Mempool.MempoolOverlay.RemoveTransaction` | internal/indexer/mempool.go:244-291 | the transaction, its filings, spends and outputs go, as `Removed` says; its scripthashes are returned |
| `Mempool.MempoolOverlay.RemoveOutput` | internal/indexer/mempool.go:293-301 | one outpoint goes from outputs and spends |
| `Mempool.MempoolOverlay.Clear` | internal/indexer/mempool.go:382-394 | the overlay is empty |
| `Mempool.MempoolOverlay.ReconcileWith` | internal/indexer/mempool.go:408-455 | exactly the transactions Core no longer holds go with their filings, spends and outputs, as `Reconciled` says, whatever the order; count and affected scripthashes are theirs |
| `Mempool.MempoolOverlay.IsOutputSpent` | internal/indexer/mempool.go:373-380 | whether a held transaction spends the outpoint |
| `Mempool.MempoolOverlay.GetScripthashTransactions` | internal/indexer/mempool.go:303-316 | the transactions filed under a scripthash |
| `Mempool.MempoolOverlay.GetBalance` | internal/indexer/mempool.go:339-371 | the sum, over the filed transactions, of unspent outputs minus recorded inputs |
| `Mempool.MempoolOverlay.GetUnspentOutputs` | internal/indexer/mempool.go:318-337 | each unflagged output to the scripthash once, at height 0 |
| `Overlay.AddedExact` | internal/indexer/mempool.go:180-226 | adding keeps the three indexes exactly those derived from the held transactions |
| `Overlay.RemovedExact` | internal/indexer/mempool.go:252-291 | so does removing |
| `Overlay.ReconciledExact` | internal/indexer/mempool.go:408-455 | so does reconciling, whose second pass then finds nothing left |
| `Overlay.IndexesDerived` | internal/indexer/mempool.go:16-25 | exact indexes are determined by the held transactions |
| `Overlay.AddedFlags` | internal/indexer/mempool.go:219-222 | adding keeps every spent flag right if and only if no held transaction spends one of the new outputs |
| `Overlay.FeeBalances` | internal/indexer/mempool.go:180-183 | a fee is never negative, and makes up the difference of the totals exactly if known inputs cover the outputs |
| `Overlay.RemovedFlags` | internal/indexer/mempool.go:271-274 | removing keeps every spent flag right if and only if no input came from a transaction that stays |
| `OverlayRuns.RunExact` | internal/indexer/mempool.go:79-291 | after any sequence of operations from the empty overlay the indexes are exact |
| `OverlayRuns.RunDerived` | internal/indexer/mempool.go:382-455 | so the held transactions determine the overlay, and no two share an input |
| `OverlayRuns.StaleFlagRun` | internal/indexer/mempool.go:271-274 | adding a parent, then its child, then removing the child is a run that ends on a wrong spent flag |
| `Balance.MempoolBalanceMeaning` | internal/indexer/mempool.go:339-371 | the mempool balance is unspent mempool outputs minus everything to the scripthash that the mempool spends |
| `Balance.BalanceShortfall` | internal/electrum/scripthash.go:92-190 | confirmed + unconfirmed is the unspent total minus twice the confirmed value spent in the mempool minus the mempool value spent there |
| `Balance.BalanceAgreesWhenNothingSpent` | internal/electrum/scripthash.go:92-190 | the totals agree if and only if no output of the scripthash is spent in the mempool |
| `Consistency.AddedConsistent` | internal/indexer/mempool.go:79-235 | adding a transaction with distinct inputs and no waiting child keeps overlay and rows consistent: recorded inputs are what resolving them finds |
| `Consistency.ConfirmedConsistent` | internal/indexer/block.go:87-226 | so does a block of held transactions and a coinbase |
| `Consistency.DroppedConsistent` | internal/indexer/mempool.go:244-291 | dropping transactions keeps them consistent if and only if no parent is parted from a child |
| `Consistency.ReconciledConsistent` | internal/indexer/mempool.go:408-455 | likewise reconciling with Core |
| `Consistency.AlwaysConsistent` | internal/electrum/scripthash.go:92-190 | so they are in every run in which children arrive after their parents, leave with them and are mined after them |
| `Queries.GetScripthashBalance` | internal/electrum/scripthash.go:92-136 | the two sums of the balance query |
| `Queries.GetScripthashUnspent` | internal/electrum/scripthash.go:138-190 | exactly the scripthash's rows that no held transaction spends, in key order with their values and heights, then exactly its unflagged mempool outputs at height 0, each once |
| `Queries.ScanSeesOuts` | internal/storage/keys.go:75-88 | a UTXO key lies in a scripthash's prefix range exactly if it is that scripthash's |
| `Queries.OutBeforeIsByteOrder` | internal/storage/keys.go:33-48 | that order is the byte order of the stored keys |
| `Queries.UnspentListTotal` | internal/electrum/scripthash.go:138-190 | the listed values add up to the unspent total |
| `HistoryQuery.ConfirmedHistory` | internal/electrum/scripthash.go:32-61 | the iterator loop, with its cache of txid lists, lists every row's transaction in key order, skipping unresolved and repeated ones |
| `HistoryQuery.CollectHistory` | internal/electrum/scripthash.go:14-73 | the confirmed part, then each filed mempool transaction that is not in it, once, at height 0 |
| `HistoryQuery.SortByHeight` | internal/electrum/scripthash.go:75-88 | a permutation in rising height, with every height-0 entry last; entries of one height in any order |
| `HistoryQuery.GetScripthashHistory` | internal/electrum/scripthash.go:14-90 | what was collected, in rising height with the mempool's entries last |
| `HistoryQuery.SortedHistoryOnChain` | internal/electrum/scripthash.go:14-90 | on a chain of positive heights, such a list is the confirmed part, up to the order within one height, and then the filed transactions not in it |
| `HistoryQuery.ScanSeesKeys` | internal/storage/keys.go:130-141 | a history key lies in a scripthash's prefix range exactly if it is that scripthash's |
| `HistoryQuery.HistoryInChainOrder` | internal/electrum/scripthash.go:32-61 | on a chain the confirmed part is exactly the transactions that touch the scripthash, once each, in (height, position) order |
| `HistoryQuery.BeforeIsByteOrder` | internal/storage/keys.go:90-109 | that order is the byte order of the stored keys |
| `Confirm.AddedMirrors` | internal/indexer/mempool.go:79-235 | an added transaction is held with its own inputs and its own indexable outputs |
| `Confirm.HeldAsAdded` | internal/indexer/mempool.go:79-291 | in every run of overlay operations a held transaction has exactly the inputs, outputs and scripthashes it was added with |
| `Confirm.ConfirmTxExact` | internal/indexer/block.go:142-226 | confirming a transaction keeps the overlay exact if and only if no known outpoint it spends belongs to another held transaction |
| `Confirm.ConfirmKeepsUnspent` | internal/electrum/scripthash.go:138-190 | a block of held transactions and a coinbase leaves every scripthash's unspent list with the same outpoints and values, plus the coinbase's outputs |
| `Confirm.ConfirmKeepsOverlay` | internal/indexer/block.go:87-226 | and leaves the overlay exact, its flags right, and disjoint from the confirmed rows |
| `Statuses.CollectAffectedScripthashes` | internal/indexer/writer.go:236-275 | the scripthashes of the block's indexable outputs and of its known inputs |
| `Attribution.AddedRight` | internal/indexer/mempool.go:79-235 | adding keeps every listed output and every held input attributed to the scripthash that its transaction pays |
| `Attribution.PendingRight` | internal/indexer/block.go:146-192 | indexing keeps every outpoint row so attributed |
| `Attribution.UnspentIsKnown` | internal/indexer/block.go:96-104 | an output of the chain that no block has spent has its outpoint row |
| `Statuses.HeldIsAffected` | internal/indexer/writer.go:236-275 | so a block collects every scripthash that its held transactions are filed under |
| `Statuses.BlockChangesOnlyAffected` | internal/indexer/writer.go:178-201 | a block changes the status of no scripthash that was not collected |
| `Statuses.OperationChangesOnlyReported` | internal/indexer/writer.go:203-220 | a mempool operation changes the mempool history of no scripthash it does not report |
| `Statuses.ReportedIsChanged` | internal/indexer/writer.go:203-220 | and of every one that it does |
| `Statuses.ComputeScripthashStatus` | internal/electrum/scripthash.go:192-212 | on whatever chain the rows replay, the status holds the transactions that touch the scripthash, once each, in chain order, and the filed ones not among them |
| `Statuses.ComputeScripthashStatusHex` | internal/electrum/server.go:445-462 | with a right cache the answer is that status, cached or not, and the cache stores it clean |
| `Statuses.StatusCache.GetIfClean` | internal/electrum/status_cache.go:19-29 | a stored status that is not dirty |
| `Statuses.StatusCache.SetClean` | internal/electrum/status_cache.go:31-38 | stores and cleans one entry |
| `Statuses.StatusCache.MarkDirtyMany` | internal/electrum/status_cache.go:48-55 | dirties exactly the listed entries |
| `Statuses.CacheAlwaysRight` | internal/electrum/server.go:445-474 | in every run of connecting blocks, conflicting ones included, mempool changes and queries, a clean cached status is what recomputing it would give |
| `Statuses.HistoryUnchangedWhen` | internal/electrum/scripthash.go:32-61 | blocks on top leave a confirmed history alone if and only if none of their transactions touches the scripthash |
| `Statuses.RollbackIsUnreported` | internal/indexer/reorg.go:98-107 | a rollback with the cleared overlay keeps the cache right if and only if the blocks that go touch no clean entry and none had pending transactions |
| `Statuses.OvertakenFiled` | internal/indexer/block.go:87-226 | blocks on top leave what the overlay files under a scripthash they do not touch |
| `Statuses.CatchUpIsUnreported` | internal/indexer/writer.go:178-201 | blocks that are indexed unreported, overlay included, keep it right if and only if none of them touches a clean entry |
| `Unreported.CaughtUpUnreported` | internal/indexer/chain.go:160-168 | so for whatever the chain manager's catch-up indexes |
| `Unreported.ReorganisedUnreported` | internal/indexer/chain.go:140-187 | and for what its reorganisation check undoes and clears |
| `Statuses.ClearIsUnreported` | internal/indexer/mempool.go:382-394 | clearing keeps the cache right if and only if no clean entry had pending transactions |
| `Keys.HistoryRoundTrip` | internal/storage/keys.go:90-127 | parsing inverts making, for every int32 height |
| `Keys.HistoryParseExact` | internal/storage/keys.go:109-127 | a key that parses is the one made from its fields |
| `Keys.HistoryOrder` | internal/storage/keys.go:90-107 | one scripthash's keys sort by height word, position, number |
| `Keys.HeightOrder` | internal/storage/keys.go:103 | that is numeric order if and only if no negative height meets a non-negative one |
| `Keys.UTXORoundTrip` | internal/storage/keys.go:33-73 | a UTXO key is 69 bytes, 'u', scripthash, txid and position, and parsing gives them back |
| `Keys.UTXOParseExact` | internal/storage/keys.go:50-73 | a key that parses is the one made from its fields |
| `Keys.UTXORange` | internal/storage/keys.go:75-88 | the prefix range of a scripthash holds exactly its own UTXO keys, and no history key |
| `Keys.HistoryRange` | internal/storage/keys.go:130-141 | likewise for history keys |
| `Keys.UTXOOrder` | internal/storage/keys.go:33-48 | one scripthash's UTXO keys sort by the bytes of the txid, then by position |
| `Keys.PrefixUpperBound` | internal/storage/keys.go:354-369 | the carry loop raises the last byte that is not 0xff and zeroes the rest |
| `Keys.RangeIsPrefix` | internal/storage/keys.go:354-369 | among keys at least as long as the prefix, the range holds exactly those that start with it |
| `Keys.RangeExactWhen` | internal/storage/keys.go:354-369 | among all keys it does if and only if the prefix does not end in 0xff, or is all 0xff |
| `UndoCodec.EncodeUndoBlock` | internal/storage/storage.go:655-733 | the encoding of `Encoded`; refused exactly for a hash field that is not 32 bytes |
| `UndoCodec.DecodeUndoBlock` | internal/storage/storage.go:735-890 | the decoding of `Decoded`, with short hashes padded and short words refused |
| `UndoCodec.UndoRoundTrip` | internal/storage/storage.go:655-890 | decoding inverts encoding, negative values included; the length is 80 + 112*(spent+created) + 44*history |
| `UndoCodec.HeadLayout` | internal/storage/storage.go:668-684 | the heading byte by byte: height, hash, previous hash, three little-endian counts |
| `UndoCodec.CreatedLayout` | internal/storage/storage.go:686-728 | entry i of the created list lies at 80 + 112*(spent+i); so for the other lists |
| `UndoCodec.OutputLayout` | internal/storage/storage.go:696-701 | an output's 112 bytes, field by field |
| `UndoCodec.DecodedIsEncoded` | internal/storage/storage.go:655-890 | data of exactly that length is the encoding of what it decodes to |
| `UndoCodec.DecodeAccepts` | internal/storage/storage.go:735-890 | exactly which byte strings are accepted |
| `UndoCodec.CutShort` | internal/storage/storage.go:791-858 | a truncated record is accepted if and only if it ends in an output and lost fewer than 32 bytes |
| `Merkle.BuildMerkleBranch` | internal/electrum/merkle.go:50-86 | the siblings on the way up, where there are any |
| `Merkle.RootOfHalves` | internal/electrum/merkle.go:66-81 | the root of two full halves is the hash of their roots, left before right |
| `Merkle.RootOfOdd` | internal/electrum/merkle.go:66-81 | a level of odd length has the root of the level with its last node repeated |
| `Merkle.BranchGivesRoot` | internal/electrum/merkle.go:50-86 | folding the branch with self-pairing gives the root, for every count and position |
| `Merkle.BranchLength` | internal/electrum/merkle.go:62-83 | its length is the tree's height minus the unpaired levels met |
| `Merkle.HeightIsLog` | internal/electrum/merkle.go:62-83 | the height is ceil(log2 n) |
| `Merkle.PlainFoldGivesRoot` | internal/electrum/merkle.go:63-66 | the position-bit fold gives the root when no node on the way up is unpaired |
| `Merkle.PlainFoldGivesRootWhen` | internal/electrum/merkle.go:63-66 | and, for a hash without collisions, only then |
| `Merkle.GetTransactionMerkleProof` | internal/electrum/merkle.go:19-48 | the branch of the first position with this txid, which folds to the root; not found exactly if absent |
| `Gaps.RepairGap` | internal/indexer/chain.go:509-536 | on success every height of the gap holds Core's block there: header of 80 bytes, txid list, blob, offsets, undo record; outside the gap they are as they were |
| `Gaps.SamplePass` | internal/indexer/chain.go:392-419 | with step 1 success covers the range; at every height there is what there was or Core's block; it cannot fail while Core serves the blocks |
| `Gaps.FullPass` | internal/indexer/chain.go:421-442 | success covers the range; at every height there is what there was or Core's block |
| `Gaps.FindFirstIndexedHeight` | internal/indexer/chain.go:450-468 | 1 exactly if it has a header, else the bottom of the unbroken run below the tip |
| `Gaps.FindLastMatchingHeight` | internal/indexer/chain.go:472-506 | the downward loop computes `LastMatch` |
| `Gaps.LastMatchHighest` | internal/indexer/chain.go:472-506 | which is the highest height whose stored header is Core's |
| `Gaps.MoveTip` | internal/indexer/chain.go:325-380 | memory and checkpoint go where `MovedTip` says; every row stays |
| `Gaps.MovedTipMeans` | internal/indexer/chain.go:325-380 | to the highest height whose header is Core's, else to Core's block below the range, else to nothing |
| `Gaps.MovedIsOutOfStep` | internal/indexer/chain.go:325-380 | so that no ledger fits rows and checkpoint any more |
| `Gaps.VerifyAndRepairGaps` | internal/indexer/chain.go:301-446 | when the tip is Core's, success means that every height from the effective start to the tip has an 80-byte header, Core's own wherever it was missing, and the old one or Core's elsewhere, for every range and gap pattern; the effective start is the set one or the first indexed height; with another tip only memory and checkpoint move |
| `Subscriptions.SubscriptionManager.SubscribeScripthash` | internal/electrum/subscriptions.go:26-39 | adds one pair to both maps, which stay mutual inverses without empty sets |
| `Subscriptions.SubscriptionManager.UnsubscribeScripthash` | internal/electrum/subscriptions.go:41-58 | removes one pair from both |
| `Subscriptions.SubscriptionManager.SubscribeHeaders` | internal/electrum/subscriptions.go:60-64 | adds a header subscriber and touches nothing else |
| `Subscriptions.SubscriptionManager.UnsubscribeHeaders` | internal/electrum/subscriptions.go:66-70 | removes one |
| `Subscriptions.SubscriptionManager.Unsubscribe` | internal/electrum/subscriptions.go:72-89 | the connection is in none of the three maps, and every other pair is kept |

## Left out

- Pebble, zstd, JSON, hex, SHA-256 and btcd serialization: rows hold decoded values, hashes are fields of the values, and a transaction carries its serialised bytes. Read errors of the store are not modelled.
- Machine integers: heights, values and counts are unbounded except in `Keys`, `UndoCodec` and the offsets of `TxStore`, where the width matters.
- Byte-order conversions of hashes in internal/indexer/types.go: a hash is one value here.
- The other key makers and parsers of internal/storage/keys.go and the UTXO value, txid-list and offset codecs: same layout idiom as the history key and the undo record.
- Goroutines and locks: each locked method and each writer job is one step. The job queue, metrics, logging, ZMQ and RPC plumbing and the remaining Electrum handlers are not modelled.
- `LoadFromDatabase` and mempool persistence; the size, first-seen time and raw bytes of a held transaction.
- The index contents after `repairGap` and after a moved tip: they do not keep the replay of the chain.
- A crash in the middle of a multi-block rollback, and the chain manager's calls after a reorganisation that broke off: their contracts start from a store in step.
- `CatchUpToTip`, `VerifyChainIntegrity`, `ValidateBlockConnects` and `GetExpectedHeight`: thin wrappers around what is modelled.
- Statuses.ComputeScripthashStatus: the digest is the confirmed list and the set of pending transactions, not their hash, since the order of equal heights and of the mempool is arbitrary.
- Statuses.CacheAlwaysRight: covers connecting blocks and reported mempool changes; what goes unreported is the subject of `RollbackIsUnreported` and `CatchUpIsUnreported`.
- Queries.GetScripthashUnspent: the order of its mempool part is arbitrary, as in the source.
- Mempool.MempoolOverlay.ReconcileWith: the second pass over listed outputs is a filter, and does not file, report or count what it drops; without partly reloaded outputs it drops none.
