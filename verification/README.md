# Verified models of go-wanchain components

This project models the parts of go-wanchain whose correctness rests on invariants that span
several functions, and proves those invariants in Dafny. Each component is a model of the Go code
with the same branches, edge cases and constants; the theorems quantify over all inputs, all runs or
all interleavings.

* **Concurrent binary Merkle tree** (`Bmt*.dfy`). Goroutines climb a tree and meet through an atomic
  toggle. The steps of goroutines and caller form a state machine; every schedule delivers exactly
  the hash of the simple reference implementation, for as long as no toggle counter has overflowed
  and for exactly as long.
* **Transaction pool** (`Heaps`, `Tx*.dfy`, `WaterLevel`, `Sums`). Nonce lists with heap and cache,
  the lazily cleaned price heap, promotion, demotion, replacement and eviction. Over every run an
  account's executable nonces are a window from its state nonce, nothing executable is left queued,
  and the fairness loops compute exact water-filling.
* **Canonical chain** (`Blocks`, `HeaderChain`, `BlockForks`, `BlockLookup`, `BlockChain`).
  Total-difficulty fork choice, reorganisation, the number index and the transaction index.
* **Weighted random selection** (`RandCells`, `RandSelect`, `RandSelectRuns`). A sum tree that grows
  at the root while handing out stable indexes.
* **Event feed** (`Feed`). Swaps and deletes in a shared array while subscribers leave during a send.
* **Gas accounting** (`Gas`, `BlockGas`). Normal and stamp-paid transactions on one block gas pool.
* **Chain indexer** (`ChainIndexer`). Section processing with the lock released, against a canonical
  chain that is rewritten meanwhile and whose notices arrive late.
* **Ring signatures, one-time addresses, base58** (`Modular`, `RingSign`, `Base58`).

`Arithmetic` and `Powers` hold what several components share.

Abstractions used throughout: hashes are injective, so a block or transaction value stands for its
hash; databases are sets and maps; caches in front of them are transparent; randomness, the order of
ranging over a map and goroutine scheduling are arbitrary choices; the elliptic curve is an ideal
cyclic group of the order of secp256k1, its points written as multiples of the base point.
`container/heap` and `sort` are used through their contracts.

## Findings

* The toggle counter of a tree node is a 32-bit integer that is never reset. After it overflows, Go's
  remainder of a negative number is not 1 and the first goroutine at a node no longer waits.
  `ReferenceIffNonNegative`: every schedule delivers the reference hash, for every base hash, if and
  only if no inner counter is negative. `TreeLifetime`: that is the case for the first 2^30 chunks.
  `OverflownRun` is a run that ends in the hash of one half.
* With an odd number of segments, a write that begins inside a segment before the last leaf can store
  one segment more than the capacity, and the next write panics. `KeepsCapacityIff` and `Writer.Write`
  give the exact conditions; `OddCountOverruns` is an instance.
* `HeaderChain.SetHead` deletes canonical headers only. A side header that forks off above the new
  head keeps its difficulty but loses its parent, and a later header that builds on it makes
  `WriteHeader` dereference a missing header. `WriteHeader` and `SetHead` state exactly when;
  `RewindThenExtend` is an instance.
* Blocks of a new branch are inserted from the highest down, and each one that is new to the number
  index becomes head header. After a reorganisation across a fork the head header is therefore the
  lowest adopted block, and it is the new head if and only if one block was adopted
  (`HeaderAcrossFork`). `HeaderIsHeadIff` covers extensions of the old head too; `LaggingHeader` is
  the case of two blocks.
* `reset` without reinjection keeps every account's window for any new state nonce, because a gap at
  the front sends the whole list back to the queue.
* A privacy transaction whose stamp is already spent is not refused by `PreProcessPrivacyTx`, which
  returns zero gas and no error. It fails afterwards because the intrinsic gas is never zero.
* The worth of a stamp is divided by the gas price, and nothing on the way to that division tests for
  zero: the pool does, the processing of a block does not. The outcome `Panic` stands for it, and
  `FetchPrivacyTxInfo`, `PreProcessPrivacyTx`, `TransitionDb` and `Process` say exactly when it
  occurs; `FreeStamp` is an instance.
* The indexer accepts a processed section when the head of the section before is unchanged. A
  reorganisation inside the section just read does not alter that head, so a head off the canonical
  chain can be stored and stays (`StaleSection`). `Update`: the stored head is canonical if and only
  if the chain at that time forks off the one of the last read at or above the head. That no rewrite
  in between forks below the head is enough (`UndisturbedIsEnough`) but not necessary
  (`RewrittenBack`).

## Model

| member | source | states |
|---|---|---|
| `BmtReference.NewRefHasher` | src/github.com/wanchain/go-wanchain/bmt/bmt_r.go:39-55 | The reference span is the largest power of two of segments below the count, never less than two; section and cap follow from the hash size. |
| `BmtReference.HashSpan` | src/github.com/wanchain/go-wanchain/bmt/bmt_r.go:67-85 | The recursive method with its halving loop computes the reference hash function, for every input length. |
| `BmtReference.Hash` | src/github.com/wanchain/go-wanchain/bmt/bmt_r.go:59-65 | Input beyond the capacity is cut off before hashing. |
| `BmtReference.RefHashIsTreeHash` | src/github.com/wanchain/go-wanchain/bmt/bmt_r.go:67-85 | On a power of two of segments the reference hash is the hash of a balanced binary tree, whatever the base hash. |
| `Bmt.Depth` | src/github.com/wanchain/go-wanchain/bmt/bmt.go:521-526 | The least depth whose leaves, two segments each, hold n segments. |
| `Bmt.NewTree` | src/github.com/wanchain/go-wanchain/bmt/bmt.go:253-276 | Nodes are created in heap order with the level, index, side and parent that order implies, and the leaves are the last level. |
| `BmtWriter.Writer.Write` | src/github.com/wanchain/go-wanchain/bmt/bmt.go:334-373 | However a chunk is split over calls, what has been written is the concatenation, cut at a stated limit, and every filled double segment has been launched in order, for even and odd segment counts; a call panics if and only if it has input and more than the capacity has been written already. |
| `BmtSchedules.StepKeepsInv` | src/github.com/wanchain/go-wanchain/bmt/bmt.go:442-494 | Every step of every goroutine or of the caller keeps the invariant on nodes, toggles and who carries which hash. |
| `BmtSchedules.RunKeepsInv` | src/github.com/wanchain/go-wanchain/bmt/bmt.go:442-494 | The invariant holds after every interleaving from a clean tree. |
| `BmtSchedules.NotStuck` | src/github.com/wanchain/go-wanchain/bmt/bmt.go:293-319 | Until the caller has received a result some goroutine or the caller can go on. |
| `BmtSchedules.ReceivedMeansFinished` | src/github.com/wanchain/go-wanchain/bmt/bmt.go:463-494 | When the caller has received, every goroutine has exited and every node was toggled exactly twice. |
| `BmtSchedules.RootIsRefHash` | src/github.com/wanchain/go-wanchain/bmt/bmt.go:463-494 | The value that climbs to the root is the reference hash of the same bytes. |
| `BmtSchedules.EveryScheduleDeliversRefHash` | src/github.com/wanchain/go-wanchain/bmt/bmt.go:442-511 | For every full chunk of 2^k segments and every interleaving: the run is bounded, it can go on until the result is there, the one result equals the reference hash, and nothing can happen afterwards. |
| `BmtReuse.ReusableUnlessOverflown` | src/github.com/wanchain/go-wanchain/bmt/bmt.go:425-440 | A tree whose counters were not negative, used for a chunk and released, still delivers reference hashes in every schedule if and only if no inner counter was within two of the largest 32-bit integer. |
| `BmtReuse.FirstArrivalWaitsIffNonNegative` | src/github.com/wanchain/go-wanchain/bmt/bmt.go:509-511 | After an overflow the toggle rule breaks: with an even counter the first arrival waits if and only if the counter is not negative. |
| `BmtOverflow.ReferenceIffNonNegative` | src/github.com/wanchain/go-wanchain/bmt/bmt.go:442-511 | For a tree with even counters of either sign: every schedule delivers the reference hash for every base hash if and only if no inner counter is negative. |
| `BmtOverflow.NegativeSpoils` | src/github.com/wanchain/go-wanchain/bmt/bmt.go:463-511 | If hashing lengthens its input, a node with a negative counter has a schedule whose result is shorter than the right hash. |
| `BmtReuse.ReleaseTree` | src/github.com/wanchain/go-wanchain/bmt/bmt.go:425-440 | The release loop clears the flags of exactly the nodes from the current leaf up, the mark of the root itself excepted; counters stay as they are. |
| `BmtReuse.TreeLifetime` | src/github.com/wanchain/go-wanchain/bmt/bmt.go:425-511 | A new tree delivers reference hashes in every schedule for its first 2^30 chunks and not for the next one. |
| `BmtReuse.OverflownRun` | src/github.com/wanchain/go-wanchain/bmt/bmt.go:463-511 | A run on a tree of two leaves with an overflown counter that ends in the hash of one leaf. |
| `BmtWriter.AgreesWithReference` | src/github.com/wanchain/go-wanchain/bmt/bmt_r.go:39-65 | What the caller receives in any schedule is what a new reference hasher of the same count returns for the written bytes. |
| `BmtWriter.KeepsCapacityIff` | src/github.com/wanchain/go-wanchain/bmt/bmt.go:339-357 | A write is cut at the capacity if and only if the count is even, no segment is open, it is in the last leaf, or everything fits. |
| `BmtWriter.OddCountOverruns` | src/github.com/wanchain/go-wanchain/bmt/bmt.go:339-373 | With three segments of one byte, two writes store four bytes and the next one panics. |
| `BmtWriter.ConcurrentHashIsReferenceHash` | src/github.com/wanchain/go-wanchain/bmt/bmt.go:293-373 | Writes in any split followed by any schedule deliver the reference hash function of the written bytes. |
| `TxLists.SortedMap.Put` | src/github.com/wanchain/go-wanchain/core/tx_list.go:76-82 | The list is the old one with this nonce set; heap and cache stay consistent with it. |
| `TxLists.SortedMap.Forward` | src/github.com/wanchain/go-wanchain/core/tx_list.go:88-102 | Exactly the nonces below the threshold go, in order; a cached order stays right though only its front is cut. |
| `TxLists.SortedMap.Filter` | src/github.com/wanchain/go-wanchain/core/tx_list.go:106-127 | Exactly the selected transactions go, and heap and cache are right whether or not anything went. |
| `TxLists.SortedMap.Cap` | src/github.com/wanchain/go-wanchain/core/tx_list.go:131-152 | The lowest nonces stay, exactly the others are returned, and the cut cache is still the sorted content. |
| `TxLists.SortedMap.Remove` | src/github.com/wanchain/go-wanchain/core/tx_list.go:156-173 | One nonce goes from map and heap; reports whether it was there. |
| `TxLists.SortedMap.Ready` | src/github.com/wanchain/go-wanchain/core/tx_list.go:182-197 | The maximal contiguous run from the lowest nonce is handed out if it starts no later than asked, otherwise nothing changes. |
| `TxLists.SortedMap.Flatten` | src/github.com/wanchain/go-wanchain/core/tx_list.go:207-220 | The content in strictly increasing nonce order, also when it comes from a cache that was only shifted or cut. |
| `TxAccount.TxList.Add` | src/github.com/wanchain/go-wanchain/core/tx_list.go:259-277 | Inserted unless an older transaction at the nonce prices at or above the bump threshold; the caps keep bounding all normal transactions. |
| `TxAccount.TxList.Filter` | src/github.com/wanchain/go-wanchain/core/tx_list.go:295-321 | With or without the cap short circuit the result is the full scan over normal transactions; strict lists lose everything above the lowest removed nonce. |
| `TxAccount.TxList.InvalidPrivacyTx` | src/github.com/wanchain/go-wanchain/core/tx_list.go:324-356 | Exactly the invalid privacy transactions go, and in a strict list everything above the lowest of them. |
| `TxAccount.TxList.Remove` | src/github.com/wanchain/go-wanchain/core/tx_list.go:367-378 | A strict list keeps exactly the nonces below the removed one and returns the others. |
| `TxAccount.ReplacementsGrow` | src/github.com/wanchain/go-wanchain/core/tx_list.go:259-277 | After k accepted replacements price * 100^k exceeds first price * (100 + bump)^k. |
| `TxPriced.PricedList.Put` | src/github.com/wanchain/go-wanchain/core/tx_list.go:445-447 | The entry joins the heap, which keeps a cheapest entry in front. |
| `TxPriced.PricedList.Removed` | src/github.com/wanchain/go-wanchain/core/tx_list.go:452-466 | Counts a stale entry until they pass a quarter, then the heap holds exactly the live transactions. |
| `TxPriced.PricedList.Cap` | src/github.com/wanchain/go-wanchain/core/tx_list.go:470-497 | Drops exactly the live remote transactions below the threshold; all other live ones stay in the heap, and its size less the stale count shrinks by what is dropped. |
| `TxPriced.PricedList.Underpriced` | src/github.com/wanchain/go-wanchain/core/tx_list.go:503-525 | Agrees with a comparison against every live transaction, whatever stale or duplicate entries the heap holds; size less stale count stays. |
| `TxPriced.PricedList.Discard` | src/github.com/wanchain/go-wanchain/core/tx_list.go:531-554 | Never leaves a live remote transaction cheaper than one it dropped, falls short of the count only when no live remote one is left, and lowers the size less the stale count by what it drops. |
| `TxPool.EnqueueTx` | src/github.com/wanchain/go-wanchain/core/tx_pool.go:721-746 | Queues the transaction, replacing a cheaper one at its nonce, or changes nothing. |
| `TxPool.PromoteTx` | src/github.com/wanchain/go-wanchain/core/tx_pool.go:765-797 | Moves the transaction to the executable list and raises the virtual nonce, or discards it when the older one is better. |
| `TxPool.RemoveTx` | src/github.com/wanchain/go-wanchain/core/tx_pool.go:894-933 | Removing an executable transaction leaves the nonces below it executable and returns those above to the queue, unless the list became empty, when they are dropped from it; nothing of another account changes. |
| `TxPool.RemoveKeepsOk` | src/github.com/wanchain/go-wanchain/core/tx_pool.go:894-933 | The window of executable nonces survives every removal. |
| `TxPool.RemoveFromIff` | src/github.com/wanchain/go-wanchain/core/tx_pool.go:894-933 | Which nonces are executable and queued after a removal: those below it stay, those above are queued unless none is below. |
| `TxPool.CleanedIff` | src/github.com/wanchain/go-wanchain/core/tx_pool.go:949-978 | Promotion keeps of a queue the nonces still to come of payable normal and valid privacy transactions. |
| `TxPool.PromoteAccount` | src/github.com/wanchain/go-wanchain/core/tx_pool.go:949-1005 | One account: outdated, unpayable and invalid queued transactions go, exactly the run from the virtual nonce becomes executable, a remote queue keeps its lowest nonces up to the cap, exactly what leaves the lists is forgotten, and nothing executable is left queued. |
| `TxFairness.Equalize` | src/github.com/wanchain/go-wanchain/core/tx_pool.go:1006-1079 | When pending overflows, every remote account ends with the smaller of its length and the water level, local accounts are untouched, and each list keeps its lowest nonces; otherwise nothing changes. |
| `WaterLevel.WaterLevelIsHighestFit` | src/github.com/wanchain/go-wanchain/core/tx_pool.go:1006-1079 | The level the loops stop at is the highest one whose total fits, or the guaranteed account slots. |
| `WaterLevel.RoundLowersLevel` | src/github.com/wanchain/go-wanchain/core/tx_pool.go:1030-1070 | One round over the offenders lowers the common level by exactly one. |
| `TxQueue.TruncateQueue` | src/github.com/wanchain/go-wanchain/core/tx_pool.go:1080-1119 | Exactly the smaller of the overflow and the number of remote queued transactions goes; cut queues lose their highest nonces, and all but one of them everything; local queues and executable lists do not change. |
| `TxPoolOps.PromoteExecutables` | src/github.com/wanchain/go-wanchain/core/tx_pool.go:938-1120 | Visited accounts are promoted exactly; then remote lists are cut to the water level if pending overflows and left alone if not, and remote queues lose exactly the overflow or all they have; exactly what leaves the lists is forgotten, every account keeps its window, and no visited account has anything executable left queued. |
| `TxDemotion.DemoteAccount` | src/github.com/wanchain/go-wanchain/core/tx_pool.go:1125-1178 | Passed, unpayable and invalid privacy transactions leave the lists and exactly those are forgotten, those above an unpayable one go back to the queue, and what is left is a window from the new state nonce, or goes back to the queue as a whole when there is a gap. |
| `TxDemotion.PartIff` | src/github.com/wanchain/go-wanchain/core/tx_pool.go:1131-1155 | Passed are the nonces below the state nonce, dropped the unpayable ones, requeued the payable ones above an unpayable one. |
| `TxDemotion.LeftIff` | src/github.com/wanchain/go-wanchain/core/tx_pool.go:1131-1155 | Left are the nonces from the state nonce up to the first unpayable or invalid one. |
| `TxPoolOps.DemoteUnexecutables` | src/github.com/wanchain/go-wanchain/core/tx_pool.go:1125-1178 | After the loop every account with executable transactions is demoted exactly, the others are as before, exactly what left the lists is forgotten, and each account is a window from the new state nonce below its queue. |
| `TxPoolOps.Reset` | src/github.com/wanchain/go-wanchain/core/tx_pool.go:359-438 | A head change without reinjection demotes every account exactly, promotes, cuts to the water level and cuts queues to their exact total, forgets exactly what leaves the lists, and keeps every window with nothing executable left queued, for any new state nonces and balances. |
| `TxPoolOps.MakeRoom` | src/github.com/wanchain/go-wanchain/core/tx_pool.go:657-673 | Refuses if and only if the pool is full and the transaction is remote and no better than all others; otherwise a full pool removes, one after another, cheapest remote ones, as many as make room for one or all there are, and nothing else. |
| `TxPoolOps.ReplacePending` | src/github.com/wanchain/go-wanchain/core/tx_pool.go:674-694 | An executable transaction is replaced in place, and nothing else changes, if and only if the new price passes the bump threshold. |
| `TxPoolOps.Add` | src/github.com/wanchain/go-wanchain/core/tx_pool.go:643-714 | Each error is returned under exactly its condition, in the order of the checks; a declined transaction changes nothing, any other makes room, and is then outbid or placed in one of its account's lists and known, with nothing else changed; every window is kept. |
| `TxPoolRuns.Pool.AddTx` | src/github.com/wanchain/go-wanchain/core/tx_pool.go:832-848 | The pool is what adding, and promoting if nothing was replaced, make of it; in a pool with room an accepted transaction is known and listed, and executable if and only if its nonce is at most the virtual nonce; every window is kept and nothing executable is left queued. |
| `TxPoolRuns.Pool.AddTxs` | src/github.com/wanchain/go-wanchain/core/tx_pool.go:861-881 | Each transaction of the batch is added as alone, then the accounts that got something new are promoted once. |
| `TxPoolRuns.Pool.SetGasPrice` | src/github.com/wanchain/go-wanchain/core/tx_pool.go:475-484 | Exactly the local transactions and those at or above the new price are still known, and the others have been removed one after another. |
| `TxPoolRuns.Pool.Evict` | src/github.com/wanchain/go-wanchain/core/tx_pool.go:317-331 | An expired remote account loses its whole queue and exactly its transactions are forgotten, a local one nothing, and no other queue changes. |
| `TxPoolRuns.Pool.NewHead` | src/github.com/wanchain/go-wanchain/core/tx_pool.go:359-438 | The pool is what demotion of every account, promotion and the two cuts make of it, with every window kept. |
| `TxPoolRuns.Run` | src/github.com/wanchain/go-wanchain/core/tx_pool.go:643-1178 | Over any run of adds, batches, price changes, evictions and head changes from an empty pool, each state is what the operation makes of the one before; every account's executable nonces are exactly [state nonce, virtual nonce), its queued nonces lie strictly above, both lists are known to the pool, and every known transaction is priced. |
| `Blocks.CommonIsHighest` | src/github.com/wanchain/go-wanchain/core/database_util.go:628-652 | The point where two chains meet is a common ancestor, and every common ancestor lies at or below it. |
| `BlockForks.FindCommonAncestor` | src/github.com/wanchain/go-wanchain/core/database_util.go:628-652 | Finds exactly the highest common ancestor, and nothing if and only if a walked header is missing or the chains share no genesis block. |
| `BlockForks.ForkChains` | src/github.com/wanchain/go-wanchain/core/blockchain.go:1093-1131 | The walk of a reorganisation finds the same fork point, the abandoned and adopted blocks from the top down and the abandoned transactions, and fails if and only if an ancestor is missing. |
| `BlockLookup.WriteTxLookupEntries` | src/github.com/wanchain/go-wanchain/core/database_util.go:483-500 | Each transaction of the block points to its last place in it; all other entries are as before. |
| `BlockLookup.TxDifference` | src/github.com/wanchain/go-wanchain/core/types/transaction.go:365-380 | The transactions of the first list that are not in the second, in order and with repeats. |
| `BlockLookup.ReorgLookup` | src/github.com/wanchain/go-wanchain/core/blockchain.go:1155-1173 | Writing adopted and deleting abandoned entries moves an exact transaction index from one branch to the other. |
| `BlockChains.BlockChain.Insert` | src/github.com/wanchain/go-wanchain/core/blockchain.go:457-479 | The block becomes head and canonical at its height; the head header follows only where the index changes. |
| `BlockChains.BlockChain.Adopt` | src/github.com/wanchain/go-wanchain/core/blockchain.go:1155-1164 | Inserting adopted blocks from the top down rewrites exactly the heights above the fork; the head header ends at the lowest of them that was new to the index. |
| `BlockChains.BlockChain.Reorg` | src/github.com/wanchain/go-wanchain/core/blockchain.go:1070-1186 | Fails if and only if an adopted ancestor is missing or the engine refuses, changing nothing; otherwise index and transaction index follow the new branch and the head header is the lowest block of it that was new to the index. |
| `BlockChains.HeaderIsHeadIff` | src/github.com/wanchain/go-wanchain/core/blockchain.go:457-479 | After inserting from the highest block down to above a height, the head header is the new head if and only if no block in between was new to the index and the head itself was, or was the head header before. |
| `BlockChains.HeaderAcrossFork` | src/github.com/wanchain/go-wanchain/core/blockchain.go:1155-1164 | Across a fork the head header becomes the lowest adopted block, which is the new head if and only if only one block is adopted. |
| `BlockChains.LaggingHeader` | src/github.com/wanchain/go-wanchain/core/blockchain.go:792-857 | On every fork of two blocks against one heavier than the first alone, writing both leaves the head header one block behind. |
| `BlockChains.LaggingHeaderInstance` | src/github.com/wanchain/go-wanchain/core/blockchain.go:792-857 | Such blocks exist. |
| `BlockChains.BlockChain.WriteBlockAndState` | src/github.com/wanchain/go-wanchain/core/blockchain.go:792-857 | Each outcome happens under exactly its condition, ties by the coin; the index changes exactly above the fork point, where it holds the head's ancestors; no stored block outweighs the head, the head's weight never falls, and with no repeated transaction the transaction index stays exact in both directions. |
| `BlockChains.BlockChain.Run` | src/github.com/wanchain/go-wanchain/core/blockchain.go:792-857 | All of this after any run of writes, each state being what the write makes of the one before. |
| `HeaderChains.Reroute` | src/github.com/wanchain/go-wanchain/core/headerchain.go:164-176 | The early-stopping rewrite loop ends, completes the index down to the genesis block, and meets a missing header if and only if an ancestor is missing. |
| `HeaderChains.HeaderChain.WriteHeader` | src/github.com/wanchain/go-wanchain/core/headerchain.go:131-195 | Canonical numbers stay exactly 0 to head and trace its ancestry, stored difficulty is the sum along the ancestry, the head stays heaviest; the write dereferences a missing header if and only if it wins and an ancestor was deleted. |
| `HeaderChains.HeaderChain.InsertHeaderChain` | src/github.com/wanchain/go-wanchain/core/headerchain.go:259-285 | A run of header writes stores exactly the headers up to the first one with unknown parent, ends with the head that fork choice picks header by header, and never meets a missing header. |
| `HeaderChains.HeaderChain.SetHead` | src/github.com/wanchain/go-wanchain/core/headerchain.go:406-439 | Rewinding leaves exactly the prefix of the chain and deletes exactly the canonical headers above it; afterwards every stored header still has its parent if and only if no side header forks off above the new head. |
| `HeaderChains.RewindThenExtend` | src/github.com/wanchain/go-wanchain/core/headerchain.go:406-439 | A concrete rewind over a fork after which extending the fork dereferences a missing header. |
| `RandSelect.Insert` | src/github.com/wanchain/go-wanchain/les/randselect.go:107-132 | The item goes into the first free cell of the tree and nothing else changes; the panic is unreachable while the tree is not full. |
| `RandSelect.SetWeight` | src/github.com/wanchain/go-wanchain/les/randselect.go:136-157 | Changes or frees exactly the cell at the index, with all sums and counts on the path, and returns the change. |
| `RandSelect.Choose` | src/github.com/wanchain/go-wanchain/les/randselect.go:160-173 | Chooses the cell whose weight covers the draw counting from the left; the panic is unreachable for draws below the sum. |
| `RandCells.DrawsPerCell` | src/github.com/wanchain/go-wanchain/les/randselect.go:160-173 | Exactly w of the draws below the sum fall on a cell of weight w. |
| `RandCells.CoversOnce` | src/github.com/wanchain/go-wanchain/les/randselect.go:160-173 | No draw falls on two cells. |
| `RandSelectRuns.Grown` | src/github.com/wanchain/go-wanchain/les/randselect.go:62-69 | Growing the root keeps every cell at its index and adds free cells behind. |
| `RandSelectRuns.WeightedRandomSelect.SetWeight` | src/github.com/wanchain/go-wanchain/les/randselect.go:54-73 | Sets one stored weight and no other, adds or removes the item as the weight says, and every item that stays keeps its index. |
| `RandSelectRuns.WeightedRandomSelect.DrawsPerItem` | src/github.com/wanchain/go-wanchain/les/randselect.go:79-94 | In every reachable set an item of stored weight w is chosen by exactly w draws, and w is positive. |
| `RandSelectRuns.WeightedRandomSelect.Draw` | src/github.com/wanchain/go-wanchain/les/randselect.go:79-94 | The first random number falls on the chosen item; it is accepted if and only if its weight has not fallen or the second number, below the stored weight, is below the current one; its stored weight becomes the current one and no other changes. |
| `RandSelectRuns.RoundDetermined` | src/github.com/wanchain/go-wanchain/les/randselect.go:79-94 | A round has one outcome for given weights and random numbers. |
| `RandSelectRuns.AcceptingDraws` | src/github.com/wanchain/go-wanchain/les/randselect.go:75-78 | Of the second draws below the stored weight, as many accept as the smaller of current and stored weight. |
| `RandSelectRuns.AcceptingPairs` | src/github.com/wanchain/go-wanchain/les/randselect.go:75-78 | Of all pairs of draws, stored weight times the smaller of current and stored weight choose and accept an item: its chance is that smaller weight over the sum. |
| `RandSelectRuns.WeightedRandomSelect.Choose` | src/github.com/wanchain/go-wanchain/les/randselect.go:79-94 | With weights read and random numbers drawn anew in each round: every round is as above and only the last accepts; it ends, since each rejection lowers the sum; nothing is returned only if every item was read as weightless. |
| `Feed.Find` | src/github.com/wanchain/go-wanchain/event/feed.go:229-236 | The first index of the channel, or -1 if and only if it is not there. |
| `Feed.Delete` | src/github.com/wanchain/go-wanchain/event/feed.go:240-242 | Shifts the cases behind the index down by one, in place. |
| `Feed.Deactivate` | src/github.com/wanchain/go-wanchain/event/feed.go:245-249 | Swaps the case with the last active one, in place. |
| `Feed.Feed.Subscribe` | src/github.com/wanchain/go-wanchain/event/feed.go:83-106 | The channel joins the inbox; the books of live subscriptions balance. |
| `Feed.Feed.Unsubscribe` | src/github.com/wanchain/go-wanchain/event/feed.go:119-130 | A channel in the inbox loses its first entry there, any other waits for a send or the send lock; the books balance. |
| `Feed.Feed.TakeOut` | src/github.com/wanchain/go-wanchain/event/feed.go:132-140 | A waiting channel is always found behind case 0 and leaves the cases, by a send or under the send lock. |
| `Feed.AfterDelivery` | src/github.com/wanchain/go-wanchain/event/feed.go:245-249 | Deactivating a case moves one subscription from the active to the sent ones and changes no other count. |
| `Feed.AfterRemoval` | src/github.com/wanchain/go-wanchain/event/feed.go:184-190 | Deleting a case during a send takes it from the part it is in and leaves the active cases a prefix. |
| `Feed.Feed.Send` | src/github.com/wanchain/go-wanchain/event/feed.go:145-202 | In every interleaving with subscriptions and removals: each subscription present at the start and kept got the value exactly once, a removed one at most once, only who asked to leave is removed, the result counts the deliveries, and inbox and cases hold exactly the live and the waiting subscriptions. |
| `Gas.IntrinsicGas` | src/github.com/wanchain/go-wanchain/core/state_transition.go:94-116 | Base cost plus the cost of each byte, as in section 6.2 of the Ethereum Yellow Paper; creation costs more from homestead on. |
| `Gas.GasPool.AddGas` | src/github.com/wanchain/go-wanchain/core/gaspool.go:31-36 | The pool grows by the amount. |
| `Gas.GasPool.SubGas` | src/github.com/wanchain/go-wanchain/core/gaspool.go:40-48 | Succeeds if and only if the pool holds the amount, and only then takes it. |
| `Gas.FetchPrivacyTxInfo` | src/github.com/wanchain/go-wanchain/core/state_transition.go:368-416 | Succeeds if and only if the ring signature is good and the stamp pays for it, and gives the stamp's total gas and what is left; panics if and only if the signature is good and the gas price is zero. |
| `Gas.StateTransition.UseGas` | src/github.com/wanchain/go-wanchain/core/state_transition.go:171-178 | Succeeds if and only if enough gas is left, and only then takes it. |
| `Gas.StateTransition.BuyGas` | src/github.com/wanchain/go-wanchain/core/state_transition.go:181-206 | Succeeds if and only if the limit fits 64 bits, the sender can prepay it and the pool holds it, with the error of the first test that fails; then sender and pool pay the whole limit, otherwise nothing changes. |
| `Gas.StateTransition.PreCheck` | src/github.com/wanchain/go-wanchain/core/state_transition.go:208-222 | Passes if and only if the nonce is right, when checked, and the gas can be bought; each failure has its error. |
| `Gas.StateTransition.PreProcessPrivacyTx` | src/github.com/wanchain/go-wanchain/core/state_transition.go:456-475 | An unspent stamp becomes spent and yields its gas; a spent one yields none and changes nothing; panics if and only if no value is sent, the signature is good and the gas price is zero. |
| `Gas.StateTransition.RefundGas` | src/github.com/wanchain/go-wanchain/core/state_transition.go:319-336 | Returns the rest and at most half of the used gas to the sender's balance and to the pool. |
| `Gas.StateTransition.TransitionDb` | src/github.com/wanchain/go-wanchain/core/state_transition.go:227-317 | Succeeds if and only if the gas can be bought and covers the intrinsic gas and the sender has the value; otherwise gives the error of the first test that fails, or panics if and only if a privacy message divides by a zero gas price. On success balances, nonces, key images and pool are exactly what prepaying, the code's transfers, the refund to the sender and the fee to the coinbase make of them; total balances change only by a stamp's fee, and at least half of the required gas is charged. |
| `Gas.PlainMessage` | src/github.com/wanchain/go-wanchain/core/state_transition.go:315-336 | A normal message whose code moves nothing: the sender loses the fee of the used gas, the coinbase gains it, no other balance changes. |
| `Gas.PaidOnTop` | src/github.com/wanchain/go-wanchain/core/state_transition.go:315-336 | Whatever the code moves, each balance differs from what it leaves by the returned gas for the sender and the fee for the coinbase. |
| `Gas.GasBounds` | src/github.com/wanchain/go-wanchain/core/state_transition.go:299-303 | Required gas lies between intrinsic gas and limit, and at least half of it is charged. |
| `Gas.MovedIs` | src/github.com/wanchain/go-wanchain/core/evm.go:76-84 | A transfer takes its amount from the giver and gives it to the receiver if the giver has it, and changes nothing else. |
| `Gas.FreeStamp` | src/github.com/wanchain/go-wanchain/core/state_transition.go:388-388 | A privacy message without value, with a good ring signature and a gas price of zero always panics. |
| `Gas.StampCoversFee` | src/github.com/wanchain/go-wanchain/core/state_transition.go:388-416 | The fee a stamp pays never exceeds the stamp and misses it by less than the price of one gas. |
| `BlockGas.Process` | src/github.com/wanchain/go-wanchain/core/state_processor.go:59-85 | Over every block: messages run one after another on what those before leave, up to the first that cannot, and the final ledger and each receipt follow from that; pool plus used gas is the gas limit, receipts cumulate, balances grow only by stamp fees and by no more than the stamps are worth, and no stamp is spent twice or was spent before; it panics if and only if the first failing message divides by a zero gas price. |
| `BlockGas.CumulativeIsSum` | src/github.com/wanchain/go-wanchain/core/state_processor.go:122-129 | Cumulative gas is the sum of the gas of all transactions so far. |
| `BlockGas.SetReceiptsData` | src/github.com/wanchain/go-wanchain/core/blockchain.go:669-700 | Sets each receipt's gas so that the cumulative values are the running sum. |
| `BlockGas.Recovered` | src/github.com/wanchain/go-wanchain/core/blockchain.go:684-689 | The gas recovered from cumulative values is the gas that was stored. |
| `ChainIndexers.ChainIndexer.SetValidSections` | src/github.com/wanchain/go-wanchain/core/chain_indexer.go:370-382 | Lowering the count removes exactly the heads above it. |
| `ChainIndexers.ChainIndexer.NewHead` | src/github.com/wanchain/go-wanchain/core/chain_indexer.go:191-230 | A new head raises the known sections; a reorganisation cuts known and stored sections to the fork point and leaves only heads below it, and is passed on to children if and only if they had heard of more. |
| `ChainIndexers.ChainIndexer.ProcessSection` | src/github.com/wanchain/go-wanchain/core/chain_indexer.go:310-335 | Whatever the chain is rewritten to meanwhile, processing succeeds if and only if every read finds a header that continues the one before and the backend commits; then the section ends in a linked header at its last number that descends from the section before. |
| `ChainIndexers.ChainIndexer.Update` | src/github.com/wanchain/go-wanchain/core/chain_indexer.go:234-304 | A section head exists if and only if its index is below the stored count; the new head is stored if and only if processing succeeded and no notice that arrived while the lock was free cut the sections before, and all counts follow from those notices; a head read from the canonical chain is still canonical when stored if and only if the chain then forks off the one it was read from at or above it. |
| `ChainIndexers.ChainIndexer.Run` | src/github.com/wanchain/go-wanchain/core/chain_indexer.go:191-335 | Under any interleaving of updates, chain rewrites and notices the invariant holds; if no notice is handled between the last read of a section and storing its head, all section heads are canonical whenever no notice is outstanding; on a chain that only grows every round stores a section as long as one is known, and the known sections follow the last handled head. |
| `ChainIndexers.HeadsAreAncestors` | src/github.com/wanchain/go-wanchain/core/chain_indexer.go:310-335 | Every section head is an ancestor of all later ones. |
| `ChainIndexers.KeptHeadsAreShared` | src/github.com/wanchain/go-wanchain/core/chain_indexer.go:178-183 | Section heads kept after a reorganisation at the common ancestor are on the new chain too. |
| `ChainIndexers.ChainIndexer.HandleNotice` | src/github.com/wanchain/go-wanchain/core/chain_indexer.go:173-186 | A head on top of the last one cuts nothing and raises the known sections to those it completes; a fork first cuts both counts to the fork point; every remaining section head stays on the chain of a head not yet superseded. |
| `ChainIndexers.KnownIff` | src/github.com/wanchain/go-wanchain/core/chain_indexer.go:218-222 | The known sections are as many as end, with the required confirmations, at or below the head. |
| `ChainIndexers.IndexAll` | src/github.com/wanchain/go-wanchain/core/chain_indexer.go:234-335 | On a chain nobody touches all known sections get stored, each under the canonical block at its last number. |
| `ChainIndexers.ChainIndexer.ReadSection` | src/github.com/wanchain/go-wanchain/core/chain_indexer.go:318-331 | The blocks are read one by one from a chain that may be rewritten in between; reading breaks off if and only if a header is missing or does not continue the one before. |
| `ChainIndexers.SharedIffBelowFork` | src/github.com/wanchain/go-wanchain/core/chain_indexer.go:178-183 | A block of one chain is on another if and only if they fork at or above it. |
| `ChainIndexers.AnchoredIff` | src/github.com/wanchain/go-wanchain/core/chain_indexer.go:273-283 | A head read from one chain is on that of the last handled head or of one still to be handled if and only if such a chain forks off at or above it. |
| `ChainIndexers.UndisturbedIsEnough` | src/github.com/wanchain/go-wanchain/core/chain_indexer.go:178-183 | It is so if no notice handled since the read reports a fork below it. |
| `ChainIndexers.RewrittenBack` | src/github.com/wanchain/go-wanchain/core/chain_indexer.go:178-183 | The converse fails: a chain rewritten away and back restores the head although two notices fork below it. |
| `ChainIndexers.StaleSection` | src/github.com/wanchain/go-wanchain/core/chain_indexer.go:234-304 | A run with sections of two blocks that ends with a stored head off the canonical chain and no notice outstanding. |
| `RingSignature.VerifyRingSign` | src/github.com/wanchain/go-wanchain/crypto/crypto.go:513-596 | Accepts if and only if the challenges sum up, modulo the group order, to the hash of the message and the points r*G + c*P and r*hash(P)*P + c*I of all members; rejects if no hash value could match or the lengths differ. |
| `RingSignature.AcceptsIff` | src/github.com/wanchain/go-wanchain/crypto/crypto.go:545-596 | The same for every list of points given by these congruences. |
| `RingSignature.CommitsOnce` | src/github.com/wanchain/go-wanchain/crypto/crypto.go:545-585 | Those points are determined by the ring, the key image and the signature. |
| `RingSignature.Closes` | src/github.com/wanchain/go-wanchain/crypto/crypto.go:498-505 | Response q - c*x closes the signer's commitment for every base. |
| `RingSignature.RingSign` | src/github.com/wanchain/go-wanchain/crypto/crypto.go:413-509 | For every ring, message, signer position and choice of randoms, with the first key x times the base point, the signature is accepted; the key image depends on the secret and its key alone, and only the signer's challenge and response differ from the randoms. |
| `RingSignature.OneTimeAddress` | src/github.com/wanchain/go-wanchain/crypto/crypto.go:600-616 | The receiver recognises a one-time address and derives its secret, for all secrets and randoms. |
| `RingSignature.OneAddress` | src/github.com/wanchain/go-wanchain/crypto/crypto.go:612-618 | For given keys exactly one address is recognised, and no two spending keys recognise the same one. |
| `RingSignature.SharedPoint` | src/github.com/wanchain/go-wanchain/crypto/crypto.go:691-704 | Sender and receiver reach the same shared point. |
| `RingSignature.SpendOneTime` | src/github.com/wanchain/go-wanchain/crypto/crypto.go:691-704 | The derived secret signs, and is accepted, in any ring that starts with the address. |
| `Base58.Encode` | src/github.com/wanchain/go-wanchain/crypto/crypto.go:795-821 | The digits of the text are the bytes in base 58, with one leading zero digit per leading zero byte. |
| `Base58.Decode` | src/github.com/wanchain/go-wanchain/crypto/crypto.go:763-792 | The bytes are the digits in base 256 with leading zeros kept; empty if a character is not in the alphabet. |
| `Base58.ConvertBack` | src/github.com/wanchain/go-wanchain/crypto/crypto.go:763-821 | Changing base and back gives the same digits, leading zeros included, for any two bases. |
| `Base58.BytesRoundTrip` | src/github.com/wanchain/go-wanchain/crypto/crypto.go:763-821 | Decoding the encoding gives back every byte string. |
| `Base58.TextRoundTrip` | src/github.com/wanchain/go-wanchain/crypto/crypto.go:763-821 | Encoding the decoding gives back every text over the alphabet. |

## Left out

- Pool reinjection (`reset` with a non-parent old head within 64 blocks): transactions are added back against freshly reset virtual nonces before the lists are demoted, a state in which the window does not hold yet.
- Pool journal, events, metrics and heartbeats: input and output, or only an order that is arbitrary here.
- TxPoolOps.Add: the tests of `validateTx` on format, signature, intrinsic gas, privacy stamps and precompiled contracts are sets of transactions that pass them; their order is that of the source.
- TxPool.RemoveTx: `pool.all` may keep transactions that are in no list after the list empties; the model keeps them too, so lists are contained in `all` and not equal to it.
- TxPriced.PricedList.Removed: `stales` is not an exact count in the code; what is stated is how it moves with the size of the heap.
- Pool lists inside `tx_pool.go` are values held by the pool's state record instead of separate objects; `tx_list.go` itself is modelled with objects updated in place.
- BMT schedules for chunks that end in a partial or odd segment, `ReadFrom`, `ResetWithLength` and `Draw`; `Writer.Write` does cover partial segments and odd counts.
- BmtSchedules.EveryScheduleDeliversRefHash: holds for trees of at least two leaves; the tree pool with its channel is not modelled.
- HeaderChains.HeaderChain.WriteHeader: numbers are taken to follow parents, which the consensus engine checks before; database failures are not modelled.
- BlockChains.BlockChain.WriteBlockAndState: database failures, receipts, logs, events, state commits and fast sync heads are not modelled, and the engine's check of a reorganisation is an input.
- RandSelect.Insert: tree nodes are values that their only parent holds, so updating them in place is not captured; 64-bit overflow of weight sums is not modelled.
- Feed.Feed.Send: type checks and the `once` initialisation are not modelled; a channel is its identity, and whether a send succeeds at once is an arbitrary choice.
- Gas.StateTransition.TransitionDb: running the code is any list of transfers, any nonces of other accounts and any remaining gas up to what was given; what a failing transaction leaves of the state once its gas is bought is not stated; block rewards and contract precompiles that move coins into one-time addresses are outside.
- ChainIndexers.ChainIndexer.Update: throttling, the shutdown protocol and the work of child indexers are not modelled; only what is passed on to children is. A rewrite of the canonical chain is one step, except that a read may see anything in the middle of it, and nothing is stated about the canonicity of a head read that way.
- RingSignature.RingSign: nil arguments, failures of the random source and points outside the curve are not modelled; nothing is stated about forging or anonymity.
- Base58.Decode: the lookup table of 256 bytes is written as ranges of characters.
- EVM execution, consensus engines, RSA and AES, key files, RLP and JSON codecs, LevelDB, RPC, console, peer handshakes and sync loops.
