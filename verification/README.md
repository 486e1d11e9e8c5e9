# Atlantis, verified in Dafny

Models of the stateful cores of an Ethereum client, each with the invariant the code relies
on or the simple form its fast form must agree with.

- **Binary Merkle tree hasher** (`Bmt*.dfy`): the concurrent tree hasher as a state machine of
  the caller and one goroutine per segment, against the recursive reference hasher.
- **Canonical chain** (`Chain.dfy`, `HeaderChain.dfy`, `BlockChain.dfy`): fork choice by total
  difficulty rewriting a number index and a transaction lookup.
- **Transaction pool** (`Heap.dfy`, `TxTypes.dfy`, `SortedMap.dfy`, `TxList.dfy`,
  `PricedList.dfy`, `PoolState.dfy`, `PoolLevels.dfy`, `PoolTrim.dfy`, `PoolSpec.dfy`,
  `PoolReset.dfy`, `TxPool.dfy`, `PoolExamples.dfy`): the nonce map with its heap and cache,
  account lists with caps, the lazy price heap, and the pool that keeps pending lists, queues,
  lookup, price heap and virtual nonces in agreement.
- **Light client** (`Retrieve.dfy`, `RetrieveProof.dfy`, `RetrieveRuns.dfy`, `Distributor.dfy`, `RandSelect.dfy`):
  the retrieval state machine with its goroutines, the request distributor and the weighted
  selection tree.
- **Event feed** (`Feed.dfy`): sends interleaved with subscribing and unsubscribing.
- **Gas and balances** (`Gas.dfy`): one transaction, a block, and its receipts.
- **Derivation paths** (`DerivationPath.dfy`): printing and parsing.

Conventions. Hashes are injective, so a transaction or header stands for its hash. Databases
are finite maps. Random draws, clocks, peers, the chain state and the EVM are parameters.
Methods that run under a lock are single steps; goroutines and channels are state machines
whose runs take their steps in any order. Map iteration is a loop over the keys in any order.
Numbers are unbounded except where a width matters: the int32 toggle, the uint64 gas checks and
receipt differences, and 32-bit path components are explicit.

Where the code differs from what its comments or callers suggest:

- Writing to a tree hasher with an odd segment count can take more than the capacity, and the
  next byte then panics; `BmtHasher.Hasher.Write` states exactly when, `BmtHasher.OverfillExample`
  shows one case, and the sum of such a chunk is not what the reference hasher gives for it
  (`BmtHasher.OverfilledSumDiffers`, and `BmtHasher.OverfilledSizedSumDiffers` for base hashes
  whose sums have the size of a segment).
- The toggle is an int32 that is never reset, so a tree hashes every chunk right exactly until it
  has hashed 2^30 chunks of several leaves (`BmtReuse.ReuseExact`); after that a sum can ignore
  part of its chunk (`BmtReuse.WrappedRun`).
- Queue truncation is commented as dropping the oldest; it empties the accounts with the latest
  heartbeat first (`PoolTrim.LatestFirst`). The oldest go first exactly if nothing has to go,
  everything remote has to go, or all heartbeats are equal (`PoolTrim.OldestFirstIff`);
  `PoolExamples.TruncationExample` shows the newer of two accounts lose.
- A full pool makes room before it checks the price bump, so transactions can be discarded for
  one that is then refused; `PoolSpec.CostlyRefusal` and `PoolSpec.RefusalForeseen` state exactly
  when, `PoolExamples.RefusalExample` shows one case.
- A reset that reinjects transactions can leave what is pending not executable, in two ways. An
  account gets a gap when one of them is refused (`PoolExamples.GapExample`). Or a reinjected
  transaction pushes one that is included already out of a full pool: the virtual nonce then falls
  below the head's, and the account's next transaction stays in the queue
  (`PoolExamples.StaleExample`). While neither the capacity nor the global slots can be reached,
  only the first can happen, and the old pool, the new head and the reinjected transactions tell
  exactly when (`PoolReset.ResetGaps`, `TxPool.TxPool.Reset`).
- A transaction that was dropped and added again can have two entries in the price heap
  (`PoolExamples.DoubleEntryExample`). Discarding several at once then drops too few exactly if one
  with two entries has a dearer one behind it (`PricedList.NumberExact`,
  `PricedList.DuplicateExample`). The pool itself always gives up the right number: in every run
  it holds at most one remote transaction once it is over its capacity (`PoolSpec.RoomExact`).
- Eviction is commented as dropping queued transactions of accounts that were idle for too long;
  an account with nothing pending has no heartbeat, so its queue goes at the next tick, however
  new it is, unless it is local (`TxPool.TxPool.Evict`).
- A retrieval is described as trying peers until it is stopped or succeeds. When the last peer it
  asked sends an invalid reply before its soft timeout and no other request is out, no further
  peer is asked and it stands still until it is stopped from outside
  (`RetrieveRuns.GoesOn` states exactly when, `RetrieveRuns.StallExample` shows one case).
- The empty derivation path prints as a string that does not parse (`DerivationPath.RoundTrip`).

`dafny verify dfyconfig.toml` checks the whole project.

## Model

| member | source | states |
|---|---|---|
| `BmtReference.SpanSegments` | bmt/bmt_r.go:39-55 | The doubling loop ends at the largest power of two, at least two, below the segment count, so that twice it covers all segments. |
| `BmtReference.RefHasher.constructor` | bmt/bmt_r.go:39-55 | The capacity is `count` segments and the span is that power of two of segments. |
| `BmtReference.RefHasher.Hash` | bmt/bmt_r.go:59-65 | The hasher object computes `RefHash` on the chunk, cut at the capacity. |
| `BmtReference.RefHasher.HashSpan` | bmt/bmt_r.go:67-85 | The recursion with its halving loop computes the reference function on every prefix and span. |
| `BmtReference.NodeValueIsRefHash` | bmt/bmt_r.go:67-85 | A node with two children has as value the reference hash of its part of the chunk, whatever the starting span. |
| `BmtHasher.Depth` | bmt/bmt.go:519-524 | The counting loop finds the depth whose leaves hold all segments. |
| `BmtHasher.NewTree` | bmt/bmt.go:253-275 | The level-by-level construction builds exactly the nodes of the tree, all clean, with all counters zero. |
| `BmtMachine.TogglePairs` | bmt/bmt.go:507-509 | Two toggles of one counter, with int32 wrap-around, let exactly the second arrival through if and only if the counter is even and non-negative before. |
| `BmtRuns.HasherMatchesReference` | bmt/bmt.go:292-318 | For every chunk, depth and interleaving of the segment goroutines, on every clean tree where no counter that pairs arrivals is negative: the sum delivered is the reference hash, all goroutines have then ended, the released tree is clean with every counter advanced by two per met pair, until then some step is possible, and no run is longer than its rank. |
| `BmtRuns.RunInv` | bmt/bmt.go:440-492 | The node, goroutine and caller invariants hold in every state of every run. |
| `BmtRuns.ThreadKeeps` | bmt/bmt.go:461-492 | Every step of a goroutine climbing the tree keeps the invariant. |
| `BmtRuns.MainKeeps` | bmt/bmt.go:292-318 | Every step of the caller (launching, finalising, waiting) keeps the invariant. |
| `BmtRuns.FinaliseKeeps` | bmt/bmt.go:528-545 | Marking unbalanced nodes on the path of the last segment never races with a goroutine that reads them. |
| `BmtRuns.NoDeadlock` | bmt/bmt.go:440-492 | Until the sum is delivered, some goroutine or the caller can step. |
| `BmtRuns.StepRank` | bmt/bmt.go:440-492 | Every step lowers the rank, so every run ends. |
| `BmtRuns.ReleaseCleans` | bmt/bmt.go:423-438 | releaseTree, walking one path up, leaves every node of the tree clean. |
| `BmtRuns.ReusableUnlessWrapped` | bmt/bmt.go:423-438 | A counter of the released tree is non-negative if and only if it was before and was not the last even value in use. |
| `BmtReuse.HistoryTracked` | bmt/bmt.go:423-438 | After any history of chunks on one new tree, each hashed in some order of steps from what the one before released, every counter is twice the number of pairs that met there, up to the first wrap. |
| `BmtReuse.HistoryRight` | bmt/bmt.go:292-318 | Every sum of such a history is the reference hash of its chunk. |
| `BmtReuse.NextRight` | bmt/bmt.go:292-318 | The next chunk is hashed right in every order of steps if it has one leaf or fewer than 2^30 chunks before had several. |
| `BmtReuse.WrappedRun` | bmt/bmt.go:461-509 | On every clean tree whose first pair has a negative counter, every chunk of two leaves, the second longer than a segment, has a run whose sum combines the second leaf with what an earlier chunk left, whatever the first leaf holds. |
| `BmtReuse.ReuseExact` | bmt/bmt.go:423-509 | A tree that has hashed at most 2^30 chunks of several leaves hashes every further chunk right, in every order of steps, if and only if it has hashed fewer: under every base hash, and also if only base hashes with sums of the size of a segment count. |
| `BmtReuse.RunOn` | bmt/bmt.go:440-492 | Every run can be carried on until the tree is released. |
| `BmtReuse.HistoryExists` | bmt/bmt.go:423-438 | Histories with any number of long chunks up to and including the wrap exist. |
| `BmtHasher.Hasher.constructor` | bmt/bmt.go:90-99 | A new hasher has taken nothing. |
| `BmtHasher.Hasher.Write` | bmt/bmt.go:333-372 | For every buffer and every state of the hasher: it panics if and only if the buffer is not empty and the hasher is overfilled already; otherwise the bytes are taken in order and exactly up to the capacity, except that the last leaf is overfilled, by a stated number of bytes, if and only if the segment count is odd, something was written before, the last leaf is not reached yet and the bytes exceed the capacity. |
| `BmtHasher.Hasher.Measure` | bmt/bmt.go:333-350 | What the tree and the open leaf can still take; the slice bound is negative if and only if the hasher is overfilled. |
| `BmtHasher.Hasher.Complete` | bmt/bmt.go:333-350 | Completing the open segment takes as much as was measured and leaves it full if more is to come. |
| `BmtHasher.Hasher.Fill` | bmt/bmt.go:351-368 | The loop launches one goroutine per full leaf with exactly its bytes and opens the next. |
| `BmtHasher.OverfillExample` | bmt/bmt.go:333-372 | A three-segment hasher takes 4 segments when a chunk arrives in two writes, and a third write panics. |
| `BmtHasher.CallsAreThePlan` | bmt/bmt.go:333-372 | The goroutines that Write launched, with the open segment, are the plan of the tree machine for the bytes written. |
| `BmtHasher.SumIsRefHash` | bmt/bmt.go:292-318 | After any sequence of writes, overfilled or not, every run of Sum delivers the reference hash of all bytes taken. |
| `BmtHasher.OverfilledSumDiffers` | bmt/bmt_r.go:59-65 | That is the hash RefHasher gives for the same bytes, under every base hash, if and only if the capacity was not exceeded, since RefHasher cuts there. |
| `BmtHasher.OverfilledSizedSumDiffers` | bmt/bmt_r.go:59-65 | The same if only base hashes count whose sums have the size of a segment: all chunks of one length agree with RefHasher if and only if that length is within the capacity. |
| `Chain.IndexIsHeadPath` | core/headerchain.go:134-195 | Under the canonical-index invariant, entry n is the block reached from the head by following parents down to n. |
| `Chain.PathIsWalk` | core/headerchain.go:315-345 | A stretch of the index is a walk along parent links. |
| `Chain.TdIsPathDifficulty` | core/headerchain.go:140-152 | A stored total difficulty is the sum of the difficulties on the path to genesis. |
| `Chain.AddHeader` | core/headerchain.go:140-152 | Storing a header with its parent keeps the tree of headers and its difficulties. |
| `HeaderChain.HeaderChain.constructor` | core/headerchain.go:73-109 | A chain starts with genesis as its only header and head. |
| `HeaderChain.HeaderChain.WriteHeader` | core/headerchain.go:134-195 | Every header: the number index stays defined exactly on 0..head and equals the head path, the stored difficulty is the parent difficulty plus its own, the head changes if and only if fork choice says so, and no stored header is ever heavier than the head. |
| `HeaderChain.HeaderChain.DeleteAbove` | core/headerchain.go:159-165 | The first rewrite loop deletes exactly the entries from the new head upwards and ends. |
| `HeaderChain.HeaderChain.RewriteBelow` | core/headerchain.go:167-178 | The second loop overwrites entries down to the fork point, after which the index is the path of the new parent. |
| `HeaderChain.HeaderChain.Reroute` | core/headerchain.go:158-187 | Both loops together make the index the path of the new head. |
| `HeaderChain.HeaderChain.InsertHeaderChain` | core/headerchain.go:259-285 | A batch is written up to the first header without a parent, and nothing else; the head is then a heaviest of all stored headers, the old one or a new one of the batch, which at equal difficulty only a draw puts there; the index is its path. |
| `HeaderChain.HeaderChain.GetAncestor` | core/headerchain.go:315-345 | For every block and distance: the answer is the block reached by that many parent links or nothing, and one unit of the allowance is spent per non-canonical block walked; unknown and empty hashes included. |
| `HeaderChain.HeaderChain.IndexEntries` | core/headerchain.go:315-345 | Every index entry names a stored, non-empty header of that number. |
| `BlockChain.BlockChain.constructor` | core/blockchain.go:396-418 | A chain starts at genesis. |
| `BlockChain.BlockChain.FindCommon` | core/blockchain.go:1251-1318 | The two walks meet at the common ancestor, with the new blocks and the old transactions collected in order. |
| `BlockChain.BlockChain.Reorg` | core/blockchain.go:1251-1345 | After any reorganisation the index up to the new head is its ancestor path, and the lookup holds exactly the transactions on that path, each at its block. |
| `BlockChain.BlockChain.Adopt` | core/blockchain.go:1330-1338 | Inserting the new blocks from the ancestor upwards moves index and lookup together. |
| `BlockChain.BlockChain.DeleteLookup` | core/blockchain.go:1341-1345 | Lookup entries are deleted exactly for the given transactions. |
| `BlockChain.BlockChain.WriteBlockWithState` | core/blockchain.go:877-990 | For every block and either random draw: index and lookup agree with the head path afterwards, the block becomes head if and only if fork choice says so, no stored block is ever heavier than the head or as heavy with a lower number, and nothing changes when its parent is unknown. |
| `BlockChain.TxDifference` | core/types/transaction.go:279-294 | The result holds the transactions of the first list that are not in the second, in order and as often as they occur: exactly those positions. |
| `BlockChain.ChainTxs` | core/blockchain.go:1251-1345 | The transactions up to a block are those of the new blocks and those up to the common ancestor. |
| `BlockChain.OnePlace` | core/blockchain.go:1251-1345 | A transaction on the head path is in one block of it only, so its lookup entry is unique. |
| `RetrieveProof.StepKeeps` | les/retrieve.go:181-389 | Every step of the loop, a tryRequest goroutine, a delivery, a timer or a stop keeps the bookkeeping invariant. |
| `RetrieveProof.RunKeeps` | les/retrieve.go:181-389 | It holds after every run. |
| `RetrieveProof.RunOutcome` | les/retrieve.go:115-125 | In every interleaving: the counters are the loop view of the goroutines, the timeout count is never negative, the loop has exited only when no goroutine is live, and a nil result means a reply was validated; `RetrieveRuns.RunResult` gives the result exactly. |
| `RetrieveProof.CountersByPhase` | les/retrieve.go:260-277 | With no event pending, `lastReqQueued`, `lastReqSentTo` and `reqSrtoCount` count the goroutines by phase. |
| `RetrieveProof.EntriesPresent` | les/retrieve.go:288-377 | A goroutine waiting for a peer owns that peer entry in sentTo, and a delivery never meets a full reply channel. |
| `RetrieveProof.NotWaiting` | les/retrieve.go:281-283 | waiting() is false exactly when the loop has heard the last of every goroutine. |
| `RetrieveProof.CountUpdate` | les/retrieve.go:260-277 | The count of timed out goroutines changes by what one event says. |
| `RetrieveRuns.ValidEventStops` | les/retrieve.go:197-246 | In every run: once the loop has taken the event of a valid reply, the retrieval is stopped for good, and without error unless it was stopped from outside before. |
| `RetrieveRuns.RunResult` | les/retrieve.go:115-125 | Every retrieval that is not stopped from outside ends without error if and only if some goroutine read a valid reply, and otherwise with the error that there are no peers. |
| `RetrieveRuns.ReplyKept` | les/retrieve.go:362-377 | A reply accepted while its goroutine waits stays in its channel until it is read or the hard timeout comes. |
| `RetrieveRuns.ValidReplyWins` | les/retrieve.go:115-125 | So a valid reply that is accepted while its goroutine waits ends the retrieval without error, unless the hard timeout overtakes it or it is stopped from outside. |
| `RetrieveRuns.ReplyIsDelivered` | les/retrieve.go:362-377 | What a goroutine finds in its channel was delivered by the peer it had asked. |
| `RetrieveRuns.AsksAt` | les/retrieve.go:197-246 | While the loop is requesting, the newest goroutine has not timed out, since a new one is started then, and if it is over, an invalid reply was heard; with no more peers, it was heard that nobody could be asked. |
| `RetrieveRuns.GoesOn` | les/retrieve.go:181-257 | In every run some step of its own is possible unless the retrieval is finished or stalled, and then nothing but a stop from outside can happen; with all requests over and no stop, it is stalled if and only if the newest got an invalid reply. |
| `RetrieveRuns.StallExample` | les/retrieve.go:197-228 | One peer and one invalid reply: nothing more is asked. |
| `RetrieveRuns.EndsAfterStop` | les/retrieve.go:252-257 | After the stop no request is added and every own step lowers a rank, so the loop returns. |
| `Feed.FindCase` | event/feed.go:213-220 | The scan returns the first position of the channel, or -1 exactly when it is absent. |
| `Feed.Find` | event/feed.go:213-220 | The same for the specification function. |
| `Feed.Deactivated` | event/feed.go:228-232 | Deactivating a case keeps the multiset of channels, the unsent prefix loses exactly that case. |
| `Feed.DeleteInPlace` | event/feed.go:223-225 | The shift in the shared slice removes one case from the prefix and the whole list alike. |
| `Feed.DeactivateInPlace` | event/feed.go:228-232 | The swap in the shared slice does what the specification says. |
| `Feed.DeletedSplit` | event/feed.go:171-178 | Deleting a case from the shared slice removes it from either the unsent prefix or the sent rest. |
| `Feed.StepsAreSafe` | event/feed.go:73-190 | No step indexes out of range. |
| `Feed.StepKeeps` | event/feed.go:73-190 | Every subscribe, unsubscribe, removal and send step keeps: cases is the unsent prefix of sendCases, and every begun case is unsent, delivered or removed. |
| `Feed.SendDeliversOnce` | event/feed.go:129-190 | In every interleaving, when a Send ends: the subscriptions live or waiting for removal when it began are each delivered to exactly once or removed before that, no other is delivered to, only those waiting or unsubscribed since are removed, and it returns the number of deliveries. |
| `Feed.SubscribersServed` | event/feed.go:75-190 | Counted by calls: a channel gets the value at most as often as it was subscribed before the Send, and at least that often less the unsubscriptions. |
| `Feed.SendEnds` | event/feed.go:155-190 | A Send can always try, select or end, each of its own steps leaves less to do, and after it another can begin. |
| `Feed.OneList` | event/feed.go:73-125 | In every run a live channel is in exactly one of inbox and sendCases. |
| `RandSelect.FindBranch` | les/randselect.go:107-131 | The search finds a branch with room, so the panic is never reached. |
| `RandSelect.Insert` | les/randselect.go:107-131 | The item lands in a free index, nothing else changes, and sums and counts stay those of the subtrees. |
| `RandSelect.SetWeight` | les/randselect.go:135-156 | Changing a weight by index changes that entry only, returns the difference, and a zero weight frees the index. |
| `RandSelect.ChooseNode` | les/randselect.go:159-170 | The descent returns the item a flat prefix-sum scan would pick. |
| `RandSelect.SlotChange` | les/randselect.go:107-156 | A change in one branch keeps a node valid. |
| `RandSelect.GrownValid` | les/randselect.go:62-68 | Adding a level keeps all contents at their indices. |
| `RandSelect.WeightedRandomSelect.SetItem` | les/randselect.go:54-73 | setWeight stores exactly this weight for the item and keeps all others; the root sum is adjusted by the difference. |
| `RandSelect.WeightedRandomSelect.AddItem` | les/randselect.go:58-68 | A new item gets a valid index even when a level is added. |
| `RandSelect.WeightedRandomSelect.Choose` | les/randselect.go:79-94 | For all random numbers: the choice and the stored weights are those of the rounds over the flat list, picking by stored weight and thinning out items that have become lighter. The retry loop ends, because each retry lowers the root weight; the item returned has the weight stored for it. |
| `RandSelect.FairPick` | les/randselect.go:75-94 | Of all random numbers below the total weight, exactly as many pick an item as its stored weight says. |
| `SortedMap.SortedMap.constructor` | core/tx_list.go:59-64 | An empty map is valid. |
| `SortedMap.SortedMap.Put` | core/tx_list.go:73-79 | The nonce maps to the transaction, and the heap holds exactly the keys. |
| `SortedMap.SortedMap.Forward` | core/tx_list.go:84-98 | Exactly the nonces below the threshold leave, in order; a cache that is only sliced is still the sorted contents. |
| `SortedMap.SortedMap.Filter` | core/tx_list.go:102-123 | Exactly the transactions that satisfy the predicate leave, each returned once, for any iteration order; the index is rebuilt. |
| `SortedMap.SortedMap.Cap` | core/tx_list.go:127-148 | The lowest nonces up to the threshold stay, the others are returned highest first, and the sliced cache is still the sorted contents. |
| `SortedMap.SortedMap.Remove` | core/tx_list.go:152-169 | The nonce leaves map and heap; the answer says whether it was there. |
| `SortedMap.SortedMap.Ready` | core/tx_list.go:178-193 | The maximal run of consecutive nonces from the lowest one leaves, unless it starts above the given nonce. |
| `SortedMap.SortedMap.Flatten` | core/tx_list.go:203-216 | The result is the contents in nonce order, cached or not. |
| `TxTypes.ListedIncreasing` | core/tx_list.go:203-216 | The listing is in strictly increasing nonce order. |
| `TxTypes.ListedContents` | core/tx_list.go:203-216 | The listing holds exactly the contents. |
| `TxTypes.ListedCut` | core/tx_list.go:127-148 | Keeping the lowest k nonces is taking the first k of the listing. |
| `TxTypes.RunEnd` | core/tx_list.go:178-193 | The first absent nonce: everything between is present. |
| `TxList.TxList.constructor` | core/tx_list.go:232-238 | A new list is empty, with zero caps. |
| `TxList.TxList.Add` | core/tx_list.go:251-272 | A transaction is taken if and only if its nonce is free, or its price is higher than that of the present one and 100 times its price plus one is more than the present price times 100 plus the bump; the caps then bound it too. |
| `TxList.OutbidsIs` | core/tx_list.go:253-260 | The threshold rule in whole numbers, without division. |
| `TxList.TxList.Forward` | core/tx_list.go:277-279 | Exactly the nonces below the threshold leave. |
| `TxList.FilterExact` | core/tx_list.go:290-314 | With the caps invariant, the short circuit never misses anything: a loose list loses exactly the transactions over a limit, a strict one keeps exactly those with nothing over a limit at or below their nonce; the caps stay bounds. |
| `TxList.TxList.Filter` | core/tx_list.go:290-314 | The list in place does this, and returns the unpayable and the invalidated ones separately, each once. |
| `TxList.TxList.Lowest` | core/tx_list.go:302-311 | The loop from the largest nonce finds the lowest removed one. |
| `TxList.TxList.Cap` | core/tx_list.go:318-320 | The lowest nonces stay. |
| `TxList.TxList.Remove` | core/tx_list.go:325-336 | The nonce leaves; on a strict list everything above leaves too and is returned. |
| `TxList.TxList.Ready` | core/tx_list.go:345-347 | As for the sorted map. |
| `TxList.TxList.Flatten` | core/tx_list.go:362-364 | As for the sorted map. |
| `PricedList.PricedList.Put` | core/tx_list.go:414-416 | One entry is added to the price heap. |
| `PricedList.PricedList.Removed` | core/tx_list.go:421-436 | The heap is rebuilt from the live transactions exactly when more than a quarter may be stale. |
| `PricedList.PricedList.Cap` | core/tx_list.go:440-467 | With every pooled transaction covered, exactly the remote ones below the threshold are dropped, and no live entry is lost. |
| `PricedList.PricedList.Underpriced` | core/tx_list.go:471-493 | Despite stale entries the answer compares with the true minimum of the pool. |
| `PricedList.PricedList.Discard` | core/tx_list.go:497-520 | Only remote ones are dropped, no entry that stays is worse than one dropped, fewer than asked only if no remote one stays, and no live entry is lost; `DropsFront` and `NumberExact` tell from the heap before which and how many these are. |
| `PricedList.DuplicateExample` | core/tx_list.go:497-520 | Of two transactions, the cheaper with two entries, discarding two drops only the cheaper. |
| `PricedList.DiscardExact` | core/tx_list.go:497-520 | Without duplicate entries, ties or not, the dropped ones are distinct and as many as asked for or as there are remote ones. |
| `PricedList.ChoosesFront` | core/tx_list.go:497-520 | Whatever entries the heap has: a remote transaction without a tie is dropped if and only if fewer entries of strictly cheaper live remote ones than asked for are before it, duplicates counted. |
| `PricedList.DropsFront` | core/tx_list.go:497-520 | So without ties the dropped ones are exactly the remote ones with such a rank below the number asked for. |
| `PricedList.RankAndEntries` | core/tx_list.go:497-520 | There are as many entries before a transaction as transactions if and only if none of those has two entries, and never fewer. |
| `PricedList.NumberExact` | core/tx_list.go:497-520 | Without ties the number dropped is right for every number asked for if and only if no remote transaction with two entries has a dearer remote one. |
| `PricedList.LastFirst` | core/tx_list.go:373-383 | Of an account whose prices do not rise with the nonce, no transaction is dropped while a later one stays. |
| `PricedList.ConservedCovers` | core/tx_list.go:440-520 | What is not dropped stays covered by the heap. |
| `PoolState.OnePlace` | core/tx_pool.go:606-753 | In every sound pool state a pooled transaction is in exactly one of its account two lists, and no two pooled transactions share account and nonce. |
| `PoolState.AccountChanged` | core/tx_pool.go:606-1124 | A change to one account lists and transactions keeps the partition of the whole pool. |
| `PoolState.PendingRemoved` | core/tx_pool.go:864-903 | Removing a pending transaction and queueing everything behind it keeps the partition: nothing collides. |
| `PoolState.QueueRemoved` | core/tx_pool.go:864-903 | Removing a queued transaction keeps the partition. |
| `PoolState.MovesUp` | core/tx_pool.go:940-947 | Promoting queued transactions keeps the partition. |
| `PoolState.MovesBack` | core/tx_pool.go:1104-1116 | Demoting pending transactions keeps the partition: nothing collides. |
| `PoolState.Promoted` | core/tx_pool.go:920-963 | One account promotion, with all its drops, keeps the partition. |
| `PoolState.RunExtended` | core/tx_pool.go:926-948 | If pending nonces run from the head nonce to the virtual one, what is ready continues that run, and the next nonce is then not queued. |
| `PoolState.PromotedRuns` | core/tx_pool.go:926-948 | So promotion keeps the runs of all accounts. |
| `PoolState.RunShortened` | core/tx_pool.go:895-898 | Cutting a run at a pending nonce and lowering the virtual nonce to it keeps the runs. |
| `PoolState.DemotedRun` | core/tx_pool.go:1084-1124 | A run under one head, forwarded and filtered under another, is a run again or starts late and is demoted whole. |
| `PoolState.SettledRuns` | core/tx_pool.go:422-428 | Setting each virtual nonce behind the last pending transaction makes every account a run of payable transactions. |
| `PoolState.ReplacedRuns` | core/tx_pool.go:633-657 | Replacing a pending transaction by a payable one keeps the runs. |
| `PoolState.LocalsUntouched` | core/tx_pool.go:968-1079 | Accounts whose lists are untouched keep all their transactions. |
| `TxPool.TxPool.constructor` | core/tx_pool.go:216-256 | An empty pool satisfies all invariants. |
| `TxPool.TxPool.ValidateTx` | core/tx_pool.go:555-596 | A transaction passes if and only if size, value, gas, sender, price, nonce, funds and intrinsic gas are in order, and the error names the first violated condition. |
| `TxPool.TxPool.Add` | core/tx_pool.go:606-674 | The exact verdict: known, the first fault, underpriced in a full pool, not outbidding a rival that is left, or accepted, and accepted if and only if none of these. The exact lookup, pending nonces, virtual nonces, heartbeats and local accounts afterwards; a full pool gives up its cheapest remote transactions, as many and which as `MakeRoom` says, even if the new one is then refused; a new one gets one more entry in the price heap. All invariants stay, heartbeats and the bound of `PoolSpec.OutcomeSteady` included. |
| `PoolSpec.VerdictByPrice` | core/tx_pool.go:631-643 | By prices alone: a transaction that only a rival can stop is accepted if and only if it outpays the rival that is left by the bump, and is refused for that alone otherwise. |
| `TxPool.TxPool.Vet` | core/tx_pool.go:607-625 | The guards of add let a transaction pass if and only if only a rival can stop it, and otherwise give the verdict. |
| `TxPool.TxPool.Enter` | core/tx_pool.go:618-673 | The part of add behind its guards. |
| `PoolSpec.CostlyRefusal` | core/tx_pool.go:618-643 | A refused transaction costs others their place if and only if the pool is full, only a rival stands against it, some pooled transaction is remote, and a rival that is left is not outbid. |
| `PoolSpec.RoomExact` | core/tx_pool.go:619-630 | A full pool that holds at most one remote transaction when over its capacity gives up exactly the excess plus one, or all remote ones, whatever entries the price heap has. |
| `PoolSpec.OutcomeSteady` | core/tx_pool.go:606-674 | An addition keeps that bound, and that exactly the accounts with pending transactions have a heartbeat. |
| `PoolSpec.SettlesSteady` | core/tx_pool.go:908-1079 | So does the promotion after it. |
| `PoolSpec.DemotionSteady` | core/tx_pool.go:1084-1124 | And the demotion at a new head. |
| `PoolSpec.StaysIf` | core/tx_list.go:497-520 | Without a tie, a transaction stays when room is made if and only if it is local or the price heap has at least as many entries of cheaper remote ones as were asked for, duplicates counted. |
| `PoolSpec.RefusalForeseen` | core/tx_pool.go:618-643 | So the costly refusals are told before the call, whatever entries the price heap has: a rival is not outbid, and is local or has at least as many entries of cheaper remote ones before it as must go. |
| `PoolExamples.RefusalExample` | core/tx_pool.go:606-674 | A pool for two, one cheap transaction and one at price 10: a second one at price 10 under the same nonce is refused and the cheap one is lost. |
| `PoolExamples.BumpExample` | core/tx_list.go:253-260 | Under a bump of ten percent, price 21 does not replace price 20, and price 22 does. |
| `TxPool.TxPool.Insert` | core/tx_pool.go:631-673 | It is accepted if and only if it outbids its rival, if any, whose place it takes; its account becomes local only if it went to the queue. |
| `TxPool.TxPool.MakeRoom` | core/tx_pool.go:619-630 | Only remote transactions leave, the cheapest. Their number is exactly the excess plus one, or all remote ones, in every pool that holds at most one remote transaction when over its capacity, as every run from an empty pool does, and in every pool without duplicate heap entries. One without a tie leaves if and only if fewer entries of cheaper remote ones than that are before it. The pending nonces, virtual nonces and heartbeats that are left. |
| `TxPool.TxPool.CheckUnderpriced` | core/tx_pool.go:621-625 | Underpriced compares with the true pool minimum. |
| `TxPool.TxPool.ReplacePending` | core/tx_pool.go:633-657 | A pending transaction is replaced if and only if it is outbid. |
| `TxPool.TxPool.EnqueueTx` | core/tx_pool.go:679-702 | The new queue, lookup and heap coverage in both the accepted and the refused case. |
| `TxPool.TxPool.Postpone` | core/tx_pool.go:891-893 | Invalidated transactions, in any order, all get back into the queue and none collides. |
| `TxPool.TxPool.PromoteTx` | core/tx_pool.go:720-753 | The new pending list, lookup, virtual nonce and heartbeat, in the inserted and the refused case. |
| `TxPool.TxPool.PromoteFresh` | core/tx_pool.go:720-753 | For a nonce that is not pending, which the partition guarantees in promoteExecutables, the refusing and replacing branches are dead. |
| `TxPool.TxPool.AddTx` | core/tx_pool.go:784-799 | One addition as `Add` says, then, if it replaced nothing, the promotion of its account as `PromoteExecutables` says, otherwise nothing; local accounts lose only dead transactions to it. All invariants stay, with nothing executable left in a queue. |
| `TxPool.TxPool.AddTxs` | core/tx_pool.go:811-834 | A batch is its additions one after the other, each with its own verdict and outcome as `Add` says, and one promotion of exactly the accounts of those that replaced nothing. All invariants stay, with nothing executable left in a queue. |
| `TxPool.TxPool.RemoveTx` | core/tx_pool.go:864-903 | Exactly this transaction leaves the lookup; if it was pending, those before it stay, those behind it are queued, the virtual nonce falls to its own and an emptied account loses its heartbeat; all invariants stay. |
| `TxPool.TxPool.PromoteList` | core/tx_pool.go:920-963 | The exact pending list, queue, lookup, virtual nonce and heartbeat after one account promotion. |
| `TxPool.TxPool.PromoteAccount` | core/tx_pool.go:920-963 | The exact state of the account after its promotion, and no other account touched; the invariants stay, an account that is not local ends within its queue limit, and nothing executable is left in its queue. |
| `TxPool.TxPool.PromoteEach` | core/tx_pool.go:919-963 | The given accounts are promoted one after the other, each time from the state before to the exact state of `PromoteAccount`, also when one is given twice, and the others are untouched. |
| `TxPool.TxPool.PromoteExecutables` | core/tx_pool.go:908-1079 | Whatever the accounts, its three phases in turn: promotion of these accounts one after the other, equalization of the result at one level, truncation of the resulting queue. All invariants stay, the global limits hold unless only guaranteed or local transactions exceed them, a local account loses only transactions that are included or unpayable, and if only these accounts could have executable transactions queued, none has. |
| `TxPool.TxPool.CutLast` | core/tx_pool.go:998-1011 | One account loses exactly the transaction with its highest pending nonce, and its virtual nonce falls to it unless it was lower. |
| `TxPool.TxPool.CutRound` | core/tx_pool.go:996-1013 | A round over all accounts above a level brings all of them one lower. |
| `TxPool.TxPool.EqualizeTo` | core/tx_pool.go:990-1014 | The earlier offenders are brought down to the new one length, no further than needed. |
| `TxPool.TxPool.Penalize` | core/tx_pool.go:983-1015 | The loop over the priority queue ends with room, or with all offenders at the length of the last. |
| `TxPool.TxPool.Reduce` | core/tx_pool.go:1016-1036 | The final loop ends with room or at the guaranteed slots. |
| `TxPool.TxPool.Equalize` | core/tx_pool.go:968-1038 | Equalization ends with all lists that are not local cut at one level, never below the guaranteed slots; the total then fits or the level is the guaranteed slots; one level higher the total would still be too large; and each virtual nonce falls to the lowest nonce cut. |
| `PoolLevels.LevelIsFair` | core/tx_pool.go:968-1038 | Cutting at one level: locals are untouched, no list is cut below it, lists that lost something end equally long and no shorter than any that did not, and every list keeps its lowest nonces. |
| `PoolLevels.HuntStep` | core/tx_pool.go:975-989 | When an offender is popped, the earlier ones are exactly the accounts longer than it. |
| `PoolLevels.CrowdedIs` | core/tx_pool.go:984-1014 | A state seen in the loop with too many transactions is the cut at the next level. |
| `PoolLevels.Count` | core/tx_pool.go:968-973 | The counting loop gives the number of transactions in all lists. |
| `TxPool.TxPool.TruncateQueue` | core/tx_pool.go:1039-1078 | If too much is queued, exactly the excess leaves or everything that is not local; locals keep all, others keep their lowest nonces. The oldest go first if and only if nothing or everything remote has to go or all remote heartbeats are equal. |
| `TxPool.TxPool.TrimAccount` | core/tx_pool.go:1056-1077 | One account loses everything or, if that is too much, exactly the rest of the excess. |
| `PoolTrim.LatestFirst` | core/tx_pool.go:1045-1061 | If an account lost anything, every account with a later heartbeat lost everything. |
| `PoolTrim.OldestFirstIff` | core/tx_pool.go:1039-1078 | After every truncation: if an account lost anything, every account with an earlier heartbeat lost everything, if and only if there was no excess, the excess is at least all that is remote, or all remote heartbeats are equal. |
| `PoolExamples.TruncationExample` | core/tx_pool.go:1039-1078 | Two accounts become active one after the other and then each send a transaction behind a gap; the queue has room for one, and the account with the later heartbeat loses. |
| `PoolSpec.RemovedIdle` | core/tx_pool.go:864-903 | Removing a transaction never makes a queued one executable. |
| `PoolSpec.ShrunkIdle` | core/tx_pool.go:968-1038 | Nor does cutting pending lists: the virtual nonce falls only to a nonce that is not queued. |
| `PoolSpec.PromotedIdle` | core/tx_pool.go:908-1079 | Promoting every account that may have executable transactions queued leaves none. |
| `PoolTrim.SortByBeat` | core/tx_pool.go:1046-1052 | Every account that is not local is listed once, by heartbeat. |
| `TxPool.TxPool.DemoteList` | core/tx_pool.go:1087-1122 | The exact pending list, queue and lookup after one account demotion. |
| `TxPool.TxPool.DemoteAccount` | core/tx_pool.go:1087-1122 | The exact lists and heartbeat of the account, and no other account touched; only included or unpayable transactions leave the pool, and a run under the old head becomes one under the new head. |
| `TxPool.TxPool.DemoteUnexecutables` | core/tx_pool.go:1084-1124 | The same for all accounts, in any order. |
| `TxPool.TxPool.FollowPending` | core/tx_pool.go:422-428 | Exactly the accounts with pending transactions get a virtual nonce one past their last pending nonce; the others keep theirs. |
| `TxPool.TxPool.Reset` | core/tx_pool.go:401-431 | For any new head state and any reinjected transactions: the batch of reinjections as `AddTxs` says, then exactly the demotion of every pending list under the new head, the virtual nonces behind what is left, and the promotion of every queued account as `PromoteExecutables` says. The pool stays sound and within limits. If the reinjections cannot reach the capacity or the global slots, an executable pool is executable afterwards if and only if no account gets a gap, a condition on the pool before, the new head and the reinjected transactions, and every such account then has its first old pending nonce pending with one missing before it; if executable, nothing executable is queued. The same without that bound if nothing is reinjected; then nothing new enters, and local accounts lose only included or unpayable transactions. |
| `TxPool.TxPool.Demote` | core/tx_pool.go:418-428 | The exact demotion of all accounts and their virtual nonces; what is pending is then executable if and only if no account has a gap. |
| `PoolSpec.DemotedRuns` | core/tx_pool.go:418-428 | For every state before: demoted lists and the virtual nonces behind them are runs from the head nonce if and only if no nonce is missing between the head nonce and the last pending one, and accounts with nothing pending have the head nonce as virtual nonce. A step of `PoolReset.ResetGaps`, which gives the condition before the call. |
| `PoolReset.TrailFree` | core/tx_pool.go:811-834 | A batch that the pool has room for leaves exactly the lookup that accepting its transactions one by one gives, and every pending and virtual nonce as before. |
| `PoolReset.DirtyIs` | core/tx_pool.go:811-834 | The accounts it promotes are exactly those with a transaction at a nonce that none had before. |
| `PoolReset.RisingIs` | core/tx_pool.go:920-948 | What promotion from the head nonce takes is the run of payable pooled nonces that starts there. |
| `PoolReset.PromotedFreely` | core/tx_pool.go:908-1079 | While the global slots are not reached, promotion adds exactly that run to each of its accounts and changes no other pending list. |
| `PoolReset.AccountGap` | core/tx_pool.go:409-428 | So after the demotion an account has a gap if and only if its pending nonces began behind the new head nonce, a new nonce made it promoted, what was then ready from the head nonce on stops short of them, and the first of them is payable. |
| `PoolReset.GapPersists` | core/tx_pool.go:429-431 | The promotion that ends the reset does not close such a gap. |
| `PoolReset.ResetGaps` | core/tx_pool.go:401-431 | For all accounts: with room for the reinjected transactions, a reset leaves an executable pool not executable if and only if some account meets this condition, told from the pool before, the new head and these transactions. |
| `PoolExamples.GapExample` | core/tx_pool.go:401-431 | Nonce 2 is pending, the head falls back to nonce 0, and of the reinjected nonces 0 and 1 the second is refused: nonce 2 is then still pending and nonce 1 missing. |
| `PoolExamples.StaleExample` | core/tx_pool.go:401-431 | A full pool holds nonces 0 and 1 of an account, the head moves on to nonce 1, and a reinjected transaction of another account takes the place of nonce 0: nonce 1 is executable but stays queued, above a virtual nonce of 0. |
| `PoolExamples.DoubleEntryExample` | core/tx_list.go:414-436 | Three local transactions and a remote one are queued; an eviction tick drops the remote one, its heap entry stays, and adding it again gives it two entries. |
| `TxPool.TxPool.SetGasPrice` | core/tx_pool.go:464-473 | Exactly the remote transactions below the new price leave the pool; the pending nonces, virtual nonces and heartbeats that are left; all invariants stay. |
| `TxPool.TxPool.Evict` | core/tx_pool.go:311-325 | Exactly the queues of idle accounts that are not local are emptied, by the heartbeats as they were and stay; in every run an account without pending transactions has none, so after a tick later than the lifetime every account in the queue is local or has pending ones. |
| `Distributor.Distributor.Queue` | les/distributor.go:233-260 | The queue stays ordered by request order; a new request goes last, a resent one back to its place. |
| `Distributor.Distributor.Place` | les/distributor.go:243-252 | The position is behind everything older and before everything else. |
| `Distributor.Distributor.Cancel` | les/distributor.go:265-276 | It succeeds exactly for queued requests, closes their channel unsent and takes exactly this request out of the queue. |
| `Distributor.Distributor.Remove` | les/distributor.go:279-285 | Exactly this request leaves and the order stays. |
| `Distributor.Distributor.AskPeers` | les/distributor.go:196-214 | The inner loop, for any order of the peers, selects those that can be sent to at once with their oldest request, and the shortest wait among the others. |
| `Distributor.Distributor.Scan` | les/distributor.go:194-221 | Exactly the requests at the front that nobody can serve are closed unsent. |
| `Distributor.Distributor.NextRequest` | les/distributor.go:178-227 | The offer is for the oldest queued request its peer can serve, no peer could be sent to sooner, and there is none only if the queue is empty. |
| `Distributor.Distributor.SendNext` | les/distributor.go:129-141 | Exactly the unservable front of the queue is closed unsent; no peer could be sent to sooner than the pick; a pick without wait is taken out of the rest, which keeps its order, and its channel receives the peer; otherwise the rest is unchanged. |
| `Distributor.First` | les/distributor.go:194-214 | The position of the oldest request a peer can serve. |
| `Gas.IntrinsicGas` | core/state_transition.go:79-109 | It fails if and only if the exact price does not fit 64 bits, and is exact otherwise. |
| `Gas.RoomFor` | core/state_transition.go:97-106 | The division tests are exact overflow tests. |
| `Gas.StateTransition.BuyGas` | core/state_transition.go:152-165 | It succeeds if and only if the sender can pay and the pool has the gas; otherwise nothing changes. |
| `Gas.StateTransition.PreCheck` | core/state_transition.go:167-178 | It passes if and only if the nonce matches when checked and the gas can be bought, and otherwise names the first violated condition. |
| `Gas.StateTransition.RefundGas` | core/state_transition.go:230-245 | The refund is at most half of the used gas, and the rest goes back to sender and pool; the pool never overflows. |
| `Gas.StateTransition.TransitionDb` | core/state_transition.go:183-228 | Exactly which messages succeed and which error the others get, the exact world and gas then, and that the message failed if and only if its run ended with an error; the pool has lost exactly the gas used. |
| `Gas.StateTransition.PayUpFront` | core/state_transition.go:183-201 | The gas is bought and the intrinsic gas taken if and only if the message is affordable and its price fits its gas. |
| `Gas.StateTransition.Execute` | core/state_transition.go:203-228 | The run, the refund and the payment of the coinbase settle the world exactly. |
| `Gas.Conserved` | core/state_transition.go:183-250 | With an EVM that moves balances and returns no more gas than it got, a transaction changes no total balance, and its refund is at most half of what the run took. |
| `Gas.PaysForGas` | core/state_transition.go:183-250 | Besides what the EVM moved, the sender pays for exactly the used gas, the coinbase receives it, and nobody else pays or receives anything. |
| `Gas.ApplyTransaction` | core/state_processor.go:88-126 | It succeeds if and only if the message applies; the receipt carries the gas of the transaction, the running total and whether its run failed. |
| `Gas.Process` | core/state_processor.go:56-82 | For every list of transactions: it succeeds if and only if each applies in the world and with the gas that those before it leave; then pool gas plus used gas is the block limit, the total balance is unchanged, and the receipts hold each transaction gas, its running sum and whether its run failed. |
| `Gas.BlockConserves` | core/state_processor.go:56-82 | No list of applied messages changes the total balance. |
| `Gas.NoReplay` | core/state_processor.go:56-82 | With an EVM that lowers no nonce and raises the sender nonce of a creation, the applied messages of one sender have increasing nonces, so none is applied twice. |
| `Gas.SetReceiptsData` | core/blockchain.go:737-760 | From the cumulative values it sets differences of 64-bit words, or refuses a wrong count. |
| `Gas.DerivedIsUsed` | core/blockchain.go:755-760 | In a block whose gas fits 64 bits these are the gas each transaction used. |
| `DerivationPath.String` | accounts/hd.go:121-135 | The loop prints the canonical form. |
| `DerivationPath.ParseDerivationPath` | accounts/hd.go:67-117 | The loop parses as the specification does, errors included. |
| `DerivationPath.RoundTrip` | accounts/hd.go:67-135 | For every path of 32-bit components, hardened or not, parsing the printed form gives back the path, except that the empty path does not parse. |
| `DerivationPath.Canonical` | accounts/hd.go:67-135 | Parsing, printing and parsing again changes nothing, for every string that parses. |
| `DerivationPath.ParsedFits` | accounts/hd.go:93-115 | Every parsed component fits 32 bits. |
| `DerivationPath.RelativeParses` | accounts/hd.go:67-90 | A relative path gives the default root followed by what the same text gives behind "m/". |
| `DerivationPath.BasedReads` | accounts/hd.go:93-111 | Binary, octal and hexadecimal components with their prefix give the value of their digits, hardened or not, if it fits. |
| `DerivationPath.PaddedParses` | accounts/hd.go:90-91 | White space around a component is ignored. |
| `DerivationPath.HardReads` | accounts/hd.go:93-98 | A component with a quote, with white space before it or not, is the hardened index of its number, if it fits. |
| `DerivationPath.DigitsDefined` | accounts/hd.go:99-103 | A text has a value in a base if and only if it consists of its digits. |
| `DerivationPath.SignReads` | accounts/hd.go:99-111 | A plus sign changes nothing, and behind a minus sign only zero is an index. |

## Left out

- TxPool.TxPool: account lists are values here, so aliasing of list objects is not captured; `TxList.TxList` shows that the list updated in place follows those values.
- TxPool.TxPool.Reset: the walk that collects reinjected transactions is left out (they are a parameter), as are the early returns for a missing block or state. When the reinjections can reach the capacity or the global slots, the exact phases and the two ways to fail are given, and that no gap after the demotion is enough; which failures the old pool foretells is then not stated.
- TxPool.TxPool.Equalize: list lengths are compared exactly, not as float32 priorities, and at least one guaranteed slot per account is assumed.
- TxPool.TxPool.ValidateTx: signature recovery and the data of a transaction are fields of the transaction.
- TxList.TxList.Add: the price bump is a natural number; its conversion to a signed 64-bit integer is not modelled.
- PricedList.PricedList.Removed: the stale counter is modelled, but what it counts over whole runs is not claimed; coverage of the pool is.
- RandSelect.Insert: tree nodes are values, so updating a node in place is not captured; weights are natural numbers and their sums do not overflow.
- BlockChain.BlockChain.WriteBlockWithState: state and trie writes, the header head mirror and batch failures are left out; the index is claimed up to the head only.
- HeaderChain.HeaderChain.WriteHeader: caches and database failures are left out.
- Distributor.Distributor.NextRequest: the choice among peers that can be sent to at once is any choice; weights only change its probability. Request numbers are unbounded.
- Distributor.Distributor.SendNext: waiting, waking and stopping of the loop are left out.
- RetrieveProof.RunOutcome: message contents and timers as durations are left out.
- Feed.SendDeliversOnce: type checks and their panics are left out.
- BmtHasher.Hasher.Write: the length prefix, ReadFrom and the tree pool are left out; one node visit is one step. The source keeps slices of the caller's buffer and appends to them; bytes are values here, so writing over a buffer that was handed in is not captured.
- BmtReuse.ReuseExact: a tree past its first wrap is not followed further, because its counters then depend on the runs.
- Gas.StateTransition.TransitionDb: return data, logs, value transfer and nonce changes inside the EVM belong to the EVM parameter.
- Gas.Process: the hard-fork mutation at the start and block rewards at the end are left out.
- DerivationPath.ParseDerivationPath: numbers are read with prefixes for hexadecimal, binary and octal, without digit separators.
- The journal, events, logs, metrics, statistics, `Content`, `Pending`, `Status` and other read-only accessors of the pool.
- `SetHead`, `Rollback`, fast-sync heads, uncles, chain indexing, the light-server pool and fetcher, networking, RPC, storage, consensus engines and the EVM itself.
