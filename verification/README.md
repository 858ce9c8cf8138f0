# Verified core of go-ethereum

A Dafny 4.11 model of the stateful core of go-ethereum 1.10.4 and proofs of what every run of it keeps.
`dafny verify dfyconfig.toml` checks the whole project.

| part | modules |
|---|---|
| transaction pool | `Transactions`, `Heap`, `TxSortedMap`, `TxList`, `TxLookup`, `PricedList`, `PoolLists`, `PoolState`, `Water`, `ChainView`, `PendingLine`, `TxPool`, `Overfull`, `PendingGap`, `ReorgLoop` |
| canonical chain | `BlockTree`, `HeaderChain`, `BlockChain`, `BlockHash` |
| chain indexer | `ChainIndexer` |
| event feed | `Feed` |
| gas accounting | `MapSum`, `Gas` |

How the code is modelled:

- Objects whose methods update fields are classes: `SortedMap`, `List`, `Lookup`, `Priced`, `TxPool`, `HeaderChain`, `BlockChain`, `HashLookup`, `Indexer`, `GasPool`, `StateDB`, `StateTransition`. Their loops are loops. The database is a set of maps.
- Protocols with several goroutines (indexer, feed, pool scheduler) are state machines over atomic steps; the theorems quantify over every sequence of steps. The loops inside them (`FindCase`, `DeleteCase`, `DeactivateCase`, the methods of `Indexer`) are methods proved equal to the step functions.
- Hashes are injective ids, the sender is a field of a transaction, and Go's map iteration is a free choice (`Common.Choose`).
- Ghost parameters named `loose` and `out` say, in the middle of an operation, which transactions are in the lookup but in no list, and which are off the price heaps.

Some promises are false of the code; each has an example and the exact condition:

- Eviction does not always make room. A transaction that left the pool and came back before its stale entry was cleared has two live entries on the price heaps; an eviction that takes both counts its slots twice. `Overfull.OverfullExample` is a run that ends at five slots of four. `TxPool.TxPool.MakeRoom` gives the exact balance: with every entry genuine, the excess left is the excess before, minus the slots of what was taken, plus the slots of repeated entries (`TxPool.ReadFits`: entries are genuine wherever hashes identify transactions). So there is room exactly if the repeated slots are at most what was taken too much; there always is if no remote transaction had two live entries, and there never is if all remote transactions together take up less than the excess. `TxPool.TxPool.Add` carries all three to the pool after the addition.
- A header batch that is all known already and wins a tie moves the current header without rewriting the index, because no first inserted header was recorded. `HeaderChain.HeaderChain.WriteHeaders` states when the index is exact, `HeaderChain.KnownTieExample` is the counterexample.
- On an index left half on either branch by such a batch, the ancestor short cut answers from the wrong branch. `HeaderChain.HeaderChain.GetAncestor` states when an answer is right, `HeaderChain.UnlinkedExample` is the counterexample.
- A reorganisation onto a branch of one block below the old head's height leaves index entries above the new head, because clearing starts from the current block, which is then still the old one. `BlockChain.BlockChain.AdoptHead` states when nothing is left, `BlockChain.StaleEntryExample` is the counterexample.
- A rewind does not clean the transaction lookup. `BlockChain.BlockChain.SetHead` states when it still fits the new head: exactly if no rewound block of the head's chain had a transaction. `BlockChain.StaleLookupExample` is the counterexample.
- A rewind deletes by height only, so a block on another fork can be heavier than the head it leaves. `BlockChain.BlockChain.SetHead` states when head and indexes are as good as before, `BlockChain.LighterHeadExample` is the counterexample.
- Pending lists can get a gap when the chain falls back: the transaction at the chain's nonce comes back, one behind it does not, and revalidation looks at the front of a list only. `PendingLine.FallenReset` states when a fallen head leaves a gap, `PendingGap.GapExample` is the counterexample, and `TxPool.RunPool` shows that there is none in runs without such a fall.

## Model

| member | source | states |
|---|---|---|
| `TxPool.RunPool` | go-ethereum@v1.10.4/core/tx_pool.go:623-1515 | every run of the pool from its start ends with pending and queued nonces of an account disjoint, the lookup holding exactly the listed transactions, no empty list, locals and remotes disjoint, slots equal to the sum over the lookup, and every remote transaction on a price heap; if no new head puts the chain's nonce back for an account with pending transactions, every pending list runs without gaps from the chain's nonce |
| `TxPool.TxPool.constructor` | go-ethereum@v1.10.4/core/tx_pool.go:180-319 | a new pool is empty, meets the invariant and has every limit at least one |
| `TxPool.TxPool.EnqueueTx` | go-ethereum@v1.10.4/core/tx_pool.go:715-750 | queues a transaction exactly if its nonce is free or outbid; the replaced one leaves list and lookup; refusal changes nothing |
| `TxPool.TxPool.PromoteTx` | go-ethereum@v1.10.4/core/tx_pool.go:768-798 | the transaction becomes pending exactly if its nonce is free or outbid, else it leaves the pool; the pending nonce follows with 64-bit wrap-around |
| `TxPool.TxPool.RequeueFirst` | go-ethereum@v1.10.4/core/tx_pool.go:972-975 | a demoted transaction never meets its own nonce in the queue, and the lookup is not touched |
| `TxPool.TxPool.PromoteFirst` | go-ethereum@v1.10.4/core/tx_pool.go:1289-1295 | a promoted transaction never meets its own nonce in the pending list, and the lookup is not touched |
| `TxPool.TxPool.RemoveTx` | go-ethereum@v1.10.4/core/tx_pool.go:948-994 | removes exactly the given hash; a pending transaction leaves the lower nonces pending and sends the higher ones to the queue, although lists are searched by nonce only |
| `TxPool.TxPool.Add` | go-ethereum@v1.10.4/core/tx_pool.go:623-710 | which of the five errors is returned, exactly, and what it leaves unchanged; on success the transaction is in the pool in place of at most the holder of its place; what was evicted is remote, no more than needed and, while both heaps have one order and are split by price, the cheapest; a remote transaction leaves the pool within its capacity if nothing had to be evicted or no remote one had two live entries |
| `TxPool.TxPool.MakeRoom` | go-ethereum@v1.10.4/core/tx_pool.go:642-666 | refused as too cheap iff remote and no live entry is cheaper, as overflow iff remote and all live entries together have too few slots; otherwise the exact slots left after eviction, with room made if no remote transaction has two live entries and none made if all remotes take up less than the excess; local accounts' lists are untouched |
| `Overfull.OverfullExample` | go-ethereum@v1.10.4/core/tx_pool.go:642-666 | a run of additions and price changes that ends above the capacity |
| `PricedList.FreesEnough` | go-ethereum@v1.10.4/core/tx_pool.go:652-666 | if each remote transaction has exactly one live entry, removing what was taken frees the slots asked for |
| `PricedList.FreedIs` | go-ethereum@v1.10.4/core/tx_pool.go:660-665 | removing transactions by hash frees the slots of their entries less those of repeated hashes |
| `TxPool.ReadFits` | go-ethereum@v1.10.4/core/tx_pool.go:642-666 | where hashes identify transactions, the slots over the limit after a remote addition to a free place are the excess, less what was taken, plus repeated entries |
| `PricedList.FreesAtMost` | go-ethereum@v1.10.4/core/tx_pool.go:660-665 | no eviction frees more than the remote transactions take up |
| `TxPool.PlaceableIff` | go-ethereum@v1.10.4/core/tx_pool.go:668-696 | the place of a new transaction is free or outbid in the lists iff no transaction in the lookup with its sender and nonce holds out |
| `TxPool.TxPool.Insert` | go-ethereum@v1.10.4/core/tx_pool.go:667-702 | accepted iff the place is free or its holder is outbid, and then only that holder leaves the pool |
| `TxPool.VacatedIs` | go-ethereum@v1.10.4/core/tx_pool.go:669-696 | giving up the place of a new transaction loses at most the transaction with its sender and nonce |
| `TxPool.TxPool.MarkLocal` | go-ethereum@v1.10.4/core/tx_pool.go:698-702 | the sender becomes local, no remote transaction of a local account remains, and the pool's contents stay |
| `TxPool.TxPool.SetGasPrice` | go-ethereum@v1.10.4/core/tx_pool.go:429-446 | raising the price removes exactly the remote transactions with a lower tip; local accounts' lists are untouched |
| `TxPool.RemotesBelowTip` | go-ethereum@v1.10.4/core/tx_pool.go:1765-1774 | finds exactly the remote transactions below the tip |
| `TxPool.TxPool.EvictIdle` | go-ethereum@v1.10.4/core/tx_pool.go:369-383 | drops one account's queue and nothing else |
| `TxPool.TxPool.PromoteAccount` | go-ethereum@v1.10.4/core/tx_pool.go:1267-1321 | the payable current part of a queue is split into the ready run, which becomes pending, and the rest, of which the lowest nonces up to the limit stay |
| `TxPool.TxPool.PromoteExecutables` | go-ethereum@v1.10.4/core/tx_pool.go:1262-1323 | queues of the given accounts are left payable, within the limit and beyond the pending nonce; the result lists exactly what became pending; other accounts are untouched |
| `TxPool.PromotedSettles` | go-ethereum@v1.10.4/core/tx_pool.go:1272-1309 | after promotion nothing in the queue is old, unpayable, ready or over the limit |
| `TxPool.TxPool.DemoteAccount` | go-ethereum@v1.10.4/core/tx_pool.go:1466-1513 | splits a pending list into what stays and what goes back to the queue; nothing payable is lost |
| `TxPool.TxPool.DemoteUnexecutables` | go-ethereum@v1.10.4/core/tx_pool.go:1464-1515 | does so for every account, in any order of visits |
| `ChainView.StandingIsExecutable` | go-ethereum@v1.10.4/core/tx_pool.go:1470-1509 | what stays pending starts at the chain's nonce and is payable, is gap-free if the list was, and with what is sent back makes up the payable part |
| `PendingLine.StandsIff` | go-ethereum@v1.10.4/core/tx_pool.go:1470-1509 | a transaction stays pending iff the list has the chain's nonce and everything from there up to it is payable |
| `PendingLine.PromoteKeeps` | go-ethereum@v1.10.4/core/tx_pool.go:1286-1297 | promotion keeps pending lists that run from the chain's nonce to the pending nonce in line |
| `PendingLine.DemoteLines` | go-ethereum@v1.10.4/core/tx_pool.go:1464-1515 | after a head that does not fall back, revalidation leaves every pending list payable and without gaps from the chain's nonce |
| `PendingLine.FallenReset` | go-ethereum@v1.10.4/core/tx_pool.go:1286-1509 | after the chain's nonce fell below a pending list, promotion and revalidation leave a gap iff the queue has the chain's nonce but not everything up to the list, and the list's first transaction is still payable |
| `PendingGap.GapExample` | go-ethereum@v1.10.4/core/tx_pool.go:1170-1509 | the steps of a maintenance run for a head that fell back from nonce 5 to nonce 3, with nonce 3 added back and nonce 4 refused, leave nonces 3, 5 and 6 pending |
| `TxPool.TxPool.Reset` | go-ethereum@v1.10.4/core/tx_pool.go:1170-1243 | an unavailable head changes nothing; any other becomes the pool's state with the pending nonces forgotten, and lists in line stay aligned unless the chain falls back |
| `TxPool.TxPool.TruncatePending` | go-ethereum@v1.10.4/core/tx_pool.go:1328-1410 | one level, not below the guaranteed slots, at which every list but the local ones keeps its lowest nonces; the next higher level would exceed the limit; afterwards the limit is met or nobody but locals has more than the guaranteed slots |
| `TxPool.TxPool.Equalize` | go-ethereum@v1.10.4/core/tx_pool.go:1359-1380 | the counter equals the true total, all offenders stay at one level, and the loop ends with the limit met or the threshold reached |
| `TxPool.TxPool.Round` | go-ethereum@v1.10.4/core/tx_pool.go:1360-1379 | cutting every offender by one moves the whole level down by one, whatever the limit |
| `TxPool.TxPool.CutSpammers` | go-ethereum@v1.10.4/core/tx_pool.go:1346-1382 | taking offenders longest first keeps all lists at one level until the limit is met or no spammer is left |
| `Water.FairShareIsUnique` | go-ethereum@v1.10.4/core/tx_pool.go:1325-1381 | two truncations end with the same lists, in whatever order accounts were cut, whether the limit was met or not |
| `Water.CutOneMore` | go-ethereum@v1.10.4/core/tx_pool.go:1361-1378 | cutting one more list by one keeps the half-done level and lowers the total by one |
| `Water.FillNext` | go-ethereum@v1.10.4/core/tx_pool.go:1348-1356 | the next offender joins the level once the others are down to it |
| `Water.PopLargest` | go-ethereum@v1.10.4/core/tx_pool.go:1350-1350 | pops an account with the longest list |
| `TxPool.TxPool.TruncateQueue` | go-ethereum@v1.10.4/core/tx_pool.go:1413-1455 | an excess total ends exactly at the limit, or above it with only local queues left; each account keeps its lowest nonces and at most one is cut in part; locals and pending lists are untouched |
| `TxPool.TxPool.RunReorg` | go-ethereum@v1.10.4/core/tx_pool.go:1099-1149 | a run ends within both limits, with pending nonces behind the last pending transaction, and with the old state if the new head is unavailable; without a new head the result lists exactly what became pending before the fair cut, and the queues of the given accounts are payable and within their limit; after a new head every pending list starts at the chain's nonce, and all lists are payable; lists in line stay in line unless the chain falls back |
| `TxPool.TxPool.RefreshNonces` | go-ethereum@v1.10.4/core/tx_pool.go:1144-1148 | the pending nonce of each account follows its highest pending nonce |
| `PoolState.Shrink` | go-ethereum@v1.10.4/core/tx_pool.go:1273-1287 | transactions taken out of a list are exactly those in the lookup but in no list |
| `PoolState.Place` | go-ethereum@v1.10.4/core/tx_pool.go:768-776 | filing such a transaction at a free nonce restores exactness |
| `TxLookup.Lookup.Add` | go-ethereum@v1.10.4/core/tx_pool.go:1713-1725 | adds to one half and keeps the slot counter equal to the sum |
| `TxLookup.Lookup.Remove` | go-ethereum@v1.10.4/core/tx_pool.go:1728-1745 | removes from either half, ignores unknown hashes, keeps the counter exact |
| `TxLookup.Lookup.RemoteToLocals` | go-ethereum@v1.10.4/core/tx_pool.go:1749-1762 | moves exactly the given accounts' transactions, keeps the union and counts the moved |
| `TxSortedMap.SortedMap.Put` | go-ethereum@v1.10.4/core/tx_list.go:73-79 | the heap holds exactly the map's nonces and a cache is the sorted contents, kept on insertion |
| `TxSortedMap.SortedMap.Forward` | go-ethereum@v1.10.4/core/tx_list.go:84-98 | removes exactly the nonces below the threshold, in order; the shifted cache is the sorted rest |
| `TxSortedMap.SortedMap.Filter` | go-ethereum@v1.10.4/core/tx_list.go:105-112 | removes exactly the matching transactions and rebuilds the heap |
| `TxSortedMap.SortedMap.FilterOnly` | go-ethereum@v1.10.4/core/tx_list.go:125-139 | removes exactly the matching transactions, leaving the heap to be rebuilt |
| `TxSortedMap.SortedMap.Reheap` | go-ethereum@v1.10.4/core/tx_list.go:114-121 | rebuilds a heap of exactly the map's nonces |
| `TxSortedMap.SortedMap.Cap` | go-ethereum@v1.10.4/core/tx_list.go:143-164 | keeps the lowest nonces and returns the others highest first; the cut cache is the sorted rest |
| `TxSortedMap.SortedMap.Remove` | go-ethereum@v1.10.4/core/tx_list.go:168-185 | removes one nonce from map and heap |
| `TxSortedMap.SortedMap.Ready` | go-ethereum@v1.10.4/core/tx_list.go:194-209 | removes the first run of consecutive nonces iff it starts at or below the given nonce |
| `TxSortedMap.SortedMap.Flatten` | go-ethereum@v1.10.4/core/tx_list.go:216-237 | returns and caches the sorted contents |
| `TxSortedMap.SortedMap.LastElement` | go-ethereum@v1.10.4/core/tx_list.go:241-244 | the transaction with the highest nonce |
| `Transactions.FlatSplit` | go-ethereum@v1.10.4/core/tx_list.go:93-96 | cutting the sorted cache where nonces are cut gives the sorted caches of both parts |
| `Transactions.FlatUnique` | go-ethereum@v1.10.4/core/tx_list.go:216-226 | the sorted contents are unique, so a shifted cache equals a fresh sort |
| `Heap.PopOk` | go-ethereum@v1.10.4/core/tx_list.go:87-92 | popping keeps the heap order |
| `Heap.RemoveOk` | go-ethereum@v1.10.4/core/tx_list.go:175-180 | removing from the middle keeps the heap order, sifting down or else up |
| `Heap.InitOk` | go-ethereum@v1.10.4/core/tx_list.go:114-121 | heap initialisation establishes the heap order |
| `Heap.RootMin` | go-ethereum@v1.10.4/core/tx_list.go:88-88 | the root of a heap is minimal |
| `TxList.List.Add` | go-ethereum@v1.10.4/core/tx_list.go:279-312 | inserts iff the nonce is free or both caps beat the bump; the cost and gas caps keep bounding every transaction; a gap-free list stays so iff the nonce borders on it |
| `TxList.List.Forward` | go-ethereum@v1.10.4/core/tx_list.go:317-319 | drops exactly the nonces below the threshold and makes no gap |
| `TxList.List.Filter` | go-ethereum@v1.10.4/core/tx_list.go:330-359 | kept is what a full scan keeps, short circuit or not; removed, invalidated and kept partition the contents; a strict list stays gap-free |
| `TxList.ShortCircuit` | go-ethereum@v1.10.4/core/tx_list.go:331-334 | below both caps a full scan would find nothing |
| `TxList.StrictKeeps` | go-ethereum@v1.10.4/core/tx_list.go:346-356 | dropping all above the lowest removed nonce is what the strict scan keeps |
| `TxList.List.Cap` | go-ethereum@v1.10.4/core/tx_list.go:363-365 | keeps the lowest nonces and makes no gap |
| `TxList.List.Remove` | go-ethereum@v1.10.4/core/tx_list.go:370-381 | a strict list loses everything from the removed nonce on and stays gap-free, a loose one loses that nonce only |
| `TxList.List.Ready` | go-ethereum@v1.10.4/core/tx_list.go:390-392 | takes the first run of consecutive nonces and makes no gap |
| `TxList.List.Flatten` | go-ethereum@v1.10.4/core/tx_list.go:407-409 | lists the contents by nonce, from the cache or anew |
| `TxList.List.LastElement` | go-ethereum@v1.10.4/core/tx_list.go:413-415 | returns the transaction with the highest nonce |
| `TxList.RunList` | go-ethereum@v1.10.4/core/tx_list.go:279-415 | any sequence of operations on one list: the caps bound the contents after each, so every filter does what a full scan would, a cached listing is the sorted contents, and a strict list is gap-free throughout iff every addition bordered on the contents |
| `TxList.StrictRuns` | go-ethereum@v1.10.4/core/tx_list.go:279-415 | of all operations on a strict list only an addition away from the contents can make a gap |
| `TxList.FilterGapFree` | go-ethereum@v1.10.4/core/tx_list.go:346-357 | what a strict scan keeps of gap-free contents is gap-free |
| `TxList.CapGapFree` | go-ethereum@v1.10.4/core/tx_list.go:363-365 | both parts of gap-free contents cut at a nonce are gap-free |
| `TxList.AddGapFree` | go-ethereum@v1.10.4/core/tx_list.go:279-312 | gap-free contents with one more nonce are gap-free iff they were empty, or the nonce is occupied or next to an occupied one |
| `PricedList.Priced.Put` | go-ethereum@v1.10.4/core/tx_list.go:500-506 | adds a remote entry and keeps the heap order |
| `PricedList.Priced.Removed` | go-ethereum@v1.10.4/core/tx_list.go:511-519 | keeps every remote transaction on a heap; reheaps beyond a quarter of stale entries |
| `PricedList.Priced.Underpriced` | go-ethereum@v1.10.4/core/tx_list.go:523-529 | true iff a live entry exists and none is cheaper in the order of its heap; live entries are conserved |
| `PricedList.TopDecides` | go-ethereum@v1.10.4/core/tx_list.go:533-551 | comparing with the live root decides for all live entries |
| `PricedList.Priced.Discard` | go-ethereum@v1.10.4/core/tx_list.go:557-593 | fails iff not forced and all live entries have too few slots, and then drops nothing; kept and dropped make up what was live; without its last, what is dropped would not be enough; while both heaps have one order and are split by price, nothing kept is cheaper than anything dropped |
| `PricedList.EvictOne` | go-ethereum@v1.10.4/core/tx_list.go:559-584 | one round conserves live entries and lowers twice the urgent plus the floating length |
| `PricedList.Priced.Reheap` | go-ethereum@v1.10.4/core/tx_list.go:596-618 | both heaps together hold exactly the remotes, and the cheapest fifth is floating |
| `PricedList.Priced.SetBaseFee` | go-ethereum@v1.10.4/core/tx_list.go:622-625 | reprices and holds exactly the remotes |
| `ReorgLoop.RunKeeps` | go-ethereum@v1.10.4/core/tx_pool.go:1029-1096 | every run of the scheduler keeps its invariant |
| `ReorgLoop.SchedulerServes` | go-ethereum@v1.10.4/core/tx_pool.go:1029-1096 | at most one run is active; a request's channel is closed only by a run that covers its accounts; executed resets telescope; the queued events are cut in order into one batch per run, and each run is given what its batch leaves |
| `ReorgLoop.LatestIsLast` | go-ethereum@v1.10.4/core/tx_pool.go:1075-1082 | of the events queued for a run exactly the last of each sender and nonce is left |
| `ReorgLoop.NothingWaitsForever` | go-ethereum@v1.10.4/core/tx_pool.go:1042-1094 | no request is lost: once the active run ends, the run then launched covers every request still waiting |
| `ReorgLoop.TelescopeAt` | go-ethereum@v1.10.4/core/tx_pool.go:1055-1063 | each executed reset starts at the head where the previous one ended |
| `BlockTree.AncCompose` | go-ethereum@v1.10.4/core/headerchain.go:421-453 | parent walks compose |
| `BlockTree.TdGrows` | go-ethereum@v1.10.4/core/headerchain.go:178-186 | total difficulty strictly grows along a chain |
| `HeaderChain.HeaderChain.WriteHeaders` | go-ethereum@v1.10.4/core/headerchain.go:149-297 | stores the batch with total difficulties as sums; switches iff heavier or preferred among equals; the index is then exact iff a header was new, nothing switched, or the last was current already |
| `HeaderChain.HeaderChain.StoreHeaders` | go-ethereum@v1.10.4/core/headerchain.go:163-196 | stores exactly the new headers with summed difficulty and records the first inserted one |
| `HeaderChain.HeaderChain.WriteMarkers` | go-ethereum@v1.10.4/core/headerchain.go:229-282 | clearing, relinking and writing the batch make the index the current header's parent walk |
| `HeaderChain.HeaderChain.Relink` | go-ethereum@v1.10.4/core/headerchain.go:244-256 | relinking down to the first agreeing entry makes the whole index below agree |
| `HeaderChain.KnownTie` | go-ethereum@v1.10.4/core/headerchain.go:229-285 | an all-known winning batch leaves the index exact iff its last header was current |
| `HeaderChain.KnownTieExample` | go-ethereum@v1.10.4/core/headerchain.go:261-273 | a run after which the index disagrees with the current header |
| `HeaderChain.ImportAll` | go-ethereum@v1.10.4/core/headerchain.go:149-297 | every run of batches with a new header stores each batch whose parent is known when its turn comes, and keeps the index one exact path from genesis to a header of maximal total difficulty among all stored, with nothing above and every entry the parent of the next |
| `HeaderChain.HeaderChain.GetAncestor` | go-ethereum@v1.10.4/core/headerchain.go:421-453 | for any index of stored headers the exact answer; it is the parent walk's iff the short cut was not taken or the target's height is indexed rightly; on a parent-linked index it always is, and there is one iff the budget reaches the target or the index; the budget is spent only off the index |
| `HeaderChain.UnlinkedExample` | go-ethereum@v1.10.4/core/headerchain.go:421-453 | a run after which the second ancestor of an indexed header is answered from the other branch |
| `BlockChain.WriteAll` | go-ethereum@v1.10.4/core/blockchain.go:1448-1585 | every run of block writes, whatever ties decide, stores each block whose parent is known when its turn comes, and keeps the head at maximal total difficulty among all stored, the index its parent walk and the transaction lookup exact |
| `BlockChain.BlockChain.WriteBlockWithState` | go-ethereum@v1.10.4/core/blockchain.go:1448-1585 | fork choice by total difficulty, then number, then preference; the invariant; nothing is indexed above the head iff the stated condition holds |
| `BlockChain.BlockChain.AdoptHead` | go-ethereum@v1.10.4/core/blockchain.go:1551-1565 | after a switch the indexes fit; nothing is left above iff the branch has two blocks or is not below the old head |
| `BlockChain.StaleEntryExample` | go-ethereum@v1.10.4/core/blockchain.go:2224-2231 | one heavy block leaves an index entry above the new head |
| `BlockChain.BlockChain.FindFork` | go-ethereum@v1.10.4/core/blockchain.go:2144-2188 | the level-then-step walk stops at the lowest common ancestor and collects both branches |
| `BlockChain.ForkIsLowestCommon` | go-ethereum@v1.10.4/core/blockchain.go:2144-2188 | two chains agree at a height iff it is at or below the fork |
| `BlockChain.BlockChain.Reorg` | go-ethereum@v1.10.4/core/blockchain.go:2089-2234 | index and lookup fit the new branch up to the parent of the new head; entries above the current block go |
| `BlockChain.LookupSwitch` | go-ethereum@v1.10.4/core/blockchain.go:2207-2222 | removing the old branch's transactions that the new one does not add keeps the lookup exact |
| `BlockChain.LookupHead` | go-ethereum@v1.10.4/core/blockchain.go:772-799 | writing the new head completes the exact lookup |
| `BlockChain.BlockChain.WriteHeadBlock` | go-ethereum@v1.10.4/core/blockchain.go:772-799 | marks one block canonical and as head, indexes its transactions, and moves the other heads unless it was canonical |
| `BlockChain.BlockChain.SetHead` | go-ethereum@v1.10.4/core/blockchain.go:491-624 | a rewind puts the head header at the target, the head block at the nearest ancestor with state, and deletes every header, difficulty, body and index entry above; the transaction lookup, which it leaves alone, then fits iff no rewound block of the head's chain had a transaction; tree, difficulties and the indexes of the head's chain survive, and the head is the heaviest with exact indexes iff the target's block has its state, no lookup entry lies above it and no block up to its height is heavier |
| `BlockChain.RunChain` | go-ethereum@v1.10.4/core/blockchain.go:491-1585 | every run that mixes block writes and rewinds, up to the first rewind to a target that does not meet that condition, keeps the head heaviest and both indexes exact; the stores and heads along the way are given step by step |
| `BlockChain.CutOk` | go-ethereum@v1.10.4/core/headerchain.go:559-636 | after everything above a block of the head's chain is deleted, the chain is in order iff the lookup has nothing above it, and that block is the heaviest iff none up to its height was heavier |
| `BlockChain.RewoundIntact` | go-ethereum@v1.10.4/core/blockchain.go:491-624 | on an ancestor of the head, in a part of the tree, everything but the stale lookup entries and index entries above it stays in order |
| `BlockChain.StaleLookupExample` | go-ethereum@v1.10.4/core/blockchain.go:491-624 | a rewound block's transaction stays in the lookup |
| `BlockChain.LighterHeadExample` | go-ethereum@v1.10.4/core/blockchain.go:491-624 | a rewind leaves a head lighter than a stored block |
| `BlockChain.RewoundLookup` | go-ethereum@v1.10.4/core/blockchain.go:583-602 | an untouched lookup fits a shortened chain iff the blocks cut off had no transactions |
| `BlockChain.StatefulIsNearest` | go-ethereum@v1.10.4/core/blockchain.go:507-546 | the block found is the nearest ancestor with state, or genesis |
| `BlockChain.BlockChain.RewindHeaders` | go-ethereum@v1.10.4/core/headerchain.go:559-636 | exactly the headers above the target go, on all forks |
| `BlockChain.CutKeeps` | go-ethereum@v1.10.4/core/headerchain.go:559-636 | cutting the tree at a height changes no ancestor below |
| `BlockHash.HashLookup.Query` | go-ethereum@v1.10.4/core/evm.go:76-107 | the cached lookup answers as a fresh parent walk, whatever the cache holds |
| `BlockHash.QueryAll` | go-ethereum@v1.10.4/core/evm.go:76-107 | so does every sequence of queries |
| `BlockHash.WalkIsAncestor` | go-ethereum@v1.10.4/core/evm.go:91-103 | in a linked tree the walk gives the ancestor of that height |
| `ChainIndexer.RunKeeps` | go-ethereum@v1.10.4/core/chain_indexer.go:243-522 | every interleaving of processing, reorganisations and section queries keeps the invariant |
| `ChainIndexer.SectionHeadsLinked` | go-ethereum@v1.10.4/core/chain_indexer.go:317-417 | heads are recorded exactly for stored sections, and each is reached from the previous one by exactly one section of parent links |
| `ChainIndexer.VerifyExact` | go-ethereum@v1.10.4/core/chain_indexer.go:422-432 | checking only the top head leaves exactly canonical sections |
| `ChainIndexer.HeadDecidesSection` | go-ethereum@v1.10.4/core/chain_indexer.go:388-417 | a section head is canonical iff every header of its section is |
| `ChainIndexer.TopDecidesAll` | go-ethereum@v1.10.4/core/chain_indexer.go:422-432 | a canonical top head makes all sections below canonical |
| `ChainIndexer.Indexer.SetValidSections` | go-ethereum@v1.10.4/core/chain_indexer.go:479-491 | the loop removes exactly the heads beyond the count |
| `ChainIndexer.Indexer.VerifyLastHead` | go-ethereum@v1.10.4/core/chain_indexer.go:422-432 | the loop computes the step function |
| `ChainIndexer.Indexer.NewHead` | go-ethereum@v1.10.4/core/chain_indexer.go:243-300 | computes the step of a new or reorganised head |
| `ChainIndexer.Indexer.Sections` | go-ethereum@v1.10.4/core/chain_indexer.go:434-440 | verifies first and reports the last stored section |
| `ChainIndexer.Indexer.End` | go-ethereum@v1.10.4/core/chain_indexer.go:348-368 | commits a section only onto the unchanged previous head |
| `Feed.FindCase` | go-ethereum@v1.10.4/event/feed.go:213-220 | first index of a channel, or -1 iff absent |
| `Feed.DeleteCase` | go-ethereum@v1.10.4/event/feed.go:223-225 | deletion in place keeps the other cases in order |
| `Feed.DeactivateCase` | go-ethereum@v1.10.4/event/feed.go:228-232 | swaps a case behind the active prefix |
| `Feed.DeleteMembers` | go-ethereum@v1.10.4/event/feed.go:171-177 | deleting a case shrinks the active prefix iff it was active, and loses no other |
| `Feed.DeactivateMembers` | go-ethereum@v1.10.4/event/feed.go:228-232 | deactivating moves exactly one case out of the active prefix |
| `Feed.RunKeeps` | go-ethereum@v1.10.4/event/feed.go:72-190 | every interleaving of subscribe, unsubscribe and send keeps the invariant |
| `Feed.FeedDelivers` | go-ethereum@v1.10.4/event/feed.go:72-190 | a subscribed channel is in exactly one of inbox and cases, once, and no other channel is in either; a completed send delivered once to every channel collected and not removed, at most once to any, and returns the number of deliveries |
| `Feed.SendMakesProgress` | go-ethereum@v1.10.4/event/feed.go:155-182 | every step of a send that does anything lowers first the sum of all and active cases, then what is left of the non-blocking pass; no other step touches either |
| `Feed.SendNeverStuck` | go-ethereum@v1.10.4/event/feed.go:155-182 | an unfinished send always has a step to take |
| `Gas.IntrinsicGas` | go-ethereum@v1.10.4/core/state_transition.go:115-153 | the exact cost, or overflow iff the data cost exceeds 64 bits; the access list part wraps |
| `Gas.GasPool.SubGas` | go-ethereum@v1.10.4/core/gaspool.go:39-45 | subtracts iff enough is left |
| `Gas.GasPool.AddGas` | go-ethereum@v1.10.4/core/gaspool.go:29-35 | adds where the source would not overflow |
| `Gas.StateTransition.BuyGas` | go-ethereum@v1.10.4/core/state_transition.go:189-208 | takes gas and price from pool and sender, never below zero, or fails without effect |
| `Gas.StateTransition.PreCheck` | go-ethereum@v1.10.4/core/state_transition.go:210-247 | fails without effect, or has bought the gas |
| `Gas.StateTransition.RefundGas` | go-ethereum@v1.10.4/core/state_transition.go:333-348 | refunds at most the quotient of the gas used and returns the rest to the pool |
| `Gas.StateTransition.TransitionDb` | go-ethereum@v1.10.4/core/state_transition.go:262-331 | the sum of balances changes by exactly minus gas used times base fee after London, by zero before, and by what the EVM burnt; sender and coinbase are settled on the EVM's outcome and the pool loses exactly the gas used |
| `Gas.FeeSplit` | go-ethereum@v1.10.4/core/state_transition.go:189-331 | purchase, refund and tip add up to the burnt fee |
| `Gas.Process` | go-ethereum@v1.10.4/core/state_processor.go:58-135 | over a block the receipts' gas, the last cumulative value, the returned gas and limit minus pool are equal, each cumulative value is a prefix sum, the accounts before and after each transaction follow one another, and the balances change by exactly the rewards minus the burnt fee of the whole block and what destroyed contracts took with them |
| `Gas.ApplyTransaction` | go-ethereum@v1.10.4/core/state_processor.go:92-135 | the accounts after a transaction are the EVM's outcome, settled, without the destroyed contracts |
| `Gas.StateDB.Finalise` | go-ethereum@v1.10.4/core/state/statedb.go:791-832 | destroyed accounts are deleted with whatever they hold by then |
| `Gas.LostIs` | go-ethereum@v1.10.4/core/state_processor.go:92-135 | besides what contracts left to themselves, a transaction destroys nothing but the tip of a destroyed coinbase |
| `Gas.BlockSum` | go-ethereum@v1.10.4/core/state_processor.go:58-135 | over any transactions the balances lose the burnt fees and what was destroyed |
| `Gas.AccumulateRewards` | go-ethereum@v1.10.4/consensus/ethash/consensus.go:641-668 | who is paid what for a block and its uncles, and that the balances grow by exactly that |
| `Gas.ApplyDaoFork` | go-ethereum@v1.10.4/consensus/misc/dao.go:74-85 | the drained accounts end empty, the others but the refund contract keep theirs, and nothing is lost unless that contract is itself drained |
| `Gas.CumulativeAppend` | go-ethereum@v1.10.4/core/state_processor.go:92-135 | each receipt's cumulative value continues the prefix sums |

## Left out

- EVM execution, state trie, snapshots, freezer and database encodings: maps and contracts on the EVM's result (returned gas, destroyed contracts, and balances conserved but for what it burns) stand for them.
- Signature recovery, seals and block validation: transactions and headers carry their sender and hash; repeated transactions on one chain are excluded by a precondition, as nonces exclude them.
- Interrupted header imports and the LRU caches in front of the database.
- Rewinding to a state root, with a freezer or with a fast sync pivot.
- InsertReceiptChain, insertSideChain and the tail of the transaction index.
- Reinjection after a chain reset: the transactions that left the chain are an input of `Reset`; how they are collected from both branches is not modelled.
- Indexer checkpoints, child indexers and the cascaded head.
- Type checks of the feed, and sends on closed channels.
- The announcement a run sends at its end: events stale after a reset are dropped from it and promoted transactions are added.
- State roots and uncle validity: a block's uncles are any list, and its reward schedule is an input.
- Pool lists as objects: `TxPool` holds each list by its contents; `TxList.List` shows that the list object computes these contents, but the caps carried by one list object across pool operations are not part of the pool.
- Journal, heartbeats, metrics and logging: heartbeat order is replaced by a free choice, which covers it.
- The errors of transaction validation are merged into one; checks of type, value, signature and intrinsic gas are one input.
- container/heap, sort and the priority queue are functions and loops with the same result rather than the library code.
