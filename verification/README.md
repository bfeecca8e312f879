# Chain state machine of go-ethereum-arb: model and proofs

This project models the parts of the repository that keep chain state consistent, in the form the
source has: classes with fields that methods update, loops with invariants, functions where the source
only computes. Each method is proved against a specification function or predicate, and the promises of
the design are lemmas and contracts about that specification, for all inputs and for all runs.

`dafny verify dfyconfig.toml` checks everything.

| file | models |
|---|---|
| `Basics.dfy` | integer widths, addresses, options |
| `BlockTree.dfy` | headers by hash, parent paths, the number -> hash index of a path |
| `TxLookup.dfy` | the transaction lookup index of a path and how a fork switch rewrites it |
| `BlockChain.dfy` | `reorg`, `writeHeadBlock`, known-block writes, block writes, `SetCanonical`, and runs of them |
| `HeaderChain.dfy` | header imports, `Reorg`, `setHead`, `GetAncestor`, and runs of imports and rewinds |
| `HashLookup.dfy` | the caching `GetHashFn` closure |
| `Rewind.dfy` | `rewindHashHead` |
| `ChangeStream.dfy` | `getCommonAncestor` and the change notifications to a downstream consumer |
| `CaseList.dfy`, `Feed.dfy`, `FeedProtocol.dfy` | `event.Feed`: slice operations, `Send` in place on an array, and the interleaved protocol |
| `Balances.dfy`, `StateTransition.dfy`, `StateProcessor.dfy` | wei and gas of one message and of a block |
| `Authorizations.dfy` | EIP-7702 delegations |
| `TrieGc.dfy`, `RecordingDb.dfy` | reference counting of state tries |
| `DerivationPath.dfy` | BIP-32 path parser and printer |

Chains are one finite tree of headers: each header but genesis has its parent one height below
(`BlockTree.Tree`). "The ancestor path" of a block is the sequence of hashes from genesis to it
(`BlockTree.Path`), and `Index` of a path is the marker map the database should hold for it. Hashes are
numbers, 0 being the zero hash that reads return for a missing entry.

What the hooks, the EVM, select, the scheduler, the clock and the database of states decide is an
argument (`Env`, `Step`, `Input`, booleans such as `delivered`) or a nondeterministic choice, so every
theorem ranges over all behaviours these types can express. Hooks and the EVM are limited to transfers,
gas and nonce increments: "Left out" names what they cannot express.

## What turned out not to hold

Six promises fail on inputs the code accepts. The code is modelled as it is; each failure has a concrete
input and its exact condition.

- Marking a block as head deletes no marker above it. Extending a block head that lies below the header
  head leaves stale markers: the markers are the new head's path if and only if the header head is not
  above the new block (`WriteKnownBlock`, `DirectExtension`, `StaleMarkerExample`).
- `reorg` takes the transaction lookup lock and keeps it when a block body is missing. The lock is held
  on return if and only if a body it reads is missing (`ReorgAlong`, `MissingBodyExample`).
- `GetAncestor` compares the zero hash with a missing marker and takes it for canonical. It answers like
  the parent walk if and only if the arguments are not a zero hash above the marked heights
  (`GetAncestor`, `ZeroHashExample`).
- Under a gas cap `rewindHashHead` can report a root as crossed at a block that does not have it: if and
  only if it skipped a block with state above the root and the gas rolled back since then first reaches
  the cap strictly below the root, before anything else ends the search (`CrossingExactIff`,
  `CapMisreports`).
- Recreating a state leaves one reference behind if and only if the context is cancelled at the
  inspection right after a successful opening, or a block that is reached commits a state that cannot
  be opened again (`GetOrRecreateState`, `CancelExample`, `ReopenExample`).
- Nonces do not protect a sender whose nonce wraps. Between two nonce-checked transactions of a sender
  the nonce rises if and only if no unchecked transaction in between runs at the largest nonce, given
  fewer than 2^64 increments (`NoncesInOrder`, `WrapExample`).

Also, `setHead` removes nothing when the head satisfies the target already, even if side branches reach
higher; `SetHead` states the result for both cases. The comment on pushed blocks promises that a last
pushed block exists; the code also handles its absence, and so does the model.

## Model

| member | source | states |
|---|---|---|
| `CanonicalChain.BlockChain.Run` | core/blockchain.go:1785-1973 | over every run of block writes, writes that leave the head, known-block writes and canonical switches that starts with block head = header head, after each operation the head is the last block accepted as head, the markers are exactly its ancestor path, and the lookup index is exactly that of the path's transactions |
| `CanonicalChain.RunFromGenesis` | core/blockchain.go:1936-1973 | the same for every run that starts from a database holding genesis only |
| `CanonicalChain.BlockChain.Apply` | core/blockchain_arbitrum.go:78-92 | one operation of a run keeps consistency and moves store and head as its specification `Next` says |
| `CanonicalChain.BlockChain.ApplyInsert` | core/blockchain.go:2836-2849 | storing a block beside the head keeps consistency and leaves the head alone |
| `CanonicalChain.BlockChain.ReorgAlong` | core/blockchain.go:2653-2834 | from a consistent state: succeeds, and leaves markers and lookup index at exactly the new head's path, up to the head itself; the lookup lock is still held if and only if a body of the dropped or added blocks is missing; a failed search changes nothing |
| `CanonicalChain.BlockChain.FindFork` | core/blockchain.go:2659-2698 | finds the highest common ancestor and exactly the headers above it on each side |
| `CanonicalChain.BlockChain.Reduce` | core/blockchain.go:2659-2670 | brings one head down to the height of the other along its path |
| `CanonicalChain.BlockChain.CollectDropped` | core/blockchain.go:2763-2779 | collects exactly the transactions of the dropped blocks, failing if and only if a body is missing |
| `CanonicalChain.BlockChain.ApplyNew` | core/blockchain.go:2781-2800 | makes all new blocks but the top head one by one, failing if and only if a body is missing |
| `CanonicalChain.BlockChain.MarkersFrom` | core/blockchain.go:2813-2823 | the markers to delete: all heights up to the first gap, and it terminates |
| `CanonicalChain.BlockChain.WriteHeadBlock` | core/blockchain.go:1365-1386 | marker, lookup entries and all head markers now name the block; nothing above it is deleted |
| `CanonicalChain.BlockChain.WriteKnownBlock` | core/blockchain.go:1785-1794 | the lookup index becomes that of the block's chain; the markers become its ancestor path, and the chain stays consistent, if and only if the header head is not above it when it extends the block head directly |
| `CanonicalChain.BlockChain.SetCanonical` | core/blockchain.go:2854-2903 | makes any stored block (ahead, sideways or an ancestor) the head with its lookup index, consistent under the same exact condition, or changes nothing when its state is unrecoverable |
| `CanonicalChain.BlockChain.WriteBlockWithState` | core/blockchain.go:1808-1830 | stores the block if and only if its parent header is known, and keeps markers and index of both heads exact |
| `CanonicalChain.BlockChain.WriteBlockAndSetHead` | core/blockchain.go:1936-1973 | stores the block and makes it the head with its lookup index, consistent under the same exact condition, or changes nothing |
| `CanonicalChain.PruneStale` | core/blockchain.go:2810-2823 | stopping deletion at the first gap misses no stale marker, because markers are contiguous |
| `CanonicalChain.MarkersSwitched` | core/blockchain.go:2781-2823 | applying the new chain below its top and deleting up to the gap turns the markers of one path into the index of the other |
| `CanonicalChain.LookupSwitched` | core/blockchain.go:2763-2809 | dropping only transactions that did not come back leaves the exact lookup index of the new path |
| `CanonicalChain.DirectExtension` | core/blockchain.go:1365-1386 | marking one block on top of a path gives the new path's index if and only if no marker lies beyond it |
| `CanonicalChain.StaleMarkerExample` | core/blockchain.go:1365-1386 | a consistent store with header head 3 above block head 1 in which making block 9 the head leaves a stale marker |
| `CanonicalChain.MissingBodyExample` | core/blockchain.go:2762-2786 | a store and bodies on which the switch reads a missing body, so that the lock stays held |
| `TxLookup.ReindexFork` | core/blockchain.go:2763-2809 | the reindexed map is exactly the lookup index of the new path, including transactions that moved between forks |
| `TxLookup.IndexNext` | core/blockchain.go:1365-1375 | writing the entries of the next block extends the index by one height |
| `TxLookup.HashDifference` | core/types/transaction.go:731-746 | keeps exactly the hashes of the first list that are not in the second |
| `HeaderChains.HeaderChain.Reorg` | core/headerchain.go:122-186 | on a valid chain the markers become exactly the ancestor path of the last header; the missing-parent error comes if and only if the walk down from the first header meets no marker and ends above genesis, and changes nothing |
| `HeaderChains.HeaderChain.OverwriteBack` | core/headerchain.go:145-164 | stopping at the first matching marker is sound: below it the paths agree; it fails if and only if the walk meets no marker and ends above genesis |
| `HeaderChains.HeaderChain.DeleteFrom` | core/headerchain.go:137-144 | deletions cover every marker above the new head |
| `HeaderChains.HeaderChain.Extend` | core/headerchain.go:165-176 | with the headers of the batch the pending writes turn the old path's markers into the new path's |
| `HeaderChains.HeaderChain.WriteHeaders` | core/headerchain.go:192-237 | stores exactly the batch or nothing, and counts exactly the headers from the first one not stored on |
| `HeaderChains.NewAfterPrefix` | core/headerchain.go:203-226 | in a parent-closed store that count is exactly the number of new headers |
| `HeaderChains.HeaderChain.WriteHeadersAndSetHead` | core/headerchain.go:247-274 | the head moves if and only if the last header is not on the old canonical path, and markers stay the head's path; errors change nothing |
| `HeaderChains.HeaderChain.SetHead` | core/headerchain.go:515-654 | terminates at the closest ancestor that meets the target; unless the head met it already, every header above is removed on all forks and the markers are their old prefix |
| `HeaderChains.HeaderChain.StepBack` | core/headerchain.go:540-618 | one round moves the head to its parent and schedules its height, and first all heights above it, for deletion on all forks |
| `HeaderChains.HeaderChain.LeftoverHeights` | core/headerchain.go:574-583 | the upward sweep lists all occupied heights up to the first empty one |
| `HeaderChains.HeightOccupied` | core/headerchain.go:574-583 | in a parent-closed store an empty height has nothing above it, so the sweep misses no header |
| `HeaderChains.RewindEnds` | core/headerchain.go:585-623 | flushing the last deletions leaves the tree cut at the new head |
| `HeaderChains.HeaderChain.Run` | core/headerchain.go:192-274 | over every run of imports, aborted or not, and rewinds, after each operation store and head are those of the specification (imports move the head unless their end is canonical, rewinds go to the closest ancestor meeting the target), and the markers are the head's ancestor path |
| `HeaderChains.HeaderChain.Apply` | core/headerchain.go:247-274 | one import or rewind moves store and head as its specification says |
| `HeaderChains.RewoundIs` | core/headerchain.go:533-540 | the first header down the path that meets the target is the specified new head |
| `HeaderChains.HeaderChain.GetAncestor` | core/headerchain.go:352-384 | equals the N-fold parent walk under the budget, and spends exactly the headers read before the canonical jump, if and only if the arguments are not a zero hash above the marked heights |
| `HeaderChains.JumpExact` | core/headerchain.go:363-371 | from a marked height the markers give exactly the parent walk |
| `HeaderChains.ZeroHashExample` | core/headerchain.go:352-384 | a concrete zero hash that is taken for canonical |
| `HashLookup.HashFn.Query` | core/evm.go:99-135 | the answer is the uncached parent walk whatever was asked before, and the cache stays exact |
| `HashLookup.HashFn.QueryAll` | core/evm.go:99-135 | every sequence of queries in any order gets the uncached answers |
| `HashLookup.BlockHashIsAncestor` | core/evm.go:99-135 | on a stored chain the answer is the ancestor at that height |
| `ChangeStream.Pusher.GetCommonAncestor` | core/blockchain.go:1711-1766 | highest common ancestor, with exactly the blocks above it on both sides, ascending |
| `ChangeStream.Pusher.MakeChange` | core/blockchain.go:3134-3161 | a change is made if and only if the blocks differ, and consuming it turns one ancestor path into the other |
| `ChangeStream.Pusher.PushBlockChange` | core/blockchain.go:3120-3176 | when a message is sent, and that the consumer then stands on the new head's path; otherwise nothing moves |
| `ChangeStream.Pusher.Stream` | core/blockchain.go:3120-3176 | over every run each message continues the consumer's view, and after each announcement the messages delivered so far, one per announcement that moved the last pushed block, replay to the ancestor path of that block |
| `Rewind.RewindHashHead` | core/blockchain.go:910-1013 | terminates with the result of the recursive search |
| `Rewind.RewindSafe` | core/blockchain.go:910-1013 | the result is an ancestor of the old head with state, or genesis |
| `Rewind.RewindWithoutRoot` | core/blockchain.go:910-1013 | with no root requested: the highest ancestor with state at or above the limit, else genesis |
| `Rewind.RewindBelowRoot` | core/blockchain.go:910-1013 | with a root requested and no cap: a reported crossing is the highest block with that root and the head is the best state at or below it; no crossing means genesis |
| `Rewind.CapMisreports` | core/blockchain.go:954-971 | a concrete chain on which the capped search reports a wrong crossing |
| `Rewind.CrossingExactIff` | core/blockchain.go:954-971 | for every input with a root requested: the report is right if and only if it is not the case that a block with state was skipped above the root and the gas rolled back since first reaches the cap strictly below the root, before a state, the limit or genesis ends the search |
| `Rewind.CrossedCapped` | core/blockchain.go:940-1012 | after the crossing the capped exit replaces the reported height by that of the skipped block, and every other exit keeps it |
| `CaseList.Find` | event/feed.go:203-210 | first index of the channel, -1 if and only if absent |
| `CaseList.DeactivateSides` | event/feed.go:218-222 | deactivation moves exactly one case out of the active prefix and loses none |
| `CaseList.TracksRemove` | event/feed.go:161-167 | removing a case keeps the accounting of delivered, dropped and active cases, wherever it stood |
| `Feeds.Feed.Send` | event/feed.go:120-180 | terminates under any select outcomes; each case it started with gets the value exactly once, except one case for each received removal request that came before its delivery; the count is the number of deliveries; sendCases ends as a permutation of the start minus the received requests, removeSub first |
| `Feeds.Feed.TryAll` | event/feed.go:146-155 | the fast path keeps the accounting, whatever sends succeed |
| `Feeds.Feed.SelectOne` | event/feed.go:159-171 | one blocking select either delivers to one case or receives the next removal request, and keeps the accounting |
| `Feeds.NextFound` | event/feed.go:161-163 | a received request always finds its case |
| `Feeds.Feed.RemoveDuringSend` | event/feed.go:161-167 | deletes the first case of the channel; it counts as dropped and shrinks the active prefix if and only if it was still active |
| `Feeds.Feed.FindCase` | event/feed.go:203-210 | the loop finds the first case of the channel |
| `Feeds.Feed.DeleteAt` | event/feed.go:213-215 | in-place deletion removes exactly one case and keeps the order of the rest |
| `Feeds.Feed.DeactivateAt` | event/feed.go:218-222 | in-place swap behind the active prefix |
| `Feeds.Feed.RemoveIdle` | event/feed.go:95-116 | removes one entry, from the inbox first |
| `FeedProtocol.StepKeeps` | event/feed.go:73-180 | every step of every thread keeps the protocol invariant |
| `FeedProtocol.EveryRunBalances` | event/feed.go:73-180 | in every interleaving, entries in inbox plus sendCases per channel are its live subscriptions plus pending removals, every pending removal has its case, and no delete gets index -1 |
| `FeedProtocol.EverySendDelivers` | event/feed.go:120-180 | in every interleaving a finished Send has delivered once per case except those removed first |
| `Balances.TransferConserves` | core/evm.go:144-147 | a permitted transfer changes no total and wraps nowhere |
| `StateTransitions.FloorDataGas` | core/state_transition.go:156-168 | the floor is at least the base cost and fits a uint64, or overflow is reported |
| `StateTransitions.PurchaseExact` | core/state_transition.go:472-519 | the gas debit never underflows, takes exactly the price, and leaves enough for the value |
| `StateTransitions.Transition.BuyGas` | core/state_transition.go:472-519 | succeeds if and only if the sender owns the required amount, it fits 256 bits and the block has the gas; refusals change nothing |
| `StateTransitions.Transition.PreCheck` | core/state_transition.go:521-622 | succeeds if and only if nonce, sender, gas cap, fees, blobs, authorization list and purchase pass; refusals change nothing |
| `StateTransitions.Transition.Charge` | core/state_transition.go:678-731 | succeeds if and only if intrinsic gas, floor, hook, value and init code checks pass |
| `StateTransitions.Transition.CalcRefund` | core/state_transition.go:929-948 | the counter, capped by the quotient of refundable gas |
| `StateTransitions.Transition.Settle` | core/state_transition.go:783-808 | gas used is the larger of peak minus refund and the floor |
| `StateTransitions.Transition.ReturnAndTip` | core/state_transition.go:809-842 | no product or balance wraps, and the supply changes by exactly the fees |
| `StateTransitions.Transition.Execute` | core/state_transition.go:634-864 | a message is executed if and only if all checks pass on balances, nonces and block gas; it then uses exactly the specified gas and returns the rest to the block, spends the sender's nonce (a call wraps the largest one, a creation leaves it), and changes the total balance by exactly minus gas fee and blob fee plus tip; after the purchase the value check fails only if the charging hook lowered the sender's balance; transfers and nonce increments of the start hook come first, and are all that a message it ends does |
| `StateTransitions.GasBounds` | core/state_transition.go:783-809 | refund under its quotient of refundable gas; floor <= UsedGas <= MaxUsedGas <= gas limit; UsedGas is peak minus refund or the floor |
| `StateTransitions.GasPool.SubGas` | core/gaspool.go:39-45 | takes gas if and only if the pool has it |
| `StateTransitions.GasPool.AddGas` | core/gaspool.go:29-35 | adds gas where the pool stays a uint64; callers prove that, so the panic is unreachable |
| `StateProcessor.Process` | core/state_processor.go:59-143 | accepts a block if and only if every transaction runs at its turn and stops at the first that does not; pool plus gas of transactions not ended by the start hook is the block limit; every receipt carries the gas its own transaction uses, and cumulative gas is the prefix sum; accounts move by applied transactions only |
| `StateProcessor.ApplyTransaction` | core/state_processor.go:148-188 | applies a transaction if and only if it runs; its receipt carries the gas it uses; its effect on pool, counter, nonces and supply |
| `StateProcessor.NoncesInOrder` | core/state_processor.go:99-113 | two nonce-checked transactions of one sender carry rising nonces, whatever else runs between them, unless an unchecked one wraps the sender's nonce between them, and if and only if so below 2^64 increments |
| `StateProcessor.WrapExample` | core/state_transition.go:756-758 | in any block state with the account at nonce 2^64 - 2 and 63000 gas left, under London rules with base fee 0: three transactions of 21000 gas, checked, unchecked and checked, that all run and are applied in turn, the checked ones with nonces 2^64 - 2 and 0 |
| `StateProcessor.QuietStep` | core/state_transition.go:634-864 | a call without fee or effect runs wherever its nonce fits, and leaves the sender's nonce one higher, or 0 after the largest |
| `StateProcessor.SupplyLosesFees` | core/state_processor.go:99-113 | over a whole block the total balance falls by exactly the fees of its transactions |
| `StateProcessor.CounterExact` | core/state_processor.go:99-113 | without start-hook transactions the gas counter cannot wrap and is what the pool lost |
| `Authorizations.Delegations.ApplyAll` | core/state_transition.go:757-766 | the loop computes the fold of single authorizations, with their refunds |
| `Authorizations.Delegations.ApplyAuthorization` | core/state_transition.go:898-922 | one authorization, skipped unless valid |
| `Authorizations.Delegations.Validate` | core/state_transition.go:867-895 | returns the signer if and only if chain, nonce, signature and code allow it |
| `Authorizations.ContractUntouched` | core/state_transition.go:867-922 | an account with ordinary code keeps code and nonce through any list |
| `Authorizations.NonceCounts` | core/state_transition.go:757-766 | every nonce rises by exactly the number of authorizations accepted for it |
| `Authorizations.AcceptedConsecutive` | core/state_transition.go:757-766 | accepted nonces are consecutive from the starting nonce |
| `Authorizations.NeverTwice` | core/state_transition.go:757-766 | no authority and nonce pair is accepted twice |
| `Authorizations.CodeIsLast` | core/state_transition.go:898-922 | the final code is that of the last accepted authorization |
| `TrieGc.Collector.WriteBlock` | core/blockchain.go:1838-1924 | a block is saved at once if and only if an archive must, and queued otherwise; after every write the references are exactly the queued roots; what left had expired by height and time and is no newer than what stays; the oldest entry left has not expired when both limits are positive; the saved states and the time left to the next flush are stated exactly |
| `TrieGc.Collector.WriteBlockWithTime` | core/blockchain_arbitrum.go:78-85 | the same after the processing time was counted towards the next flush |
| `TrieGc.Collector.DequeueExpired` | core/blockchain.go:1886-1897 | each dequeued root but the last is dereferenced exactly once, oldest first |
| `TrieGc.Collector.Collect` | core/blockchain.go:1874-1924 | the last one too, after the state at its height was saved if due |
| `TrieGc.Collector.MustCommit` | core/blockchain.go:1838-1865 | a state is saved at once if and only if skipping it would exceed a limit, so skipped blocks and their gas stay within both limits |
| `TrieGc.Collector.Stop` | core/blockchain.go:1441-1477 | saves exactly the states of head, parent, oldest kept block and oldest queued block where they exist, then brings all references to zero |
| `TrieGc.ShutdownSaves` | core/blockchain.go:1441-1470 | the states of the head, the block below and the oldest queued block are among those saved |
| `TrieGc.Collector.RunAndStop` | core/blockchain.go:1838-1924 | the state after each write of any run follows from the one before it by that write, with what it queued, referenced, dropped and saved; the shutdown saves the recent states on top and leaves no reference |
| `RecordingDb.Database.FindLastAvailableState` | arbitrum/recreatestate.go:31-70 | ends like the specified search: a found header comes with exactly one reference, not found with none |
| `RecordingDb.SearchMeaning` | arbitrum/recreatestate.go:31-70 | the found header is the closest one on the target's ancestor path whose state opens, unless the context is cancelled before |
| `RecordingDb.Database.AdvanceStateByBlock` | arbitrum/recreatestate.go:72-88 | re-executes exactly the block at the number if it stands on the given one |
| `RecordingDb.Database.AddStateVerify` | arbitrum/recordingdb.go:270-292 | takes a reference if and only if the commit gives the expected root, before opening it again |
| `RecordingDb.Database.Recreate` | arbitrum/recordingdb.go:356-389 | one reference is held at any time, for any number of blocks and any failing step; one is lost exactly when a committed state cannot be opened |
| `RecordingDb.Database.GetOrRecreateState` | arbitrum/recordingdb.go:343-389 | success and failure decided by the input; exactly one more reference on success and none on failure, if and only if the input does not leak: the context is not cancelled at the inspection after the opening, and no block that is reached commits a state that cannot be opened |
| `RecordingDb.Database.PrepareRecording` | arbitrum/recordingdb.go:294-322 | the same condition, also when a later step fails and the reference is released again |
| `RecordingDb.RunMeaning` | arbitrum/recordingdb.go:343-389 | success and leak of the specified run are exactly the stated conditions on the input |
| `RecordingDb.CancelExample` | arbitrum/recreatestate.go:69 | a context cancelled right after the opening leaves a reference |
| `RecordingDb.ReopenExample` | arbitrum/recordingdb.go:291 | a committed state that cannot be opened leaves a reference |
| `RecordingDb.Database.ReferenceRoot` | arbitrum/recordingdb.go:256-260 | the counter stays the number of references |
| `RecordingDb.Database.DereferenceRoot` | arbitrum/recordingdb.go:262-268 | the counter stays the number of references |
| `DerivationPaths.RoundTrip` | accounts/hd.go:68-136 | parsing a printed uint32 path gives it back if and only if it is nonempty |
| `DerivationPaths.ParsedIsCanonical` | accounts/hd.go:68-136 | printing and parsing again reproduces whatever was parsed |
| `DerivationPaths.PrintInjective` | accounts/hd.go:122-136 | different paths print differently |
| `DerivationPaths.ParsePrinted` | accounts/hd.go:100-104 | printed decimals are never read in another base |
| `DerivationPaths.ParseDerivationPath` | accounts/hd.go:68-118 | the loop computes the specified parse, including its errors |
| `DerivationPaths.Parse` | accounts/hd.go:68-118 | success gives a nonempty path of uint32 components, so the hardened offset never overflows |
| `DerivationPaths.String` | accounts/hd.go:122-136 | the loop computes the specified text |

## Left out

- Logs, events, metrics, tracers, timers and LRU caches; caches are replaced by database reads.
- Snap sync, the freezer, path-scheme rewinds, history pruning, snapshots, witnesses.
- The EVM, ArbOS hooks, state tries, `prque` and signature recovery: arguments or abstract maps and multisets.
- Multi-dimensional gas: only the single-dimension figures are modelled.
- IntrinsicGas, EndTxHook and transactions scheduled by hooks; the end hook's payments are not part of the supply statement.
- Scheduling and liveness: `Feeds.Feed.Send` terminates given that each select returns; fairness is not modelled.
- Hash collisions: stored headers and bodies are determined by their hash (`Fits`, `Agrees`, `Within`).
- Transactions repeated along one chain: the lookup index statements assume none (`UniqueTxs`), as the index has one entry per hash.
- The update and delete callbacks of `setHead`, and frozen heights.
- The downstream pusher: after a successful push its last pushed block is taken to be the announced block.
- The second read of the marker in `GetAncestor`, which guards against a concurrent reorg: the model reads one fixed chain.
- The depth limit of `FindLastAvailableState`: recording always searches without limit. Each header and block is asked for at most once in a run, so what opens, executes and commits is a set.
- The removal requests a Send can receive are given in the order they arrive, each with a case of its own, which `FeedProtocol.EveryRunBalances` establishes for every interleaving.
- A message without fee cap: messages made from transactions have one.
- What the start hook of ArbOS mints or burns (deposits, retryables): its effects are transfers between accounts and nonce increments, which conserve the supply.
- Contracts destroyed by a call: nonces only rise in `Env.bumps`.
- Reading numbers with a base prefix follows Go's documented rules for base 0 of `big.Int.SetString`.
- Iterators and JSON methods in accounts/hd.go, message run modes, fee history, RPC: they would only add easy members.
- StateTransitions.Transition.PayTip: states the credited amount only for enforced base fees, since a negative tip with base fees disabled is cut to 256 bits in the source.
- StateTransitions.Transition.ReturnGas: does not model the panic for a gas price over 256 bits, which the fee checks exclude under London rules.
- RecordingDb.Database: state roots are nonzero, as the release treats the zero root as "nothing to release".
