# Flow Rosetta: a verified model of the indexer

Flow Rosetta follows the Flow chain, turns the events of every transaction into Rosetta operations, keeps the
resulting account balances in a key/value store, and answers balance and block queries from it. This project models
that pipeline in Dafny and proves that its parts fit together: what a balance lookup returns is what the chain's events
add up to, across blocks, restarts, rollbacks and seal failures.

The model follows the program's own shape. The store, the indexer, the cold-storage contract and the hash queue are
classes whose methods update fields; the loops of `processBlock`, `Index`, `ResetTo`, `getBlock` and the signature
converters are methods with invariants; each of these is proved against a function or predicate over plain values, and
the lemmas are about those. Sums are kept as unbounded integers and compared modulo 2^64 wherever the program adds in
`int64` or `uint64`, so that wrap-around is part of every statement rather than assumed away.

| file | contents |
|---|---|
| `Prelude`, `Bytes`, `Badger`, `Model` | machine integers, big-endian keys and their order, seeks and scans of a sorted store, the indexed data types |
| `IndexSpec`, `IndexTxn`, `Scans`, `Rollback`, `IndexDb`, `Purge`, `Conservation` | the reference store of a history of blocks, and the database proved against it |
| `Translate`, `Matching`, `Processor`, `Flows`, `OperationSpec` | events to operations: two passes, netting, iteration order, what is counted and what is lost, and every operation stated on the events |
| `Ledger`, `EndToEnd`, `Restart`, `Demotion`, `SameIndex`, `Indexer` | whole runs: ledger refinement, restart and resync, addresses created again, one index per chain |
| `Sporks`, `LiveSpork`, `ProcessLoop`, `PastLoop`, `LiveLoop`, `IndexBlocks`, `Collections`, `Deque` | spork lookup, the backward walk, the live loop as a state machine, `indexBlocks` driving the indexer through both, what honest data achieves, regrouping results, the hash queue |
| `Conversion`, `BlockApi`, `Reconciler` | `/block`: conversion and reading it back, deduplication, reconciliation with the answered balances |
| `Signatures`, `InnerTransaction`, `ColdStorage`, `VaultChains`, `VaultTraces`, `VaultWraps` | signature formats, offline transfers, the vault contract, chains of its calls and their traces in the indexer |

Facts about the code that the proofs bring out, each with the exact condition:

- The merge of leftover deposits overwrites instead of adding. For an accepted transaction and an account, nothing is
  lost if and only if the account is a proxy when the second pass runs, or the first pass collected no proxy deposits
  for it, or its plain deposits were all sent by proxy transfers (`Flows.NettingLosesNothing`; the amount lost is
  `Flows.Lost`). That holds whenever no address is created again while known as a proxy
  (`Flows.NoDemotionLosesNothing`); `Flows.RecreationLosesDeposit` is an input outside the condition, accepted with 7 of
  12 units missing.
- A transaction is accepted if and only if its events decode and name their keys, its payer's own withdrawals cover
  what the fee accounts received (if the payer is followed), and no account is
  sent more by proxies than its uint64 counter of deposits holds (`Flows.AcceptanceIsExact`). In chains of contract
  calls every such transfer has its deposit, but the counter does not always show it. It does, and the transaction is
  accepted exactly when its fee is paid, under two conditions: no account is sent 2^64 units or more within the
  transaction, and no fee account is followed as an ordinary account (`VaultTraces.VaultTracesNeverTrip`). Outside
  them it can be refused, and its block is then fetched again for ever: `Flows.HiddenDepositsTrip` names two refused
  families, and `VaultWraps.WrappedCounterTrips` is a transaction of three signed transfers of 2^63 units between two
  vaults, after a block that sets them up.
- Stored balances are uint64. A block moves a stored balance by exactly its effect if and only if the sum stays in
  [0, 2^64) (`Conservation.StoredMoves`), and modulo 2^64 always. `Conservation.WrappingBlockIsLost` is a block of four
  transactions, each crediting 2^62, that Index accepts and that leaves a fresh account at 0; the indexer makes it of
  four deposit events (`Reconciler.WrappingIsIndexed`), and `Reconciler.WrappingAnswer` is the same block in the
  `/block` answer. The reconciliation tool adds in int64 and so does not notice: it complains exactly if the operations
  that deduplication dropped change the balance modulo 2^64 (`Reconciler.Reconcile`).
- The `/block` answer determines the indexed operations, with kinds, sides, amounts and keys, if and only if no account
  is only debited by more than 2^63 units (`OperationSpec.IndexedReadsBack`): such a debit reads as a credit.
- A restart keeps every `isTracked` answer. It keeps the `isProxy` answer for an address if and only if the last
  transaction that records a creation of it records a key, or none does (`Demotion.RestartProxies`), which holds on
  every chain that creates addresses once; `Demotion.DemotionChangesRestart` is an indexed chain on which it does not.
- A rollback deletes the hash key of every dropped block, so it reproduces the shorter store if and only if no kept
  block shares a hash with a dropped one (`Rollback.RollbackRepresents`). Likewise purging leaves proxy keys behind
  exactly if some address was made a proxy at two heights (`Purge.PurgeClearsProxies`); exactly then `Accounts`,
  which start-up calls after the purge, fails on the purged store (`Purge.PurgedAccounts`).
  `Demotion.SecondCreationBreaksPurge` is such a chain.

## Model

| member | source | states |
|---|---|---|
| `EndToEnd.LedgerRefinement` | state/process.go:455-1027 | After any run of accepted blocks from genesis on a chain that creates addresses once, the folded balance of every followed non-fee account is, modulo 2^64, the sum of its own events: token deposits minus withdrawals, or vault deposits minus transfers for a proxy; every other account has zero. |
| `EndToEnd.LookupRefinesLedger` | indexdb/indexdb.go:820-847 | At every indexed height the number a lookup returns equals that sum exactly whenever the sum is in [0, 2^63). |
| `EndToEnd.BalanceIsCounted` | indexdb/indexdb.go:415-446 | The balance fold of an indexed history is congruent to the flows the passes counted, block by block. |
| `EndToEnd.ChainCountsAll` | state/process.go:1069-1071 | On a sane chain, what the passes counted for an account over all blocks is all of its events if it is followed and nothing otherwise, although accounts become followed mid-block. |
| `Ledger.CreatedIsUnknown` | state/process.go:421-503 | An address about to be created is in neither the account map nor the block's new accounts. |
| `Ledger.ProxyCountedAll` | state/process.go:593-740 | Within a transaction all vault events of an account are counted if it ends up a proxy, and none otherwise. |
| `Ledger.TxnCountsAll` | state/process.go:465-891 | One transaction counts all or none of an account's events, by the account's final classification, which only a creation can change. |
| `Ledger.SaneIsNoDemotion` | state/process.go:465-595 | If addresses are created once, no transaction turns a proxy account back into an ordinary one. |
| `Restart.RestartTracks` | state/state.go:535-555 | On every indexed chain, whatever it creates, the account map rebuilt from the store gives the same `isTracked` answer for every address as the live indexer. |
| `Restart.RestartAgrees` | state/state.go:588-606 | On a chain that creates addresses once, the rebuilt map also gives the same `isProxy` answers, and differs from the live one only by originators that were never created. |
| `Demotion.RestartProxies` | state/state.go:588-594 | On every indexed chain the live map calls an address a proxy if the last transaction that records its creation records a key, and the rebuilt map if any does; so every live proxy stays one, and the two answers are equal if and only if, given some transaction made it a proxy, that last one records a key. |
| `Demotion.LiveIsLast` | state/process.go:1069-1071 | What the live map holds for an address is what the last transaction that recorded its creation recorded, over the whole chain. |
| `Demotion.KnownThroughBlock` | state/state.go:588-594 | An account known from earlier blocks keeps its classification through the next block, whatever that block creates; the map changes with the commit. |
| `Demotion.DemotionChangesRestart` | state/process.go:1069-1071 | A chain that sets up a proxy account and creates it again, and the history that indexes it: the live map calls the account ordinary, and every map rebuilt from that history's store calls it a proxy. |
| `Demotion.SecondCreationBreaksPurge` | indexdb/indexdb.go:582-640 | An indexed chain that makes one address a proxy at two heights, so that the condition of `Purge.PurgedAccounts` fails. |
| `SameIndex.IndexIsDetermined` | state/process.go:418-1071 | Two indexes of one chain, from whatever runs and map orders, agree block by block in hash, timestamp and transactions, whose operations are equal as multisets. |
| `SameIndex.SameExpected` | indexdb/indexdb.go:397-548 | Such indexes store the same value under every key, and under block keys blocks that differ at most in the order of operations within a transaction. |
| `SameIndex.ChainDeterminesStore` | state/state.go:261-282 | Two stores that index one chain from one genesis are the same store, with the same balances, touched accounts and proxies at every height, on any chain. |
| `Indexer.SameChainSameIndex` | state/state.go:535-555 | Two valid indexers at the end of one sane chain, started fresh, resumed, or resynced and reprocessed, hold the same index and follow the same accounts and proxies. |
| `Indexer.SameChainSameVerdict` | state/process.go:294-1080 | Two such indexers also accept the same next block: what a resumed or resynced indexer is given again, it commits exactly if the live one would, the verdict of the seal gate being equal. |
| `Restart.ReprocessingAgrees` | state/process.go:418-1071 | With either map the next block is accepted with the same operations, and the maps agree again afterwards. |
| `Restart.HistoryFollowing` | indexdb/indexdb.go:80-129 | On every indexed chain the touched accounts of the store are the followed ones and originators, and every followed account is touched. |
| `Restart.HistoryProxyAgreement` | indexdb/indexdb.go:80-129 | On a sane chain an address is a proxy in the store exactly if it is one in the live map. |
| `Restart.OperationsNameInvolved` | state/process.go:893-1026 | The operations of an accepted transaction touch only accounts the passes collected, touch every created one, and create a proxy exactly where a key was recorded. |
| `Indexer.Indexer.Start` | state/state.go:557-575 | An empty database starts a valid indexer at the root block. |
| `Indexer.Indexer.Resume` | state/state.go:261-282 | Opening a store, rolling it back to the resync height and rebuilding the account map yields a valid indexer for exactly the kept prefix of the chain, provided no hash straddles that height. |
| `Indexer.Indexer.TranslateBlock` | state/process.go:418-1028 | The transaction loop accepts if and only if every transaction belongs to the block (or integrity checks are skipped) and each one's netting succeeds with the new accounts of those before it; it then returns the block's translation and its new accounts. |
| `Indexer.Indexer.ProcessBlock` | state/process.go:294-1080 | An attempt commits if and only if the gate passes, the block translates and no balance it touches becomes negative; it is given up exactly if the gate asks for it or the block does not translate, and fatal exactly if the gate is. A commit extends chain, store and account map by exactly this block, with all fetched transactions in order unless checks are skipped, and consumes its seal; any other outcome changes nothing. When the gate passes is stated on the data by `LiveSpork.SoundProceeds` and `PastLoop.PlannedGate`. |
| `Indexer.OwnTxnsAre` | state/process.go:421-455 | The transactions taken from the fetched ones are exactly those that name the block, in order. |
| `Indexer.Indexer.Commit` | state/process.go:1045-1076 | A translated block is stored if and only if no touched balance reads as negative; the store then has exactly this block more and the fields follow; if the store refuses, nothing changes. |
| `Indexer.StorableIsDetermined` | indexdb/indexdb.go:476-518 | Whether the store takes a block does not depend on the order in which the maps were iterated. |
| `Indexer.Indexer.BalanceOf` | indexdb/indexdb.go:218-232 | On a valid indexer with a sane chain, the balance answered at any indexed height is the sum of the account's events up to it. |
| `Indexer.CommitAgrees` | state/process.go:1045-1076 | Committing a translated block keeps the history an index of the chain and the account map in agreement with an uninterrupted run. |
| `Flows.TransactionIsNetted` | state/process.go:465-1026 | For every accepted transaction, account and map iteration order, the operations change the account by exactly its counted inflow minus outflow, less what the merge overwrites, less 2^64 for each net wrap of a counter; so they carry the counted flow modulo 2^64 if and only if nothing is overwritten. |
| `Flows.OpenIsCounted` | state/process.go:465-891 | What the passes collect is the counted flow less whole wraps of their uint64 counters. |
| `Flows.DepositsAreDisjoint` | state/process.go:980-991 | No account has both kinds of deposit, before the matching or after it, if no proxy is created again. |
| `Flows.NettingLosesNothing` | state/process.go:980-991 | The operations carry exactly the collected amounts if and only if the account ends as a proxy, has no proxy deposits, or had its plain deposits all sent by proxy transfers. |
| `Flows.NettingLoses` | state/process.go:974-1026 | The exact amount lost otherwise, in terms of what the two passes collected. |
| `Flows.NoDemotionLosesNothing` | state/process.go:478-595 | Nothing is lost if no account is created again while known as a proxy. |
| `Flows.RecreationLosesDeposit` | state/process.go:980-991 | A concrete accepted transaction that loses: 12 units are collected, 5 are credited. |
| `Flows.FirstCounts` | state/process.go:465-740 | The first pass collects exactly the vault deposits made while the account is a known proxy, reduced modulo 2^64, exactly the transfers out of it, and exactly those to a followed account. |
| `Flows.SecondCounts` | state/process.go:742-891 | The second pass collects exactly the token deposits and withdrawals of counted accounts, each reduced modulo 2^64, and nothing for others. |
| `Flows.SecondFees` | state/process.go:806-809 | The fee counter is the sum of all token deposits to fee accounts, reduced modulo 2^64. |
| `OperationSpec.TranslationIsExact` | state/process.go:465-1026 | Every operation of an accepted transaction, stated on its events: a creation with the account's final key for each recorded AccountCreated event; the fee; a proxy transfer with its receiver, if followed, for each such event of positive amount; then one transfer from sender to receiver if exactly one account has deposits left and exactly one withdrawals, of the same amount, and otherwise one one-sided transfer for each rest; nothing more. |
| `OperationSpec.FeeIsCharged` | state/process.go:905-928 | An accepted transaction has exactly one fee operation, by the payer and of what the fee accounts received, if the payer is followed and that is positive, and none otherwise. |
| `OperationSpec.NewsAreCreated` | state/process.go:478-595 | A transaction adds exactly its recorded creations to the new accounts, each a proxy exactly if a key was given since its last creation. |
| `Flows.FirstCreates` | state/process.go:478-595 | Keys, addresses and new accounts name the same creations, and an account is a proxy exactly if its key is recorded. |
| `Translate.NetConserves` | state/process.go:905-973 | Fee split and proxy matching keep, for each account, emitted effect plus open amounts. |
| `Translate.ChargeFeeConserves` | state/process.go:905-928 | Splitting off the fee keeps every account's worth. |
| `Translate.MatchMovesConserves` | state/process.go:931-973 | Matching all proxy transfers lowers an account's worth by exactly what its vault sent. |
| `Translate.TailEffect` | state/process.go:998-1026 | In every iteration order, one-to-one or not, the final transfers move each account by its remaining deposits minus withdrawals. |
| `Translate.OrderDoesNotMatter` | state/process.go:1010-1026 | Two accepted translations of a transaction have the same operations as multisets. |
| `Processor.TranslateTransaction` | state/process.go:455-1027 | The imperative passes and loops accept exactly when the netting does and emit operations of some iteration order. |
| `Processor.FirstLoop` | state/process.go:465-740 | The first event loop computes the first pass, and restarts exactly if it fails. |
| `Processor.SecondLoop` | state/process.go:742-891 | The second event loop computes the second pass with the final new accounts; what it collects is stated on the events by `Flows.SecondCounts` and `Flows.SecondFees`. |
| `Processor.MatchLoop` | state/process.go:931-973 | The matching loop accepts exactly when the matching does, and its subtractions never underflow. |
| `Processor.MergeRemaining` | state/process.go:975-997 | The three filter loops leave the positive deposits, with proxy deposits overriding, and the positive withdrawals. |
| `Processor.EmitRemaining` | state/process.go:1001-1026 | The closing branch emits the tail of some iteration order. |
| `IndexDb.Store.Index` | indexdb/indexdb.go:397-548 | The next height is stored if and only if every touched balance reads as non-negative, and then the store is the reference store of the longer history; a known height is skipped, a gap is fatal, and anything but success leaves the store as it was. |
| `IndexDb.Store.Update` | indexdb/indexdb.go:476-537 | The pending transaction, if it can be committed, represents the history with the block added. |
| `IndexDb.Store.WriteBalances` | indexdb/indexdb.go:476-518 | Over the diffs in any order: success exactly if all new balances are non-negative, and then each diffed account has its new balance at the new height and nothing else changed. |
| `IndexDb.Store.CurrentBalance` | indexdb/indexdb.go:478-506 | The seek for the previous entry never lands on the height being written and yields the previous folded balance. |
| `IndexTxn.CollectDiffs` | indexdb/indexdb.go:415-458 | The fold of a block has an entry for exactly the touched accounts, congruent to the true net change, and a proxy key for exactly the created proxies. |
| `IndexTxn.AddOperationMatches` | indexdb/indexdb.go:415-446 | One operation in wrapped int64 arithmetic keeps the diffs congruent to the true effects. |
| `IndexTxn.CommitExtends` | indexdb/indexdb.go:519-537 | Committing the pending writes turns the reference store of a history into that of the history with one more block. |
| `Conservation.IndexArithmetic` | indexdb/indexdb.go:507-516 | A true balance in [0, 2^63) is accepted and stored exactly even if intermediate sums wrapped; one in [-2^63, 0) or [2^63, 2^64) is refused. |
| `Conservation.IndexConserves` | indexdb/indexdb.go:415-518 | The total of the stored balances moves by what the block credits minus what it debits: modulo 2^64 always, and exactly if no stored balance leaves the uint64 range. |
| `Conservation.StoredMoves` | indexdb/indexdb.go:507-516 | A stored balance moves by the block's effect exactly if and only if the sum is a uint64, and modulo 2^64 always. |
| `Conservation.TotalIsExactIff` | indexdb/indexdb.go:415-518 | The total is exact if and only if the carries of the accounts cancel. |
| `Conservation.WrappingBlockIsLost` | indexdb/indexdb.go:507-516 | A block that Index accepts, credits 2^64 to a fresh account and leaves its stored balance at 0. |
| `IndexSpec.StoreIsDetermined` | indexdb/indexdb.go:397-548 | A history determines the store key by key, up to the parent field of a genesis tip. |
| `IndexSpec.IndexExtends` | indexdb/indexdb.go:519-537 | Writing a block's keys and no others extends the represented history by it. |
| `IndexSpec.AccountKeyOrder` | indexdb/indexdb.go:820-847 | On one account the order of 17-byte keys is the order of heights. |
| `IndexSpec.SeekAccount` | indexdb/indexdb.go:820-847 | The greatest key at or below an account key is the account's last entry, or has another prefix and then the account has none. |
| `IndexSpec.LastEntryHoldsBalance` | indexdb/indexdb.go:820-847 | That entry holds the folded balance at the queried height. |
| `IndexDb.Store.LookupBalance` | indexdb/indexdb.go:820-847 | One reverse seek returns the fold of all operations up to the height, as a uint64. |
| `IndexDb.Store.HasBalance` | indexdb/indexdb.go:317-341 | True exactly if some block at or below the height touched the account. |
| `IndexDb.Store.BalanceByHeight` | indexdb/indexdb.go:218-232 | Found exactly for indexed heights, with the folded balance and the block's hash. |
| `IndexDb.Store.HashForHeight` | indexdb/indexdb.go:344-369 | The hash of exactly the heights genesis..latest. |
| `IndexDb.Store.HeightForHash` | indexdb/indexdb.go:372-394 | The last height indexed with that hash. |
| `Rollback.HeightOfHashFinds` | indexdb/indexdb.go:372-394 | That height carries the hash and no later one does; none is returned only for unknown hashes. |
| `IndexDb.Store.BlockByHeight` | indexdb/indexdb.go:252-266 | Found exactly for indexed heights: above genesis the stored block, its hash, and the hash and height of the block below it as parent; at genesis an empty block that is its own parent. |
| `IndexDb.Store.BlockByHash` | indexdb/indexdb.go:235-249 | Found exactly for indexed hashes, with the same answer as the lookup by its height, and so the block below as parent. |
| `LiveLoop.LiveBlockData` | indexdb/indexdb.go:869-881 | The parent answered for a live block above the root is the parent that the block itself names. |
| `PastLoop.PastBlockData` | indexdb/indexdb.go:869-881 | The parent answered for a block that a pass committed is the one that the walk was told. |
| `IndexDb.Store.Accounts` | indexdb/indexdb.go:80-129 | Never fails on a valid store, and lists exactly the touched accounts, flagged exactly if created as proxies. |
| `Scans.ScanAccounts` | indexdb/indexdb.go:80-129 | On any store with keys of the right shape, valid or not: the two scans fail exactly if some proxy key has no account key, and otherwise list the accounts with an entry, flagged exactly if they have a proxy key. |
| `IndexDb.Store.ProxyHasAccount` | indexdb/indexdb.go:427-438 | Every proxy key has an account key at the same height. |
| `IndexDb.Store.AccountsInfo` | indexdb/indexdb.go:133-198 | Exactly the touched accounts, each with all its balance changes in ascending height order. |
| `Scans.LookupIsLastChange` | indexdb/indexdb.go:820-847 | The looked-up balance is the last reported change at or below the height, or zero. |
| `Scans.ChangesAscend` | indexdb/indexdb.go:133-169 | Changes collected in key order are in strictly ascending height order. |
| `Scans.CollectChanges` | indexdb/indexdb.go:145-169 | The scan groups the changes of every account and of no other. |
| `IndexDb.Store.HeightScan` | indexdb/indexdb.go:700-735 | A scan of the height keys visits genesis..latest in order and without gaps. |
| `IndexDb.Store.ResetTo` | indexdb/indexdb.go:643-775 | At or above the tip nothing changes; below it the store becomes that of the blocks up to the height if and only if no dropped hash is also a kept one. |
| `IndexDb.Store.KeptUpTo` | indexdb/indexdb.go:654-760 | The three scans delete exactly the keys of heights above the base, and the new tip describes the base block. |
| `Rollback.RollbackRepresents` | indexdb/indexdb.go:643-775 | Deleting those keys leaves the reference store of the prefix if and only if no hash is shared across the base. |
| `Rollback.RollbackKey` | indexdb/indexdb.go:654-735 | Key by key, what remains is what indexing only up to the base would have written. |
| `Rollback.SharedHashBreaksRollback` | indexdb/indexdb.go:712-730 | A shared hash loses the kept block's hash key. |
| `IndexDb.Store.PurgeProxyAccounts` | indexdb/indexdb.go:582-640 | Removes every entry of every proxy account and the last creation key of each, and keeps all else. |
| `Purge.PurgeClearsProxies` | indexdb/indexdb.go:582-640 | No proxy key remains if and only if no address was made a proxy at two heights. |
| `Purge.PurgedAccounts` | indexdb/indexdb.go:80-129 | On the purged store Accounts fails if and only if some address was made a proxy at two heights; otherwise it lists exactly the touched accounts that were never proxies, none flagged. |
| `Purge.PurgedLookup` | indexdb/indexdb.go:820-847 | On the purged store a lookup gives zero for proxies and the unchanged balance for every other account at every height. |
| `IndexDb.Store.Create` | indexdb/indexdb.go:778-818 | Setting genesis on an empty store gives the reference store of the empty history. |
| `Badger.ReverseSeek` | indexdb/indexdb.go:826-834 | The greatest stored key at or below the bound. |
| `Badger.Scan` | indexdb/indexdb.go:87-100 | Seek and Next under a prefix visit every key with it once, in order. |
| `Bytes.LessIsNumeric` | indexdb/indexdb.go:820-826 | On equal lengths lexicographic order is numeric order of the big-endian values. |
| `LiveSpork.LiveSporkSafety` | state/state.go:305-488 | In every state of every run, from a root already stored or not, whatever seals are on record at the start, with failures and restarts at any point: one record per height from the root up, in order and without gaps; the waiting map holds exactly the retrieved, unindexed blocks; each non-root, non-skipped record has the result a retrieved descendant sealed. |
| `LiveSpork.SealIsForNext` | state/state.go:415-470 | A seal that finds its block waiting is always for the block right after the last indexed one. |
| `LiveSpork.SoundProceeds` | state/process.go:382-395 | At the seal of a waiting block the gate passes if and only if checks are skipped or the events match and the derived result is the sealed one; any other data is sent back. |
| `LiveSpork.SealedIsIndexed` | state/state.go:415-470 | Every block that a block the loop has finished with seals is indexed. |
| `LiveSpork.StepInv` | state/state.go:305-488 | Every step of the loop keeps the invariant. |
| `LiveSpork.NeverStuck` | state/state.go:365-480 | On an honest chain the parent check passes at every fetch, and the gate never dies for want of a seal. |
| `Sporks.WalkBack` | state/state.go:490-509 | The descending uint64 loop terminates; its hashes run from the live root, each the parent reported for the one before; it fails only if no chain can be completed; and the seals of all walked blocks, and no others, are recorded, in walking order. |
| `Sporks.PlanPastSporks` | state/state.go:490-533 | The walk is accepted exactly if a hash chain from the last indexed block to the live root exists, and then hands over exactly its blocks in ascending order; either way the walked seals are on record. |
| `Sporks.RecordedFrom` | state/state.go:248-250 | Every result on record after the walk was there before or stands in a seal of a walked block. |
| `Sporks.LastSealWins` | state/state.go:248-250 | Of several seals of a block the last one walked stays on record. |
| `Sporks.PlanIsUnique` | state/state.go:490-533 | There is only one such plan. |
| `PastLoop.IndexPastSporks` | state/state.go:490-533 | One pass driving the indexer: it commits exactly the blocks of the accepted hash chain up to the first whose attempts do not lead to a commit; each committed block is skipped by configuration, is a self-sealed root, lies unsealed within the tolerance, or has the result that was on record before or that a walked block seals; what stays on record is what was walked less what was committed; a completed pass ends at the live root, before a height of the live spork.; and on honest data that the indexer can take the pass completes. |
| `PastLoop.SealedIsNotFatal` | state/process.go:294-416 | A pass never dies for want of a seal that a walked block carries: while no block of the plan has the hash of an earlier one, the gate is not fatal for a block with such a seal. |
| `PastLoop.PlannedGate` | state/process.go:294-416 | For a block of the plan the gate passes if and only if checks are skipped, or the events match and the block is the root of a later spork, has the result on record, or has none and lies within the tolerance; it is fatal exactly if matching data has no result on record and neither exception applies; else the data is fetched again. |
| `PastLoop.RepeatPasses` | state/state.go:284-303 | Passes that find no chain to the last indexed block only add to the seals on record; the first that finds one is the last, and its blocks are justified by the seals of all walks. |
| `LiveLoop.IndexLiveSpork` | state/state.go:305-488 | The live loop driving the indexer through any script of failures, with any seals on record: its states form a run of the state machine, each the one its turn leads to; every block handed over is the next one; it stops only at a block whose attempts do not lead to a commit; and from the spork root to its tip the store holds exactly the blocks of the chain.; on honest data that the indexer can take it never stops, and once enough turns have delivered the store holds every block that the chain seals. |
| `LiveLoop.ScriptArrives` | state/state.go:305-488 | However many turns failed before, as many delivering ones as the chain has blocks and seals bring the loop through the whole chain. |
| `IndexBlocks.IndexAllBlocks` | state/state.go:284-303 | Past sporks and then the live one: the live loop is reached exactly if the next height was in the live spork or some pass completed; it starts from the root and the seals that the pass left, so that at its end the store holds the walked chain up to the root and the live chain from it. |
| `ProcessLoop.ProcessUntil` | state/process.go:45-1080 | The retry loop commits if and only if some attempt would be accepted and every one before it given up; it then holds one block more, and otherwise is as it was. |
| `Sporks.LoadSporks` | config/config.go:398-467 | The configuration is accepted if and only if it names at least one spork, each usable, with no gap in the IDs and growing root blocks; the linked list then holds exactly the configured sporks in ID order. |
| `Sporks.SporkFor` | config/config.go:66-79 | The walk finds the spork that contains the height, and none exactly below the first root. |
| `Sporks.SporkIsUnique` | config/config.go:66-79 | A height is contained in one spork only. |
| `Collections.GroupResults` | state/process.go:273-292 | The loop over flat results computes the runs of equal collection IDs and marks the last as system collection. |
| `Collections.GroupingInvertsFlattening` | state/process.go:273-292 | It rebuilds the slow path's collections if and only if there is only one, or none is empty and neighbours have different IDs. |
| `Collections.RunsKeepResults` | state/process.go:273-292 | No result is lost or reordered, whatever the IDs. |
| `Deque.MaskIsModulus` | deque/deque.go:47-70 | Masking with a power of two less one is reduction modulo that power. |
| `Deque.PowerCheck` | deque/deque.go:76-81 | The constructor's bit test accepts zero and the powers of two, and nothing else. |
| `Deque.Queue.Push` | deque/deque.go:54-73 | Appends to the contents, doubling a full buffer without changing their order; out of range exactly at capacity zero. |
| `Deque.Queue.Pop` | deque/deque.go:40-51 | Removes and returns the first element, or the zero identifier from an empty queue. |
| `Deque.Drive` | deque/deque.go:40-73 | Every interleaving on a queue of positive capacity answers as a first-in first-out sequence. |
| `BlockApi.Deduplicate` | api/block_service.go:180-215 | One transaction per hash, in order of first occurrence, each the last with operations, or the first if none has any; the operations kept and dropped are together those of the block, and none are dropped if and only if no hash has two transactions with operations. |
| `Conversion.ConvertTransaction` | api/block_service.go:76-178 | The loop computes the conversion of all operations, and a client that joins related entries and takes kinds from types and directions from signs reads the operations back if and only if each is readable. |
| `Conversion.AnswerReadsBack` | api/block_service.go:76-178 | The operations are read back exactly, kinds, sides, amounts and keys, if and only if every fee has a sender only, every other move a side, and every one-sided debit a negative signed amount. |
| `OperationSpec.IndexedReadsBack` | api/block_service.go:76-178 | For every accepted transaction that comes down to no account being only debited by more than 2^63 units. |
| `Conversion.ConversionKeepsEffect` | api/block_service.go:76-178 | If fees have no receiver, the signed amounts on an account add up to the operations' effect, exactly below 2^63 and modulo 2^64 always. |
| `Conversion.ConversionIsNumbered` | api/block_service.go:76-178 | Operations are numbered consecutively and a related credit follows its debit directly. |
| `BlockApi.Reconciliation` | cmd/reconciliation/reconciliation.go:103-143 | The signed amounts of an answer and the operations deduplication dropped carry the change of the answered balance modulo 2^64; if none were dropped, the amounts are exactly that change if and only if they keep the balance in the uint64 range. |
| `BlockApi.AnswerReconciles` | api/block_service.go:76-215 | With amounts below 2^63, amounts and dropped operations add up to the block's true effect. |
| `Reconciler.Reconcile` | cmd/reconciliation/reconciliation.go:103-143 | One round of the tool on the answers of a valid store: it gives up exactly if an answered amount or the balance is outside int64, and otherwise reports a mismatch exactly if the operations deduplication dropped change the balance modulo 2^64, for which some hash must have two transactions with operations; a match carries the balance on to the next round. |
| `Reconciler.WrappingAnswer` | cmd/reconciliation/reconciliation.go:103-143 | An answer with amounts below 2^63 whose exact total is 2^64 while the answered balance stays at 0. |
| `Reconciler.WrappingIsIndexed` | state/process.go:742-1026 | That block is the index of four transactions with one deposit event each. |
| `BlockApi.IndexedFees` | state/process.go:905-928 | Fee operations of an indexed block have no receiver, so the condition above holds for every run. |
| `BlockApi.GetBlockData` | api/block_service.go:217-268 | Which block each identifier selects, with the block below it as parent, and which are refused: a hash exactly if its text is not 64 hexadecimal digits or no indexed block has it. |
| `Signatures.ConvertFlowSignature` | crypto/crypto.go:126-159 | The loops compute the conversion to DER. |
| `Signatures.ConvertDerSignature` | crypto/crypto.go:14-104 | The checks and loops compute the conversion from DER, including where an index is out of range. |
| `Signatures.FlowToDerIsCanonical` | crypto/crypto.go:126-159 | Every 128-digit hex text yields the one DER structure with the minimal non-negative integers of its halves (section 8.3.2 of ITU-T X.690, section 2.2.3 of RFC 3279). |
| `Signatures.FlowToDerTotal` | crypto/crypto.go:126-159 | It fails only on a wrong length or bad hex, and never panics. |
| `Signatures.FlowRoundTrip` | crypto/crypto.go:14-159 | Flow to DER to Flow is the identity for all scalars in [1, n-1]. |
| `Signatures.DerRoundTrip` | crypto/crypto.go:14-159 | DER to Flow to DER is the identity on every canonical signature with such scalars. |
| `Signatures.DerIntegerIsUnique` | crypto/crypto.go:140-147 | A value has one minimal encoding. |
| `Signatures.HexRoundTrip` | crypto/crypto.go:98-103 | Decoding the hex text of bytes gives them back. |
| `InnerTransaction.MakePayloads` | api/construction_service.go:317-345 | Fails exactly on a negative sequence number; else returns the hex encoding, and hashes exactly the bytes the contract verifies. |
| `InnerTransaction.InnerRoundTrip` | api/construction_service.go:49-70 | Payloads, combine and decode return sender, receiver, amount, nonce and the first 64 signature bytes, unsigned and signed. |
| `InnerTransaction.DecodedIsEncoded` | api/construction_service.go:748-773 | Whatever decodes as an inner transaction is the encoding of its fields, with 64 more bytes exactly if signed. |
| `InnerTransaction.VerifiedBytesAreInjective` | script/cadence/contracts/FlowColdStorageProxy.cdc:108-118 | The verified bytes determine receiver, amount and nonce. |
| `InnerTransaction.VerifiedLayout` | script/cadence/contracts/FlowColdStorageProxy.cdc:108-118 | The signed bytes are the 32-byte tag, then receiver, amount and nonce in eight bytes each. |
| `InnerTransaction.TagsAgree` | api/api.go:69-69 | The server's tag is the contract's, padded to 32 bytes. |
| `ColdStorage.Contract.TransferFrom` | script/cadence/contracts/FlowColdStorageProxy.cdc:101-132 | The in-place transfer is the atomic step `Send`: all effects and events, or none; and none without a signature of its bytes under the vault's key. |
| `ColdStorage.Contract.DepositTo` | script/cadence/contracts/FlowColdStorageProxy.cdc:61-64 | A deposit credits the vault and announces itself, or overflows and does nothing. |
| `ColdStorage.Contract.SetUpVault` | script/cadence/contracts/FlowColdStorageProxy.cdc:151-167 | A new account gets an empty vault that expects nonce 0. |
| `ColdStorage.VaultSafety` | script/cadence/contracts/FlowColdStorageProxy.cdc:44-132 | In every history of committed and reverted transactions, the nonces a vault accepted are 0, 1, 2, ... up to its last, and its balance is its Deposited minus its Transferred events. |
| `ColdStorage.NoReplay` | script/cadence/contracts/FlowColdStorageProxy.cdc:101-132 | No two payments of a vault were made against the same signed bytes. |
| `ColdStorage.PaymentsAreSigned` | script/cadence/contracts/FlowColdStorageProxy.cdc:108-119 | In every history each payment was signed, over its own receiver, amount and nonce, under the key that the owner's one setup call gave before it. |
| `ColdStorage.UnsignedChangesNothing` | script/cadence/contracts/FlowColdStorageProxy.cdc:118-119 | A submitted transaction with a transfer whose signature does not verify under the owner's key leaves the world as it was. |
| `ColdStorage.TransferPaysIff` | script/cadence/contracts/FlowColdStorageProxy.cdc:101-132 | Exactly when a transfer is accepted: known vault, next nonce, valid signature, sufficient balance, and a receiver that exists and does not overflow. |
| `ColdStorage.SignedTransferPays` | api/construction_service.go:458-484 | A transfer signed over the bytes the server asked for is accepted with the nonce and signature the server decodes. |
| `Matching.MatchingIsExact` | state/process.go:931-973 | The matching succeeds if and only if no receiver's transfers exceed its deposits in total. |
| `Flows.AcceptanceIsExact` | state/process.go:465-973 | Any transaction is accepted if and only if the first pass succeeds; a followed payer's withdrawals, none if it is a proxy, cover the deposits to fee accounts; and the proxy transfers to each followed account are covered by its vault deposits (a proxy) or token deposits (another account); all sums over the events, deposits, withdrawals and fees reduced modulo 2^64. |
| `OperationSpec.AcceptanceOnEvents` | state/process.go:465-973 | The same with the first pass spelled out: no event fails to decode, and every proxy account that a followed payer sets up has a key and was created earlier in the transaction. |
| `Flows.HiddenDepositsTrip` | state/process.go:931-973 | Proxy transfers of 2^64 units or more to one followed account, and any to a fee account followed as an ordinary one, are refused whatever else holds. |
| `VaultTraces.VaultTraceIsAccepted` | state/process.go:905-973 | Any transaction of contract calls is accepted if and only if its fee is paid and no account is sent more by proxies than its uint64 counter of deposits holds. |
| `VaultTraces.VaultTracesNeverTrip` | state/process.go:931-973 | At every position of every chain of contract calls, every proxy transfer of the next transaction to a followed account has its deposit, and that condition decides acceptance; it reduces to the paid fee if no account is sent 2^64 units or more in the transaction and no fee account is followed as an ordinary one. |
| `VaultWraps.WrappedCounterTrips` | state/process.go:931-973 | A transaction reached by a chain of contract calls, done on chain and with its fee paid, that the matching refuses because a counter wraps. |
| `VaultChains.ChainIsSane` | script/cadence/contracts/FlowColdStorageProxy.cdc:151-167 | Chains of contract calls create every address once, before any other mention of it, so the results about sane chains apply to them. |
| `VaultTraces.IndexedBalanceIsHeld` | script/cadence/contracts/FlowColdStorageProxy.cdc:61-70 | The indexed balance of a proxy account is the balance its vault holds, in the full 64-bit range. |

## Left out

- Fetching, caching, retries, prefetch workers, rate limits, TLS, tracing and signals: what a fetch returned is a parameter, and a loop that retries for ever appears as an outcome (`Restarted`, `Starved`).
- Verification of block hashes, event hashes and execution results (`state/convert.go`): their verdicts are parameters of the seal gate.
- Decoding of Cadence, CCF and JSON payloads: the model starts from decoded events, with one value for a payload that does not decode.
- Badger's files and protobuf encodings: the store is a finite map from keys to values, and an update transaction is atomic. A crash between the batch deletion of `ResetTo` and the write of its new tip is not modelled.
- `FeeAddresses` and the rest of the configuration: originators and fee addresses are sets given to the model.
- Consensus follower, root snapshot download and the PGP check.
- `parseIntent`, the ordinary transaction path of the construction endpoints, fee estimates, metadata, mempool and network endpoints, and the validation flag of the block endpoint.
- The transfer events kept for failed transactions, the error message and the account metadata of balance answers: they carry no balance.
- `BalanceByHash`, `ExportAccounts` and the command-line tools other than one round of reconciliation: thin combinations of modelled lookups.
- Addresses are exactly 8 bytes, as Cadence addresses are; an operation with an account of another length is not representable.
- SHA3-256, RLP and secp256k1 point arithmetic: signature validity is an arbitrary predicate over key, signature and signed bytes, and a public key is represented by its 33-byte compressed form.
- Re-entrant receivers of a vault transfer, moving or burning a vault, and token events between the account creation and the vault creation of one `setup` call. In chains of contract calls, payers and the owners of moved tokens are accounts that exist.
- Timing, backoff and cancellation in the live loop, and the mutexes of the store and the queue.
- Indexer.Indexer.Resume: start-up without the purge; what Accounts returns after one is `Purge.PurgedAccounts`, and indexing on top of a purged store is not modelled.
- Deque.Queue.Push: capacities are unbounded integers; a shift beyond the int64 range is not modelled.
- Sporks.SporkFor: requires linked sporks, which `Sporks.LoadSporks` proves of every accepted configuration.
- IndexDb.Store.ResetTo: requires a height at or above genesis, which its only caller checks before the call (`state/state.go`, `handleResyncFrom`).
