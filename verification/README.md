# A verified model of the Espers node's core

This project models, in Dafny, the parts of the Espers node where state, branching and money arithmetic meet, and
proves what every call and every run of them keeps. Files follow the node's components.

| part | files |
|---|---|
| transaction database and its open batch | `TxDatabase.dfy` |
| connecting and disconnecting blocks, money | `LedgerSpec.dfy`, `LedgerMoney.dfy`, `Ledger.dfy`, `LedgerBlocks.dfy` |
| what an accepted block is, reward schedules, places on disk | `Acceptance.dfy`, `Rewards.dfy`, `CompactSizes.dfy` |
| block tree, reorganisation, best chain, maturity | `BlockTree.dfy`, `ChainSpec.dfy`, `ChainMoves.dfy`, `ChainState.dfy`, `ChainDecisions.dfy`, `Maturity.dfy` |
| coin selection by coin age | `Knapsack.dfy`, `CoinLists.dfy`, `Bundles.dfy`, `CoinAgeSelection.dfy`, `SelectByCoinAge.dfy` |
| default coin selection, fees, building a transaction | `SelectBySubset.dfy`, `Fees.dfy`, `Spending.dfy` |
| address groupings | `Groupings.dfy` |
| address manager, its check and its serializer | `AddrTables.dfy`, `TriedPick.dfy`, `AddrMan.dfy`, `AddrCheck.dfy`, `AddrSave.dfy` |
| block assembly | `Scheduler.dfy`, `Miner.dfy`, `NewBlock.dfy`, `NewBlockExample.dfy`, `MinedBlock.dfy` |
| stake modifier | `StakeModifier.dfy` |
| Merkle branches, block locators, download queue | `Merkle.dfy`, `Locator.dfy`, `DownloadQueue.dfy` |

`Primitives.dfy` holds the shared values. `dafny verify dfyconfig.toml` checks the whole project.

Code that works by changing things step by step is a method or a class; each is proved against a specification
function or predicate, and the theorems are about that specification. Everything the code takes from elsewhere is a
parameter, so the theorems hold for all of it: script and signature checks, hashes, coin age, proof of work, the
clock, the random choices, the answer of a database commit, the authorisation flags of a reorganisation. Money,
heights and times are unbounded integers; the ranges the code checks are checked explicitly. Hashes are abstract, and
a block's or a transaction's hash is its identity. A null disk position is a value of its own (`Null`).

## Main results

* **Batch.** A read inside an open batch answers as the store would after a commit; an abort, and hence a failed
  reorganisation, leaves every committed record unchanged.
* **Connect and disconnect.** For every index and every block `ConnectBlock` accepts, `DisconnectBlock` succeeds and
  gives back exactly the unspent outputs from before, also when the block's transactions spend each other or reuse
  fully spent ids.
* **Money.** In every run from genesis in which no branch repeats a transaction id, an output is marked spent exactly
  when one and only one input on the active chain spends it, and the tip's money supply is the total value of all
  unspent outputs. Every proof-of-work block pays exactly its calculated reward; no block adds more than its subsidy.
* **Acceptance.** `ConnectBlock` accepts exactly the valid blocks, validity being said transaction by transaction,
  without its running sums and order of checks. All coins created by work up to a height are known in closed form.
* **Reorganisation.** `Reorganize` and `SetBestChain` succeed exactly under stated conditions, and a
  block's trust is always the sum over its branch. A successful
  reorganisation forks at the highest common ancestor, never below the rolling checkpoint. In every reachable state
  the committed block records of the active chain say exactly what memory says. With recent blocks taken from the
  maturity walk, no coinbase or coinstake output is spent before it matures, over every run.
* **Coin age selection.** The returned value is the sum of distinct eligible coins and reaches the target, through
  scaling, bundling, pre-picking, traceback and top-up. Without rounding the chosen coins cost least, exactly when no
  worthless coin costs anything; the wallet's own costs are multiples of the value, so that is always so. With
  rounding, items, bundles and pre-picking are determined by the coins and the target; if the pre-picked items do not
  suffice and others are left, the added ones cost least among all choices that reach the rest after scaling.
* **Spending.** Coins with fewer confirmations are touched exactly when stricter rules do not suffice. The fee loop
  ends, because the fee rises and is bounded; it fails exactly when a round fails; inputs equal outputs plus fee, and the
  fee covers the final size.
* **Address manager.** Every operation keeps an invariant stronger than `Check_`, which returns zero exactly on
  consistent tables. Writing and reading back loses nothing.
* **Block assembly.** It ends; the highest ready transaction is popped first, and the block is a function of that
  order: each popped transaction is included exactly if it is admitted in its own round, after every parent it waited for, within the limits; what was
  never popped waits for something left out. A proof-of-work block assembled this way passes the node's own
  `ConnectBlock` at its real place on disk, with the same fees, exactly if its signatures pass and its height is outside
  the switch-over range.
* **Stake modifier.** Every round succeeds and picks a new block; two nodes with the same chain get the same modifier.
* **Groupings, Merkle branches, locators, downloads.** Connected components, exactly; the branch leads to the root,
  and with a collision-free hash no other leaf or branch of the same length does; the locator finds the fork or less than twice as far back; every hash has one place.

## Where the code does not do what one would expect

The model follows the code. Each point has an input at which it shows and its exact condition.

* `CTxDB::Exists` reports a committed key that the open batch erased (`TxDatabase.ExistsDisagrees`); it agrees with
  `Read` exactly when the batch does not erase a committed key last (`TxDatabase.ExistsAgreesWithRead`).
* An id reused on a branch strands older spends (`LedgerSpec.ReusedIdStrands`): after the later block is disconnected,
  an older transaction can be disconnected exactly when it spends none of the reused ids (`LedgerSpec.ReusedIdsStrand`).
* `SetBestChain` reports success and moves the best block even when a postponed reconnect fails, which it can whenever
  there is one (`ChainState.SuccessDespiteFailure`); memory and database agree exactly when every postponed block
  connects (`ChainState.ActiveChain.SetBestChain`).
* The hard cap on the supply never binds proof of work (`Ledger.WorkIgnoresCap`, `Ledger.WorkBeyondCap`,
  `LedgerBlocks.WorkAlwaysCreates`), because the two height tests before it cover all heights
  (`src/core/blockparams.cpp:619-632`). A stake respects it exactly in the first phase, or later while its coin age is
  too small to earn anything (`Ledger.StakeRespectsCap`, `Ledger.StakeBeyondCap`).
* A proof-of-work block assembled by the node is rejected by its own reward check exactly for the switch-over heights
  980950 to 989999 (`MinedBlock.SwitchOverRejects`, `MinedBlock.MinedBlockIsAccepted`).
* `FetchInputs` reads the disk even for the position that stands for "not on disk", so an input that spends a parent in
  the pool is fetched exactly if that output can be read there (`NewBlock.ChildFetch`, `NewBlockExample.ChildExample`).
* From height 980950 on every stake earns 500 coins, so that the rates of 4 and 1 per cent are never paid
  (`Rewards.StakeYear`).
* A trusted peer never authorises a deep reorganisation, which its branch is there for: with the threshold of one, moving
  the tip by more than one block is authorised exactly for a rollback (`ChainDecisions.OnlyRollbackGoesDeep`).
* `SelectTried` returns the place its choice had before the swap, so another entry may be evicted
  (`TriedPick.PickMisses`); the place holds the first entry that succeeded longest ago exactly if that was drawn at its
  own place (`TriedPick.PickIsChosen`).

The coinbase check of `ConnectBlock` faces the wrong way too (`src/core/main.cpp:1823`), but with the balance check it
still forces the exact reward (`LedgerBlocks.CoinbaseIsExact`).

## Model

| member | source | states |
|---|---|---|
| `TxDatabase.UntouchedTx` | src/database/txdb-leveldb.cpp:161-189 | a key no operation of the batch names reads as in the store |
| `TxDatabase.LastTouchDecides` | src/database/txdb-leveldb.cpp:161-189 | only the last operation on a key decides what it reads as |
| `TxDatabase.TxDb.ScanBatch` | src/database/txdb-leveldb.cpp:191-203 | found exactly when some operation names the key; deletion and value are those of the committed batch |
| `TxDatabase.TxDb.ReadTxIndex` | src/database/txdb-leveldb.h:59-98 | a read answers as the store would after the batch is committed |
| `TxDatabase.TxDb.ContainsTx` | src/database/txdb-leveldb.h:144-162 | true for a key that is readable or still committed, even if erased in the batch |
| `TxDatabase.ExistsAgreesWithRead` | src/database/txdb-leveldb.h:144-162 | existence agrees with reading if and only if no committed key is erased last |
| `TxDatabase.ExistsDisagrees` | src/database/txdb-leveldb.h:144-162 | a concrete key that is unreadable yet reported to exist |
| `TxDatabase.TxDb.Submit` | src/database/txdb-leveldb.h:100-142 | a write or erase changes what is read, and the store only when no batch is open |
| `TxDatabase.TxDb.UpdateTxIndex` | src/database/txdb-leveldb.cpp:211-214 | exactly that entry is replaced |
| `TxDatabase.TxDb.EraseTxIndex` | src/database/txdb-leveldb.cpp:224-229 | exactly that entry is removed |
| `TxDatabase.TxDb.WriteBlockIndex` | src/database/txdb-leveldb.cpp:261-264 | exactly that block record is replaced |
| `TxDatabase.TxDb.WriteHashBestChain` | src/database/txdb-leveldb.cpp:271-274 | exactly the best hash is replaced |
| `TxDatabase.TxDb.TxnBegin` | src/database/txdb-leveldb.cpp:141-146 | an empty batch is opened and nothing reads differently |
| `TxDatabase.TxDb.TxnCommit` | src/database/txdb-leveldb.cpp:148-159 | the store becomes what was readable, or stays whole if the write fails; the batch closes either way |
| `TxDatabase.TxDb.TxnAbort` | src/database/txdb-leveldb.h:168-173 | all writes and erases since the beginning are forgotten |
| `LedgerSpec.UnmarkRestores` | src/core/main.cpp:1394-1428 | unmarking what was marked on unspent outputs restores the index |
| `LedgerSpec.DisconnectOne` | src/core/main.cpp:1672-1680 | in reverse order, each disconnected transaction gives back the index before it |
| `LedgerSpec.DisconnectUndoesConnect` | src/core/main.cpp:1394-1428 | disconnecting a connected block succeeds, restores the unspent outputs, and the whole index if no id was reused |
| `LedgerSpec.ReusedIdsStrand` | src/core/main.cpp:1421-1425 | an older spend stays disconnectable if and only if it spends no reused id |
| `LedgerSpec.ReusedIdStrands` | src/core/main.cpp:1421-1425 | a concrete spend of a reused id that can no longer be disconnected |
| `LedgerMoney.ConnectReflects` | src/core/main.cpp:1601-1635 | connecting a transaction keeps: marked spent exactly when one input spends it |
| `LedgerMoney.ConnectConserves` | src/core/main.cpp:1555-1651 | the unspent total changes by the transaction's outputs minus its inputs |
| `Ledger.FetchInputs` | src/core/main.cpp:1431-1519 | succeeds exactly when every input is indexed, readable and in range, and returns each input's entry and transaction |
| `Ledger.CheckInputs` | src/core/main.cpp:1565-1596 | passes exactly when every input is mature, not younger, not a marker and in range; the sum of the inputs |
| `Ledger.SpendInputs` | src/core/main.cpp:1601-1651 | succeeds exactly when all inputs are unspent, distinct and signed, and then marks exactly them |
| `Ledger.ConnectInputs` | src/core/main.cpp:1555-1670 | accepts exactly when all checks of both loops and the fee check hold |
| `Ledger.SumPrevs` | src/core/main.cpp:1536-1548 | the value of a transaction's inputs |
| `Ledger.MayOverwrite` | src/core/main.cpp:1750-1756 | the duplicate-id rule (section "Specification" of BIP 30): an id may be reused exactly when all its outputs are spent |
| `Ledger.WorkIgnoresCap` | src/core/blockparams.cpp:611-641 | above genesis the proof-of-work reward is the same for every supply and exceeds the fees |
| `Ledger.WorkBeyondCap` | src/core/blockparams.cpp:625-640 | 500 new coins with the supply beyond the cap |
| `Ledger.StakeRespectsCap` | src/core/blockparams.cpp:647-676 | with the supply beyond the cap a stake creates nothing if and only if the height is in the first phase or its coin age earns nothing |
| `Ledger.StakeBeyondCap` | src/core/blockparams.cpp:647-676 | a stake beyond the cap that does create coins |
| `Ledger.ConnectSpender` | src/core/main.cpp:1773-1810 | acceptance of a spending transaction, with the running sums |
| `Ledger.ConnectOne` | src/core/main.cpp:1734-1812 | one round of the block loop accepts exactly under the stated conditions and queues exactly its changes |
| `LedgerBlocks.ConnectAll` | src/core/main.cpp:1734-1812 | the loop succeeds exactly when every transaction is accepted in turn; queued changes equal connecting all |
| `LedgerBlocks.WriteQueued` | src/core/main.cpp:1860-1865 | writing the queue entry by entry overlays it on the index |
| `LedgerBlocks.ConnectBlock` | src/core/main.cpp:1699-1884 | accepts exactly the acceptable blocks; on success index, block records, mint and supply are as specified, else nothing readable changed |
| `LedgerBlocks.DisconnectInputs` | src/core/main.cpp:1394-1428 | succeeds exactly when every input's entry is in range; unmarks the inputs and erases the transaction |
| `LedgerBlocks.DisconnectBlock` | src/core/main.cpp:1672-1697 | succeeds exactly when every transaction can be disconnected in reverse, and unlinks the block record below |
| `LedgerBlocks.AcceptedSpends` | src/core/main.cpp:1734-1812 | acceptance implies distinct ids, no overwriting of unspent ids, and spendable inputs at every step |
| `LedgerBlocks.ConnectThenDisconnect` | src/core/main.cpp:1672-1697 | an accepted block can be disconnected, which restores exactly the old unspent outputs |
| `LedgerBlocks.WorkSums` | src/core/main.cpp:1781-1801 | in a proof-of-work block the fees are inputs minus outputs plus coinbase |
| `LedgerBlocks.CoinbaseIsExact` | src/core/main.cpp:1815-1850 | the two checks force the coinbase to equal the calculated reward |
| `LedgerBlocks.SupplyGrowth` | src/core/main.cpp:1846-1855 | no accepted block raises the supply by more than its subsidy; proof of work by exactly that |
| `LedgerBlocks.WorkAlwaysCreates` | src/core/main.cpp:1846-1855 | every accepted proof-of-work block above genesis raises the supply, however large it is |
| `LedgerBlocks.RunSums` | src/core/main.cpp:1779-1801 | the running sums are the block's outputs and inputs |
| `LedgerBlocks.BlockReflects` | src/core/main.cpp:1734-1812 | a connected block keeps the spent marks exact and moves the unspent total by outputs minus inputs |
| `CompactSizes.WriteThenRead` | src/primitives/serialize.h:174-243 | every size up to the limit is read back, with exactly its own bytes consumed |
| `CompactSizes.ReadThenWrite` | src/primitives/serialize.h:206-243 | every encoding that is read is the one that is written |
| `CompactSizes.SizeOfSize` | src/primitives/serialize.h:166-172 | the size of a size is the length of what is written |
| `CompactSizes.PlacesInLine` | src/core/main.cpp:1715-1754 | the transactions of a block lie one after the other behind the header and their number |
| `Acceptance.FormMeans` | src/core/main.cpp:719-772 | a transaction passes CheckTransaction if and only if its parts are well formed, said without running sums |
| `Acceptance.KindsOf` | src/core/main.h:313-322 | exactly what makes a transaction a coinbase or a coinstake, and that none is both |
| `Acceptance.FineConnects` | src/core/main.cpp:1555-1670 | a transaction whose every input may be spent, and that pays out no more than it takes in, connects |
| `Acceptance.ConnectsFine` | src/core/main.cpp:1555-1670 | a transaction that connects has only such inputs: known, unspent, named once, mature, not younger, in range, no marker, signed |
| `Acceptance.RunMeans` | src/core/main.cpp:1725-1812 | the loop accepts if and only if every transaction is fine, ids are free and the operations fit; its sums are the plain sums |
| `Acceptance.AcceptsExactlyValid` | src/core/main.cpp:1699-1850 | ConnectBlock accepts exactly the valid blocks, said transaction by transaction; its overflow checks and the balance check of a stake never decide |
| `Acceptance.NothingOutOfNothing` | src/core/main.cpp:1655-1666 | in an accepted block every ordinary transaction leaves a fee between zero and the maximum, and these are the block's fees |
| `Acceptance.MintIs` | src/core/main.cpp:1853-1855 | the recorded mint is what the coinbase pays or the coinstake creates; the supply grows by it less the fees |
| `Rewards.CreatedInAll` | src/core/blockparams.cpp:611-641 | all coins created by work up to a height, in closed form |
| `Rewards.ExpectedInAll` | src/core/main.cpp:1814-1832 | the same for what ConnectBlock expects, with the switch-over blocks |
| `Rewards.RewardIsSchedule` | src/core/blockparams.cpp:611-641 | fees and supply do not enter: each reward is its step of that sum plus the fees |
| `Rewards.StakeYear` | src/core/blockparams.cpp:646-676 | coins aged a year earn 250 or 19 per cent, up to a thousandth; from height 980950 on 500 coins whatever the age |
| `BlockTree.FindFork` | src/core/main.cpp:1984-1994 | the search always ends at the highest common ancestor |
| `BlockTree.RollingCheckpoints` | src/consensus/velocity.cpp:145-166 | the ancestor at the checkpoint height, or none below height 5000, for every threshold that keeps the walk on the chain |
| `BlockTree.WalkLeavesChain` | src/consensus/velocity.cpp:155-160 | the walk leaves the chain if and only if depth and threshold exceed the height |
| `ChainState.SmallThresholdStays` | src/core/main.h:77-85 | for every threshold up to 4880, hence for the constant 1 of the code, the walk stays on the chain and the conditions of Reorganize, SetBestChain and AddToBlockIndex on it hold |
| `BlockTree.IsRecent` | src/core/main.cpp:1576-1580 | the maturity walk: true exactly when a block at that place is among the last blocks of the branch |
| `BlockTree.PassesCheckpoint` | src/core/main.cpp:1967-1978 | true exactly when the new tip descends from the rolling checkpoint |
| `BlockTree.ListDown` | src/core/main.cpp:2003-2011 | exactly the blocks above the fork, from the tip down |
| `ChainSpec.ReflectsAt` | src/core/main.cpp:1601-1651 | on every sound branch the index marks an output spent exactly when one input of the branch spends it |
| `ChainSpec.SpentExactlyOnce` | src/core/main.cpp:1601-1651 | no double spend on a sound branch |
| `ChainSpec.UnspentStep` | src/core/main.cpp:1853-1855 | block by block the unspent total grows by outputs minus inputs |
| `ChainSpec.DisconnectTip` | src/core/main.cpp:2018-2036 | disconnecting the tip of a sound branch gives exactly the index one block lower |
| `ChainMoves.InMainChain` | src/core/main.h:1059-1062 | the forward link tells membership in the active chain, exactly |
| `ChainMoves.Unlink` | src/core/main.cpp:2074-2078 | clearing the links of disconnected blocks leaves exactly the links up to the fork |
| `ChainMoves.Link` | src/core/main.cpp:2081-2085 | setting the links of connected blocks gives exactly the links up to the new tip |
| `ChainMoves.DisconnectBranch` | src/core/main.cpp:2018-2036 | never fails on a sound branch and arrives at the fork's index and exact block records, with the store untouched |
| `ChainMoves.ConnectTip` | src/core/main.cpp:1846-1855 | an accepted block extends a sound branch and its recorded supply is the unspent total |
| `ChainMoves.RecordsUp` | src/core/main.cpp:1853-1876 | the two records ConnectBlock writes make the records of the longer chain exact |
| `ChainMoves.RecordsDown` | src/core/main.cpp:1682-1690 | the record DisconnectBlock writes makes the records of the shorter chain exact |
| `ChainMoves.ConnectBranch` | src/core/main.cpp:2039-2062 | succeeds exactly when every block connects and passes velocity, and arrives at the new tip's index and exact block records |
| `ChainMoves.ConnectNext` | src/core/main.cpp:2046-2056 | one block of the new branch |
| `ChainState.ForkIsShallow` | src/core/main.cpp:1960-1994 | the fork is not below the shorter tip minus checkpoint depth and threshold |
| `ChainState.MayReorganize` | src/core/main.cpp:1903-1982 | passes exactly with authority for direction and depth and with the checkpoint on the new branch |
| `ChainState.FindIntermediate` | src/core/main.cpp:2152-2163 | the block whose parent does not outweigh the active chain, with all blocks above it, whose parents do |
| `ChainState.IntermediateIsFirst` | src/core/main.cpp:2152-2163 | that block is an ancestor of the new tip, and exactly the blocks above it have a parent that outweighs the active chain |
| `ChainState.BranchLists` | src/core/main.cpp:2003-2013 | the blocks to disconnect, downwards, and to connect, upwards |
| `ChainState.ConnectLast` | src/core/main.cpp:2105-2115 | the single-block path connects exactly acceptable blocks, without the velocity check |
| `ChainState.SupplyIsUnspent` | src/core/main.cpp:1853-1855 | in every reachable state the tip's supply is the total of unspent outputs, each spent at most once |
| `ChainState.RecordsAreMemory` | src/core/main.cpp:1853-1876 | on the active chain every committed block record equals what memory holds of the block |
| `Maturity.WalkFindsRecent` | src/core/main.cpp:1576-1580 | the maturity walk finds exactly the places of the last blocks of the branch |
| `Maturity.PlaceOnBranch` | src/core/main.cpp:1763-1812 | on a sound branch every id points at its own transaction's place |
| `Maturity.AcceptedIsMature` | src/core/main.cpp:1576-1580 | a block accepted with the walk's recent blocks spends no reward less than the maturity below it |
| `Maturity.MaturityIsKept` | src/core/main.cpp:2130-2205 | whenever SetBestChain succeeds and its postponed blocks connect, the active chain still spends no immature reward |
| `Maturity.MaturityGrows` | src/core/main.cpp:2304-2362 | a block joining elsewhere leaves the chain mature |
| `ChainState.Grown` | src/core/main.cpp:2304-2362 | a new leaf keeps the tree well formed and the active chain as it was |
| `ChainState.ActiveChain.constructor` | src/core/main.cpp:2137-2143 | the genesis block, recorded and best, is a valid active chain |
| `ChainState.ActiveChain.MoveTo` | src/core/main.cpp:2018-2085 | the chain ends in the new tip with exact records, or the store is as before and only amounts of tried blocks off the chain changed in memory |
| `ChainState.ActiveChain.Reorganize` | src/core/main.cpp:1885-2100 | succeeds exactly under the stated condition, forks at the highest common ancestor not below the checkpoint, and on failure leaves the store and the active chain's memory unchanged |
| `ChainState.ActiveChain.SetBestChainInner` | src/core/main.cpp:2105-2128 | extends the chain by an acceptable block that commits, else leaves it as it was |
| `ChainState.ActiveChain.ConnectPostponed` | src/core/main.cpp:2178-2196 | the chain ends consistently in the last postponed block that connected |
| `ChainState.ActiveChain.SetBestChain` | src/core/main.cpp:2130-2205 | succeeds under an exact condition; afterwards memory and database agree exactly when all postponed blocks connect |
| `ChainState.SuccessDespiteFailure` | src/core/main.cpp:2177-2207 | whenever a reorganisation succeeds and postpones a block, outside answers exist under which success is reported and that block fails |
| `ChainState.ActiveChain.AddToBlockIndex` | src/core/main.cpp:2304-2375 | a known block is refused; a new one gets its parent's trust plus its own and is recorded first, and if that commit fails or it does not become best, the store is the old one plus at most that record; it is tried as best exactly if it has more trust, so always as a child of the best block with positive trust; the best block never loses trust |
| `ChainState.ActiveChain.Insert` | src/core/main.cpp:2304-2362 | the new block stands one above its parent with both trusts added, and every invariant, additive trust included, is kept |
| `ChainState.TrustGrows` | src/core/main.cpp:2329-2330 | a block's trust stays the sum of the own trusts of its branch |
| `ChainState.CheckAuthority` | src/core/main.cpp:1917-1955 | direction and depth are authorised exactly as specified |
| `ChainDecisions.AuthorityMeans` | src/core/main.cpp:1917-1955 | beyond one block only a rollback, or a trusted peer up to the threshold; otherwise by Demi-node flags, and downwards only with authority |
| `ChainDecisions.OnlyRollbackGoesDeep` | src/core/main.cpp:1934-1947 | with the threshold of one, moving by more than one block is authorised if and only if by a rollback |
| `ChainDecisions.ReorgMeans` | src/core/main.cpp:1885-2100 | Reorganize succeeds if and only if the request is authorised, both tips are past 5000, the new one descends from the checkpoint, and every new block is valid, passes the velocity check and commits |
| `ChainDecisions.BestChainMeans` | src/core/main.cpp:2130-2205 | a child of the best block becomes best if and only if it is valid and commits; any other block through a reorganisation to the one first block of its branch that outweighs the active chain |
| `Knapsack.BestIsGreatest` | src/core/wallet.cpp:1468-1499 | no choice of items that fits beats the matrix entry |
| `Knapsack.DropsFit` | src/core/wallet.cpp:1500-1527 | the traceback never drops more weight than allowed |
| `Knapsack.WeightlessIsKept` | src/core/wallet.cpp:1500-1527 | the traceback never drops an item of weight zero |
| `Knapsack.DropsAreBest` | src/core/wallet.cpp:1500-1527 | if weightless items cost nothing the traceback drops exactly the greatest cost |
| `Knapsack.Fill` | src/core/wallet.cpp:1466-1499 | both matrices hold the optimum and its step for every row and column |
| `CoinLists.SortKeeps` | src/core/wallet.cpp:1325 | sorting by cost keeps the coins and orders them |
| `CoinLists.PartitionSum` | src/core/wallet.cpp:1401 | partitioning at the threshold keeps every sum over the coins |
| `Bundles.CommonDivides` | src/core/wallet.cpp:1364-1374 | the divisor divides the target and every coin |
| `Bundles.SumAndDivisor` | src/core/wallet.cpp:1366-1374 | total and common divisor of the coins and the target |
| `Bundles.Bundle` | src/core/wallet.cpp:1402-1419 | bundles partition the small coins in order, each closed as soon as it is worth the threshold; the rest is worth less; positions after the items are untouched |
| `CoinAgeSelection.Prepick` | src/core/wallet.cpp:1426-1452 | items are taken whole from the front, with their exact sum, exactly as long as the others do not exceed what is left of the target after scaling |
| `SelectByCoinAge.PickFront` | src/core/wallet.cpp:1419-1453 | picks beforehand exactly if all items together do not exceed the target after scaling; what is picked is a front of the list with its exact sum, and afterwards no item is left or those left exceed the rest of the target |
| `CoinAgeSelection.Traceback` | src/core/wallet.cpp:1500-1527 | exactly the coins of the kept items are added, with their exact value and cost |
| `CoinAgeSelection.TopUp` | src/core/wallet.cpp:1528-1537 | leftover coins are added in order, just until the target is met or none is left |
| `CoinAgeSelection.EnoughKept` | src/core/wallet.cpp:1457-1467 | what the traceback keeps covers the remaining target in spite of truncation |
| `CoinAgeSelection.Finish` | src/core/wallet.cpp:1457-1544 | dynamic program, traceback and top-up together reach the target; which coins are added in either case |
| `SelectByCoinAge.NothingLeft` | src/core/wallet.cpp:1423-1467 | the matrix has at least one column whenever it has item rows; else the unbundled coins suffice |
| `SelectByCoinAge.TracebackIsCheapest` | src/core/wallet.cpp:1457-1527 | dropping the greatest cost that fits keeps the least cost that pays |
| `SelectByCoinAge.SolveExact` | src/core/wallet.cpp:1453-1544 | without rounding: reaches the target, at least cost if and only if no worthless coin costs anything |
| `SelectByCoinAge.TableIsSmall` | src/core/wallet.cpp:1375-1380 | without rounding the matrix has fewer than 50 cells beyond its first column |
| `SelectByCoinAge.CostlyZeroIsKept` | src/core/wallet.cpp:1500-1527 | a worthless coin with a cost is kept, so a cheaper choice exists |
| `SelectByCoinAge.CoinAgeIsFreeAtZero` | src/core/wallet.cpp:41-46 | with the wallet's costs no worthless coin costs anything |
| `SelectByCoinAge.SolveApprox` | src/core/wallet.cpp:1397-1544 | with rounding, for the one plan there is: reaches the target with the exact sum of distinct coins; takes the pre-picked items alone if they suffice, else adds a choice of whole items and bundles of least cost among all that reach the rest after scaling, or, if no item is left, single coins until the target is met |
| `SelectByCoinAge.OnlyPlan` | src/core/wallet.cpp:1397-1452 | coins, threshold and target determine items, bundles and where pre-picking stops |
| `SelectByCoinAge.RoundedCost` | src/core/wallet.cpp:1397-1544 | coins and target determine the cost of what the approximation returns |
| `CoinAgeSelection.TracebackReaches` | src/core/wallet.cpp:1457-1527 | what the traceback keeps reaches the rest even after scaling |
| `CoinAgeSelection.TracebackCostsLeast` | src/core/wallet.cpp:1457-1527 | no choice whose kept items reach the rest after scaling costs less than the traceback's |
| `SelectByCoinAge.Classify` | src/core/wallet.cpp:1326-1353 | the lower coins, and the larger coin of least cost |
| `SelectByCoinAge.SelectLower` | src/core/wallet.cpp:1364-1544 | the target is always reached from lower coins that suffice; least cost without rounding, exactly when worthless coins are free; with rounding the choice of the approximation |
| `SelectByCoinAge.SelectCoinsMinConfByCoinAge` | src/core/wallet.cpp:1308-1544 | fails exactly when lower coins fall short and no larger one exists; otherwise distinct eligible coins with their exact sum: the cheapest larger coin if the lower ones fall short; without rounding cheapest if and only if worthless coins are free, which the wallet's costs ensure; with rounding the choice of the approximation, whose cost is determined |
| `SelectBySubset.TrySubset` | src/core/wallet.cpp:1238-1270 | for the given random bits: the least of the last best and of all totals either pass reaches, with its exact subset |
| `SelectBySubset.ApproximateBestSubset` | src/core/wallet.cpp:1228-1272 | the least total any repetition reaches, or all coins, with its exact subset |
| `SelectBySubset.SearchBounds` | src/core/wallet.cpp:1228-1272 | the result is worth no more than any subset the bits of a repetition name that reaches the target, nor than one that does not filled up from the front; so exact once one names an exact subset |
| `SelectBySubset.SortFalling` | src/core/wallet.cpp:1614 | coins by falling value, every sum over them kept |
| `SelectBySubset.Split` | src/core/wallet.cpp:1560-1592 | an exact coin if met, else the lower coins, their total, and the least bigger coin |
| `SelectBySubset.SearchSubset` | src/core/wallet.cpp:1613-1620 | a subset at the target or at least one cent above it, if the coins allow: what the two searches give for the given bits |
| `SelectBySubset.SelectCoinsMinConf` | src/core/wallet.cpp:1546-1645 | fails exactly when lower coins fall short and no bigger one exists; otherwise a coin of exactly the target if there is one; never more than any single bigger coin, and change below one cent only if unavoidable; between the subset sought and the least bigger coin the better |
| `Fees.ScarcityGrows` | src/core/main.cpp:783-788 | the factor for a filling block is at least one and never falls |
| `Fees.MinFeeBounds` | src/core/main.cpp:774-793 | the minimum fee is a valid amount, at least the base fee; a full block is closed |
| `Fees.FullerCostsMore` | src/core/main.cpp:774-793 | a fuller block never asks for less |
| `Fees.ScarcityMeans` | src/core/main.cpp:783-788 | the fee is k-fold exactly when the block is half full and at most a k-th of it is left |
| `Fees.PlainFee` | src/core/main.cpp:774-793 | up to half a block the fee is 10000 for every thousand bytes begun |
| `Spending.LooserSuffices` | src/core/wallet.cpp:1664-1668 | asking for fewer confirmations never turns success into failure |
| `Spending.InsufficientMeans` | src/core/wallet.cpp:1355-1361 | selection fails if and only if all coins that are deep and old enough together fall short |
| `Spending.SelectWith` | src/core/wallet.cpp:1664 | either selector fails exactly on insufficient coins, otherwise pays and keeps its own promise |
| `Spending.SelectCoins` | src/core/wallet.cpp:1647-1669 | hand-picked coins are taken whole; else fails exactly when the loosest rules do; coins with fewer confirmations, and our own unconfirmed ones last, are used exactly when the stricter rules do not suffice |
| `Spending.AmountToSend` | src/core/wallet.cpp:1713-1721 | the sum to send, refused for no payees or a negative running sum |
| `Spending.ChangeAddsUp` | src/core/wallet.cpp:1808-1811 | inserting the change anywhere adds its value |
| `Spending.FeeIsCapped` | src/core/wallet.cpp:1829-1838 | no standard-size transaction needs more than the cap |
| `Spending.RequiredPerKilobyte` | src/core/wallet.cpp:1836-1841 | a standard transaction must pay the configured rate, but at least 10000, for every thousand bytes begun |
| `Spending.Draft` | src/core/wallet.cpp:1755-1830 | a round finds no coins exactly when payees and fee are out of reach; else a draft that balances, each coin once, payees in order with at most one change output, which is signed or cannot be |
| `Spending.CreateTransaction` | src/core/wallet.cpp:1711-1854 | the fee loop ends; it fails exactly when the order is not payable or its last round finds no coins, cannot be signed or is too large, the rounds following the rising fee; else the result balances, is of standard size, and its fee covers that size at both rates |
| `Spending.EnoughSucceeds` | src/core/wallet.cpp:1755-1850 | if what is spendable covers payees and the greatest fee, and every draft can be signed at standard size, no run fails |
| `Groupings.Hits` | src/core/wallet.cpp:2608-2612 | exactly the groups that hold an address of the grouping |
| `Groupings.Absorb` | src/core/wallet.cpp:2615-2621 | the merged group is the union, and exactly the hit groups are dropped |
| `Groupings.MergedIsLinked` | src/core/wallet.cpp:2614-2622 | everything in a merged group is linked through input groupings |
| `Groupings.WalkStaysInside` | src/core/wallet.cpp:2603-2636 | a chain of overlapping groupings never leaves its group |
| `Groupings.MergeOne` | src/core/wallet.cpp:2605-2627 | one round keeps groups disjoint, linked and covering, and the address map free of deleted groups |
| `Groupings.MergeGroupings` | src/core/wallet.cpp:2603-2636 | disjoint groups; two addresses share one if and only if overlapping groupings link them |
| `AddrMan.Manager.constructor` | src/node/addrman.h:395-403 | the empty manager satisfies the invariant |
| `AddrMan.Manager.Find` | src/node/addrman.cpp:90-101 | finds the entry of an address exactly if there is one |
| `AddrMan.Manager.Create` | src/node/addrman.cpp:103-113 | a fresh id with consistent back references |
| `AddrMan.Manager.SwapRandom` | src/node/addrman.cpp:115-133 | two places swapped, both inverse relations kept |
| `AddrMan.Manager.SelectTried` | src/node/addrman.cpp:164-186 | bucket and returned place are those of the inspection of its first eight entries for the given draws |
| `TriedPick.InspectFinds` | src/node/addrman.cpp:172-183 | the chosen entry is the first of the inspected ones that succeeded longest ago |
| `TriedPick.InspectPermutes` | src/node/addrman.cpp:174-177 | the bucket is permuted |
| `TriedPick.PickIsChosen` | src/node/addrman.cpp:174-185 | the returned place holds the first entry that succeeded longest ago, in the order the draws give, if and only if it was drawn at its own place |
| `TriedPick.PickMisses` | src/node/addrman.cpp:174-185 | two entries and draws for which the returned place holds the wrong one |
| `AddrMan.Manager.Release` | src/node/addrman.cpp:200-208 | one reference less; the entry goes with the last |
| `AddrMan.Manager.ShrinkNew` | src/node/addrman.cpp:188-240 | exactly one id leaves the bucket: the first terrible one, else the first oldest of the four drawn |
| `AddrMan.OneIsDropped` | src/node/addrman.cpp:188-240 | bucket, time and draws determine which entry goes, and how |
| `AddrMan.DroppedFor` | src/node/addrman.cpp:188-240 | an entry tried in the last minute is never dropped as terrible, and one that is not terrible only if none is |
| `AddrMan.TerribleMeans` | src/node/addrman.cpp:48-66 | exactly the reasons for which an entry counts as terrible |
| `AddrMan.FreshIsNotTerrible` | src/node/addrman.cpp:48-66 | an entry that was just tried or just succeeded is not terrible for a minute |
| `AddrMan.OldestOfFour` | src/node/addrman.cpp:213-227 | the oldest of the entries at the places drawn, the first of several |
| `AddrMan.Manager.MakeTried` | src/node/addrman.cpp:242-298 | the entry leaves all new buckets for its own tried bucket; if that is full exactly the entry at SelectTried's place goes back, to its new bucket or, if full, to the origin; nothing else changes |
| `AddrMan.Manager.Good` | src/node/addrman.cpp:300-347 | the entry's new fields; a new entry moves from the first bucket of the round to its tried bucket, with exactly the tables and the eviction MakeTried states; of the others only an evicted one changes; nothing for an unknown address; the times for a nonzero time |
| `AddrMan.Manager.FindBucket` | src/node/addrman.cpp:325-341 | the search always finds the first bucket of the round that holds the id |
| `AddrMan.Manager.Refresh` | src/node/addrman.cpp:363-389 | services and time of a repeated address, and exactly when it may gain a reference |
| `AddrMan.TimeMovesOn` | src/node/addrman.cpp:363-371 | a time never goes back, and moves exactly by more than an hour or a day |
| `AddrMan.GainChance` | src/node/addrman.cpp:373-389 | with n references a further one is gained for one in 2^n draws, and none beyond eight |
| `AddrMan.Manager.Enter` | src/node/addrman.cpp:390-401 | a fresh entry with penalised time and its first reference |
| `AddrMan.Manager.EnteredMeans` | src/node/addrman.cpp:390-401 | every field of a new entry as it stands after Add |
| `AddrMan.Manager.Place` | src/node/addrman.cpp:399-405 | the id enters its bucket; exactly if that was full, the entry ShrinkNew chooses is released |
| `AddrMan.Manager.Add` | src/node/addrman.cpp:349-407 | new exactly if routable and unknown; a new entry enters its bucket, a known one is refreshed and enters it exactly if it gains a reference; exactly if the bucket was full, the entry ShrinkNew chooses makes room; nothing else changes |
| `AddrMan.OthersKept` | src/node/addrman.cpp:397-405 | every entry but the one that makes room keeps all its fields |
| `AddrMan.Manager.Attempt` | src/node/addrman.cpp:409-426 | only that entry's attempt fields change |
| `AddrMan.Manager.Connected` | src/node/addrman.cpp:546-564 | only that entry's time changes, after twenty minutes |
| `AddrMan.Manager.GetAddr` | src/node/addrman.cpp:530-544 | pairwise different known addresses, 23 per cent of all rounded down but at most 2500, order of vRandom permuted |
| `AddrTables.SwapKeeps` | src/node/addrman.cpp:115-133 | the swap keeps vRandom and positions inverse |
| `AddrTables.LeaveBucket` | src/node/addrman.cpp:200-208 | reference counts stay the number of buckets |
| `AddrTables.Evict` | src/node/addrman.cpp:268-297 | replacing a tried entry keeps both tables |
| `AddrCheck.CheckEntry` | src/node/addrman.cpp:478-496 | zero exactly for an entry with sound counts, references and times |
| `AddrCheck.CheckTried` | src/node/addrman.cpp:501-509 | passes exactly when the buckets list known tried ids, each once |
| `AddrCheck.CheckNew` | src/node/addrman.cpp:511-523 | nothing is left exactly when every reference count is the number of buckets |
| `AddrCheck.Check` | src/node/addrman.cpp:471-527 | Check_ returns zero if and only if the tables are consistent |
| `AddrCheck.ValidIsConsistent` | src/node/addrman.cpp:471-527 | the invariant kept by all operations implies that Check_ returns zero |
| `AddrSave.SaveNews` | src/node/addrman.h:297-309 | the new entries are written once each and numbered in that order |
| `AddrSave.SaveTrieds` | src/node/addrman.h:310-320 | the tried entries are written once each |
| `AddrSave.SaveTable` | src/node/addrman.h:321-331 | each bucket is written by the numbers of its entries |
| `AddrSave.WritesWell` | src/node/addrman.h:292-331 | a consistent manager writes a file that meets everything the reader relies on |
| `AddrSave.Save` | src/node/addrman.h:292-331 | the file describes exactly the manager's entries and buckets |
| `AddrSave.Load` | src/node/addrman.h:332-389 | every table is rebuilt consistently and nothing is lost |
| `AddrSave.SameAgain` | src/node/addrman.h:283-392 | what was read back is the original up to renumbering |
| `AddrSave.SaveAndLoad` | src/node/addrman.h:283-392 | the round trip loses no entry and keeps entries, buckets and the invariant |
| `Scheduler.Wake` | src/consensus/miner.cpp:361-377 | every orphan stops waiting for the included id, and exactly those that waited for nothing else join the queue, once |
| `Scheduler.Enlist` | src/consensus/miner.cpp:235-243 | a new orphan is registered under every id it waits for |
| `Miner.Limits` | src/consensus/miner.cpp:165-179 | the configured sizes within their bounds |
| `Miner.ScanInputs` | src/consensus/miner.cpp:211-262 | drops exactly transactions with a missing input, leaving no trace; else the awaited parents, priority and fee rate |
| `Miner.ScanPool` | src/consensus/miner.cpp:198-271 | every wanted transaction is queued or waits, none twice |
| `Miner.TryAdd` | src/consensus/miner.cpp:293-353 | one round: appended exactly if admitted, and when the queue turns to fee order; index, size, sigops and fees stay the sums over the block |
| `Miner.StepIncluded` | src/consensus/miner.cpp:345-377 | including a transaction keeps the schedule |
| `Miner.StepPopped` | src/consensus/miner.cpp:286-291 | popping a transaction keeps the schedule |
| `Miner.CollectTransactions` | src/consensus/miner.cpp:273-378 | ends; the block is the replay of the order of popping, each transaction popped once, with no parent outstanding, and outranked by none that was ready, by priority or by fee; what was never popped waits for something left out |
| `Scheduler.Top` | src/consensus/miner.cpp:83-103 | the top of the queue comes after no other entry |
| `Miner.TopIsHighest` | src/consensus/miner.cpp:283-291 | whatever is ready is queued, so the popped transaction is outranked by nothing ready |
| `Miner.IncludedIffAdmitted` | src/consensus/miner.cpp:293-349 | a popped transaction is in the block if and only if it was admitted in its own round, at the end of what was there, under the flag then in force |
| `Miner.ReplayIsWellOrdered` | src/consensus/miner.cpp:273-378 | for every order: no transaction twice, each admitted, each after all parents it waited for |
| `NewBlock.EveryAdditionFits` | src/consensus/miner.cpp:293-301 | accounted size and sigops stay below their limits after every addition |
| `NewBlock.AdmittedMeans` | src/consensus/miner.cpp:293-348 | a well-formed transaction is admitted if and only if it fits, its time has come, it pays its way, its inputs may be spent and its fee suffices |
| `NewBlock.ByFeeMeans` | src/consensus/miner.cpp:275-321 | the queue turns to fees exactly in the first round in which the room for priority is used up or the priority falls below 57.6 million |
| `NewBlock.FeesAddUp` | src/consensus/miner.cpp:307-334 | the fees are at least the base fee per included transaction |
| `NewBlock.NoDoubleSpend` | src/consensus/miner.cpp:343-346 | no output is spent by two transactions of the block |
| `NewBlock.ChildrenAreLeftOut` | src/core/main.cpp:1474-1492 | every included transaction that had to wait reads all awaited outputs at the placeholder; with nothing there, none is included |
| `NewBlock.ChildFetch` | src/core/main.cpp:1474-1492 | an input that spends an included transaction is fetched if and only if the parent has the output and it can be read at the placeholder |
| `NewBlock.FetchableAfter` | src/core/main.cpp:1448-1517 | all inputs can be fetched if and only if those of included parents are read at the placeholder and the others on the chain |
| `NewBlockExample.ChildExample` | src/core/main.cpp:1474-1492 | a pool with a parent and its child: the child is assembled exactly if the placeholder can be read |
| `NewBlock.CreateNewBlock` | src/consensus/miner.cpp:106-392 | the replay of the pop order, its fee sum, and the coinbase value |
| `MinedBlock.LoopAccepts` | src/core/main.cpp:1734-1812 | ConnectBlock's loop accepts the transactions of an assembled block at their places on disk if and only if their signatures pass, and finds the same fees |
| `MinedBlock.MinedBlockIsAccepted` | src/core/main.cpp:1815-1850 | an assembled proof-of-work block is accepted if and only if it passes CheckBlock, its signatures pass and its height is outside the switch-over range |
| `MinedBlock.SwitchOverRejects` | src/core/main.cpp:1815-1824 | at height 985000 the check asks for ten times the subsidy |
| `StakeModifier.SectionsGrow` | src/consensus/kernel.cpp:39-43 | sections never shrink, from a third of the interval to the whole |
| `StakeModifier.SectionEnds` | src/consensus/kernel.cpp:37-41 | the first section is 200 seconds, the last 600 |
| `StakeModifier.SelectionInterval` | src/consensus/kernel.cpp:46-52 | the sum of the 64 sections |
| `StakeModifier.SectionsEndOnTime` | src/consensus/kernel.cpp:132-133 | the 64 sections end exactly where the ten minutes of the previous block begin |
| `StakeModifier.SelectBlock` | src/consensus/kernel.cpp:57-96 | the unpicked candidate of least selection hash in time, or the earliest one; succeeds exactly if one is left |
| `StakeModifier.PickIsUnique` | src/consensus/kernel.cpp:57-96 | a round's pick is determined |
| `StakeModifier.StakeBeatsWork` | src/consensus/kernel.cpp:77-81 | a stake candidate beats a work candidate exactly unless its hash is at least 2^32 times the other |
| `StakeModifier.StakeIsFavoured` | src/consensus/kernel.cpp:77-92 | while a stake candidate is in time, a work candidate is picked only with 32 leading zero bits |
| `StakeModifier.LastModifier` | src/consensus/kernel.cpp:25-36 | the last block that made a modifier, if any |
| `StakeModifier.Candidates` | src/consensus/kernel.cpp:129-143 | the blocks back to the first before the interval, sorted by time and hash |
| `StakeModifier.PicksAreDistinct` | src/consensus/kernel.cpp:148-160 | no block is picked twice |
| `StakeModifier.OrBitSets` | src/consensus/kernel.cpp:156-157 | setting bit r changes that bit and no other |
| `StakeModifier.SelectRounds` | src/consensus/kernel.cpp:145-160 | every round succeeds; bit r is the r-th pick's entropy bit |
| `StakeModifier.ComputeNextStakeModifier` | src/consensus/kernel.cpp:109-190 | fails only if no block ever made a modifier; kept within an interval, otherwise made of min(64, candidates) picks |
| `StakeModifier.NextModifierIsDetermined` | src/consensus/kernel.cpp:109-190 | nodes that agree on the chain agree on the modifier |
| `Merkle.AppendLevel` | src/core/main.h:746-751 | one level of the flat tree, a last odd node paired with itself |
| `Merkle.BuildMerkleTree` | src/core/main.h:738-755 | the flat tree and its root |
| `Merkle.GetMerkleBranch` | src/core/main.h:757-771 | the siblings on the way up |
| `Merkle.CheckMerkleBranch` | src/core/main.h:773-786 | the fold of a branch |
| `Merkle.BranchLeadsToRoot` | src/core/main.h:738-786 | for every index the branch folds to the root, odd levels included |
| `Merkle.OnlyBranchLeadsToRoot` | src/core/main.h:773-786 | with a collision-free hash no other leaf or branch of the same length folds to it |
| `Locator.SetLocator` | src/core/main.h:1298-1313 | ancestors at single, then doubling distances, then genesis |
| `Locator.GetBlockIndex` | src/core/main.h:1336-1350 | the first listed block on the active chain, else genesis |
| `Locator.LocatorFindsFork` | src/core/main.h:1336-1350 | an ancestor of both tips: the fork itself within 11 blocks, else less than twice as far back |
| `Locator.LocatorIsShort` | src/core/main.h:1298-1313 | the list is logarithmic in the height |
| `DownloadQueue.OnePlace` | src/core/main.cpp:228-301 | a hash is with one peer, on one list, at one position |
| `DownloadQueue.CutRemovesHash` | src/core/main.cpp:252-263 | erasing the list node an entry names removes that hash and nothing else |
| `DownloadQueue.Downloads.constructor` | src/core/main.cpp:199-206 | no peers: consistent |
| `DownloadQueue.Downloads.InitializeNode` | src/core/main.cpp:228-232 | a new peer has empty lists; a known one keeps its own |
| `DownloadQueue.Downloads.FinalizeNode` | src/core/main.cpp:234-246 | the peer and exactly its entries go |
| `DownloadQueue.Downloads.MarkBlockAsReceived` | src/core/main.cpp:249-268 | the hash leaves whichever list it is on; all else stays |
| `DownloadQueue.Downloads.AddBlockToQueue` | src/core/main.cpp:271-285 | queued exactly if the peer is known and the hash has no place |
| `DownloadQueue.Downloads.MarkBlockAsInFlight` | src/core/main.cpp:288-301 | the hash moves to the end of the peer's blocks in flight |
| `DownloadQueue.Downloads.RequestBlocks` | src/core/main.cpp:4474-4483 | asks for exactly the front of the queue up to 128 in flight, and ends |

## Left out

- Script evaluation, signatures, proof of work, block signatures, P2SH operation counts and coin age of a stake: arbitrary functions of the environment.
- Block files and LevelDB: a map from positions to transactions and a map with a batch; I/O errors other than a failed commit are not modelled.
- TxDatabase.TxDb.Submit: a failing direct write outside a batch is not modelled, because the chain code always writes in a batch.
- Ledger.FetchInputs: models the calls for a block (`fBlock` true, `fInFlight` false), which are those of ConnectBlock and of the miner; the memory pool's calls mark nothing in the index.
- Ledger.CheckInputs: takes the recent blocks as a set of disk places; the walk that finds them is BlockTree.IsRecent, and Maturity.WalkFindsRecent ties the two together.
- Velocity constraints are a given predicate on blocks.
- Memory pool resurrection and removal, wallet notification, misbehaviour scores and logging around reorganisation.
- `bIndex_Factor`: after the fork search both arguments are the same block, so it is a flag.
- The dynamic block size: `MAX_BLOCK_SIZE` has its initial value and the sigops limit is a parameter.
- 64-bit overflow of money sums and of coin-age costs stored as signed: amounts are unbounded, with the code's own range checks written out.
- ChainState.ActiveChain.AddToBlockIndex: takes blocks that are on disk and repeat no id of their branch, because reused ids strand older spends (LedgerSpec.ReusedIdsStrand).
- SelectByCoinAge.SelectCoinsMinConfByCoinAge: for target zero there is a lower coin; without one the code reads the first element of an empty vector.
- Spending.SelectWith: inherits that condition for a target of zero, for selection by coin age only.
- Spending.SelectCoins: the same condition, for its first attempt.
- Spending.Draft: the same condition, for value and fee both zero.
- Spending.CreateTransaction: the same condition, for value and fee both zero.
- The random shuffle before coin selection: results hold for the coins in any order.
- Miner.ScanPool: takes pools in which a transaction with a missing input has no earlier input from the pool; otherwise the code keeps referring to a removed list element.
- Miner.ScanInputs: likewise, and outputs of pool parents are in range, because the code indexes them unchecked.
- Miner.CollectTransactions: leaves open which of several equal entries the heap gives; priorities are exact fractions, not doubles.
- NewBlock.CreateNewBlock: key reservation and the block header.
- NewBlock.NoDoubleSpend: for pool ids that are not on the chain already; the assembly does not look at the duplicate-id rule.
- MinedBlock.MinedBlockIsAccepted: for blocks in which no transaction spends another, as it is whenever nothing can be read at the placeholder (MinedBlock.NoChildrenUnreadable), and no id reused.
- MinedBlock.LoopAccepts: the same blocks.
- The reorganisation threshold is a parameter; the code that uses it has its own copy of a constant, 1 (`src/core/main.h:77-85`).
- AddrSave.Load: for files a consistent manager wrote with the same bucket count; re-bucketing after a changed count is not modelled.
- `Select_`, `GetChance` of the address manager: floating-point chances, no state.
- DownloadQueue.Downloads.RequestBlocks: the clock is read once per call; splitting the request into messages of 1000 is not modelled.
- Building the groupings from wallet transactions (`src/core/wallet.cpp:2556-2601`): easy members.
- Difficulty retargeting, message dispatch, Demi-node lists, fractal and asset code, user interface.
