# Chain state of an Ethereum proof-of-work node, in Dafny

The project models the part of the node that decides and records which chain is canonical, the
helpers that live off that decision, and the money flow of a block. Every claim is a contract or a
lemma over all inputs, all runs or all interleavings.

| file | what it holds |
|---|---|
| `BlockTree.dfy` | the block store as a tree: ancestors, the canonical path map, total difficulties, the transaction index of a chain |
| `ForkChoice.dfy`, `Ledger.dfy` | the fork choice, and the value-level ledger that block writes refine |
| `BlockChain.dfy` | head writes, reorganisation, known-block and side-chain imports, as a class |
| `HeaderChain.dfy` | header batches, their reorganisation, and ancestor lookup, as a class |
| `StateSearch.dfy` | the search for a head block whose state is available |
| `RewindSteps.dfy`, `RewindCourse.dfy`, `Rewind.dfy` | rewinding the chain to a height or a time, with the ancient store: the data, the way the markers take, and the class that does it |
| `TrieGc.dfy` | the queue of state roots and the references it owns, as a class |
| `ChainIndexer.dfy`, `IndexerHistory.dfy`, `RollbackRace.dfy` | the section indexer as a step system and as the class that takes the steps; what stands behind its sections after every run; two overlapping rollbacks |
| `CaseList.dfy`, `Feed.dfy`, `FeedProtocol.dfy` | the event feed: its case list, `Send` on an array, and the concurrent protocol |
| `Balances.dfy`, `GasPool.dfy`, `StateTransition.dfy`, `StateProcessor.dfy` | fees, gas and balances of messages and blocks |
| `HashCache.dfy` | the closure that answers block-hash queries during execution |
| `PathText.dfy`, `Numerals.dfy`, `DerivationPath.dfy` | the text form of wallet derivation paths: white space and slashes, numbers in any base, and the paths |

Source code that updates fields became classes with `modifies` clauses, loops became methods with
invariants, pure code became functions. Methods are proved against functions of the store
(`PathMap`, `Index`, `TotalDifficulty`, `AncestorAt`, the step functions of the two protocols).

Inputs from outside the model are parameters: the fork choice's coin and preserve function, the
outcome of a state commit or of a re-execution of ancestors, the virtual machine (any function that
does not create gas), the set of states present, the order in which the scheduler takes steps, and
which channel a blocking select returns.

## What holds only under a condition

- **Indexed sections during a reorganisation.** `Sections` verifies only the last stored head.
  While a reorganisation is rewriting the canonical map a lower stored head can be non-canonical;
  `SectionsDuringReorg` is a run of the worker from its initial state that gets there. All stored
  heads are canonical if and only if the map is linked from section end to section end when
  `Sections` reads it last (`SectionsExact`); a path map always is.
- **Rollback without the lock.** A failed backend reset rolls all sections back without holding the
  lock, while a reorganisation may roll back to some `target` under it. Statement by statement, with
  the 64-bit count wrapping around, every schedule that finishes leaves counts and heads consistent
  if and only if no more than `target` sections are stored, or one is stored and `target` is zero
  (`OverlapExact`). For all other inputs `LookTooEarly` or `SkipTop` gives a schedule that does not;
  in the second the lower target is even written last. One after the other, in either order, the two
  always end well (`SerialConsistent`). A later verification against a map with an entry at every
  section end leaves a head recorded for every section counted, whatever the schedule was, if and only
  if no more than `target` sections were stored or `target` is at most one (`RepairExact`,
  `LeaveHole`).
- **References of state roots.** A root that is not in memory is queued but not referenced. The
  references equal the queue in every state of a run if and only if every root was in memory when it
  was written (`RunBalancedExactly`); they never exceed it, and shutdown always releases all.
- **Entries left above the head.** A rewind may start with data of any kind above the head header.
  If the header is within the target already, nothing is done and everything stays
  (`RewindToHere`). After at least one round no canonical entry is left above the head if and only if
  none lay at or above the height up to which the first round sweeps, and no gap shows: parent links
  break off above height zero, every header down to there is beyond the target in force, and the map
  has an entry below (`LeftAbove`, in `Rewind.Chain.SetHead`; `RewindAcrossGap` is such a rewind). The
  sweep ends at the first height above the old head that the key-value store lists nothing for, or
  at the end of the ancient store if that is higher.
- **Rewinding again after a rewind was cut short.** Markers reach the disk first and most deletions
  last, but frozen heights are cut at once. A later rewind of at least one round makes the chain valid
  again if and only if the first had not yet come down into the ancient store or nothing lay above
  that store (`Rewind.Chain.SetHeadAgain`). Otherwise the second sweep stops at the heights already
  cut and what lies above them stays (`RecoveryFails`).
- **Searching for a root past a missing body.** The search dereferences a missing block if and only
  if, before any block with the requested root and before any cut at the pivot, it comes to a block
  above height zero that has state and whose parent's body is missing (`StateSearch.FindStateful`;
  `FallWitness` is such an input).
- **Searching for a root twice.** The callback searches again when the header comes down to the head
  block. Until then the result of the first search stays (`FirstPickStays`). If every block with the
  requested root lies above that result, the second search gives it up for genesis, whatever its
  state, while the root number reported stays (`RestartGivesUp`).
- **A head block below the ancient store.** A rewind whose head block ends below the ancient store takes
  the header down with it, unless the head block is below the pivot or, with a timestamp, not earlier
  than that (`Rewind.Chain.SetHead`). The target is lowered if and only if some head block on the way
  lay below it and below the ancient store, but not below the pivot (`Rewind.ForcedStep`).
- **Ties between heads.** Between a head and a candidate as heavy and as high, the coin decides if and
  only if neither is preserved; a preserved head stays and a preserved candidate wins over one that is
  not (`ForkChoice.TieBroken`). From the terminal difficulty on every candidate wins.
- **Derivation paths.** The empty path prints as `m`, which the parser refuses. The round trip holds
  if and only if the path is not empty (`DerivationPath.RoundTrip`).
- **Fee split.** Splitting a fee into 125 and 875 thousandths loses a wei unless the fee divides by
  eight (`SplitLosesDust`); a message loses at most two (`BurnedBounds`).
- **Refused messages.** A message refused after it bought gas keeps what it bought
  (`StateTransition.StateTransition.TransitionDb`); its block is then invalid.
- **Intrinsic gas.** The cost of the data is checked against 64 bits, the cost of the access list is
  added without a check and wraps (`StateTransition.IntrinsicGas`).
- **Ancestor lookup of the zero hash.** Above the head the zero hash compares equal to a missing
  canonical entry, so a canonical ancestor is returned for it (`HeaderChain.HeaderChain.GetAncestor`).

Where comments and code differ the model follows the code. The comment on `InsertHeaderChain` promises
that an error means no header was written; the code can fail after writing, but only if a stored
header lacks its total difficulty or its parent, and `WriteHeadersAndSetHead` proves that on a valid
chain every error leaves the headers untouched.

## Model

| member | source | states |
|---|---|---|
| `BlockTree.AncestorOfAncestor` | core/headerchain.go:401-433 | an ancestor of an ancestor is the ancestor at the lower height, in every closed store |
| `BlockTree.DescendsFromGenesis` | core/blockchain.go:2110-2132 | the ancestor of every stored block at height zero is genesis, which is why two walks down always meet |
| `BlockTree.PathMapStable` | core/blockchain.go:1306-1318 | storing further blocks never changes the path of a stored block |
| `BlockTree.InsertKeepsWellFormed` | core/blockchain.go:1335-1360 | a block on a stored parent keeps the store a tree of numbered parent links rooted at genesis |
| `BlockTree.InsertKeepsTotals` | core/blockchain.go:1335-1345 | adding own difficulty to the parent's recorded total keeps every recorded total equal to the sum along the path |
| `BlockTree.IndexExact` | core/blockchain.go:2169-2192 | if no transaction repeats in the chain, the index maps a transaction to a height exactly when the chain includes it there |
| `BlockTree.IndexIdempotent` | core/blockchain.go:888-909 | indexing the head block once more changes nothing |
| `BlockTree.EntriesAbove` | core/blockchain.go:2183-2189 | reading upwards collects exactly the unbroken run of entries above a height |
| `ForkChoice.ReplacementNoWorse` | core/forkchoice.go:77-113 | up to the terminal difficulty a head is replaced only by one no worse by difficulty, then height, and a strictly better one always wins, for every coin and preserve function; from there on every candidate wins |
| `ForkChoice.TieBroken` | core/forkchoice.go:98-111 | between equals a preserved head stays for every coin, a preserved candidate replaces an unpreserved head for every coin, and the coin decides exactly if neither is preserved |
| `ForkChoice.DecidedWithoutCoin` | core/forkchoice.go:77-113 | every other pair is decided alike for every coin and preserve function, and is undecided exactly if a total is missing |
| `ForkChoice.ReturnOnlyByCoin` | core/forkchoice.go:77-113 | over any sequence of replacements a head is taken again only among equally heavy, equally high heads none of which is preserved, and every one of those replacements was a coin toss |
| `Ledger.StoreSound` | core/blockchain.go:1335-1360 | storing a block keeps the tree and all totals, and changes nothing without a recorded parent total |
| `Ledger.StoreAgain` | core/blockchain.go:1891-1936 | storing a stored block again changes nothing, its accumulated total included |
| `Ledger.InsertSound` | core/blockchain.go:1429-1452 | one block write keeps the ledger sound; the head stays without a parent or without state, becomes the block if that is heavier or past the terminal difficulty, and before that difficulty never gets worse |
| `BlockChain.HashDifference` | core/types/transaction.go:449-464 | the result holds exactly the hashes of the first list that the second lacks |
| `BlockChain.IndexWithoutBranch` | core/blockchain.go:2169-2180 | the index of an abandoned head minus the transactions above an ancestor is the ancestor's index |
| `BlockChain.Descend` | core/blockchain.go:2088-2101 | the walk on the longer side reaches the other side's height, having passed exactly the blocks and transactions above it |
| `BlockChain.CommonAncestor` | core/blockchain.go:2081-2132 | both walks end at one common ancestor with the blocks of each side above it and all abandoned transactions; no error in a well-formed store |
| `BlockChain.Meet` | core/blockchain.go:2110-2132 | stepping back on both sides in lockstep ends at a common block |
| `BlockChain.BlockChain.constructor` | core/blockchain.go:815-843 | a chain reset to genesis satisfies the invariant and is indexed |
| `BlockChain.BlockChain.WriteHeadBlock` | core/blockchain.go:888-909 | one head write: the map entry, the lookup entries and all three head markers |
| `BlockChain.BlockChain.WriteNewChain` | core/blockchain.go:2159-2167 | after the new branch is written the map below its top is the new path and the index is the new one plus leftovers; the recorded head writes go up the branch one height at a time, the map below the head being that head's path after each |
| `BlockChain.BlockChain.DropStale` | core/blockchain.go:2169-2192 | the final batch leaves exactly the new path and exactly its transaction index |
| `BlockChain.BlockChain.Reorg` | core/blockchain.go:2072-2192 | the map becomes the path of the new head or of its parent, the index that chain's index; exactly one head write is recorded for each height between the fork point and the new head, and after each the map below the head is its path |
| `BlockChain.BlockChain.AdoptHead` | core/blockchain.go:1443-1450 | adopting any stored block makes the map its path with nothing above, and keeps the index exact |
| `BlockChain.BlockChain.WriteKnownBlock` | core/blockchain.go:1322-1331 | the same for a block that was already stored |
| `BlockChain.BlockChain.SetCanonical` | core/blockchain.go:2252-2272 | a block chosen by the consensus layer becomes the head, or nothing changes if its state cannot be recovered |
| `BlockChain.BlockChain.PutBlock` | core/blockchain.go:1306-1318 | block and total are stored together; path, index and invariant are unaffected |
| `BlockChain.BlockChain.WriteBlockWithState` | core/blockchain.go:1335-1360 | refines the ledger's store, and which of the two errors is returned when |
| `BlockChain.BlockChain.WriteBlockAndSetHead` | core/blockchain.go:1429-1452 | refines the ledger's insert; the status is canonical exactly when the fork choice prefers the block, and then it is the head; map and index stay exact |
| `BlockChain.LastSideExact` | core/blockchain.go:1883-1935 | the block the fork choice is asked about: all blocks of the batch behind it are canonical, and it is canonical only if all are |
| `BlockChain.BlockChain.SideBlock` | core/blockchain.go:1891-1936 | the accumulated total is the block's true total; when a shadow state, an interruption or a known block is reported |
| `BlockChain.BlockChain.SideStep` | core/blockchain.go:1891-1936 | one more block of the batch is stored with its true total, or nothing is |
| `BlockChain.BlockChain.StoreSideBlocks` | core/blockchain.go:1880-1936 | exactly a prefix of the batch is stored with true totals, none of it with the state root of another canonical block at its height; all of it unless stopped or such a block is met |
| `BlockChain.BlockChain.InsertSideChain` | core/blockchain.go:1880-1945 | the fork choice is asked about the last block of the batch that was not canonical before; head, map and index are untouched |
| `BlockChain.WritesNeverWorsen` | core/blockchain.go:1429-1452 | over every run of block writes, refused ones included, the head never gets worse |
| `BlockChain.ServeOne` | core/blockchain.go:1322-1452 | the ledger becomes what the request makes of it and the map stays the path of the head |
| `BlockChain.Serve` | core/blockchain.go:1322-1452 | after every run of writes, known-block writes and canonical requests the ledger is the fold of the requests, the map is the path of the head, a lookup entry exists exactly for the transactions of that path, and writes alone never worsened the head |
| `HeaderChain.Collect` | core/headerchain.go:208-245 | the pending batch is exactly the unknown tail, with true totals; a header is known exactly if it was stored |
| `HeaderChain.CrossLink` | core/headerchain.go:157-175 | the map patched along the walk is the path of the first header at every height below it; the walk always finds its cross link |
| `HeaderChain.CollectEntries` | core/headerchain.go:178-188 | parent fields give the hash of every header of the batch but the last, which is hashed |
| `HeaderChain.HeaderChain.constructor` | core/headerchain.go:79-108 | a header chain at genesis satisfies the invariant |
| `HeaderChain.HeaderChain.WriteHeaders` | core/headerchain.go:204-256 | on success exactly the batch is joined, otherwise nothing is written; totals stay true and the count is that of the unknown tail |
| `HeaderChain.HeaderChain.Reorg` | core/headerchain.go:134-198 | the map becomes the ancestor path of the last header, with nothing above it |
| `HeaderChain.HeaderChain.ChooseHead` | core/headerchain.go:281-300 | a stored batch becomes canonical exactly when the fork choice prefers its last header and that header is not canonical yet, and counts as a side chain exactly when it is not preferred and brought new headers |
| `HeaderChain.HeaderChain.WriteHeadersAndSetHead` | core/headerchain.go:265-301 | the batch is stored, becomes canonical exactly when wanted, and a side chain exactly when new and not preferred; every error leaves the headers untouched; the head never gets worse |
| `HeaderChain.JumpIsAncestor` | core/headerchain.go:401-433 | once the walk is on the canonical chain, the map entry is the requested ancestor |
| `HeaderChain.HeaderChain.GetAncestor` | core/headerchain.go:401-433 | the requested ancestor if the steps off the canonical chain fit the budget, else nothing; the budget left is exact |
| `StateSearch.FindStateful` | core/blockchain.go:627-682 | the search returns the picked block and, without a pivot, the highest height with the requested root or else the number it had; it falls off the chain exactly if it meets a block with state and a missing parent before the root and before any cut |
| `StateSearch.FallWitness` | core/blockchain.go:679-680 | an input for which it falls |
| `StateSearch.PickedIsHighest` | core/blockchain.go:641-682 | without root and pivot the pick is the highest block with state in the chain of the start |
| `StateSearch.PickedStable` | core/blockchain.go:641-682 | blocks above the start do not matter to the pick |
| `StateSearch.GivesUp` | core/blockchain.go:641-682 | a search that starts below every block with the requested root ends at genesis, whatever state there is |
| `StateSearch.PickedUnique` | core/blockchain.go:641-682 | at most one block satisfies the description of the pick |
| `StateSearch.PickedWithoutPivot` | core/blockchain.go:641-682 | without a pivot the pick is the highest block with state at or below the requested root, or genesis |
| `RewindSteps.ListedAbove` | core/headerchain.go:641-647 | all heights above the head up to the first unlisted one, with every header listed there |
| `RewindSteps.StillThere` | core/headerchain.go:609-613 | the header to be left, its parent and genesis are still there at every round |
| `RewindSteps.DoomedStep` | core/headerchain.go:641-666 | every header still there between the height left and the end of the sweep is scheduled, and nothing else |
| `RewindSteps.Flushed` | core/headerchain.go:668-671 | after the deletions exactly the heights between the lowest one dropped and the end of sweep and ancient store are gone |
| `RewindSteps.SweepAll` | core/headerchain.go:641-647 | on a closed store the sweep covers everything above the head |
| `RewindSteps.PathAfterRewind` | core/headerchain.go:580-676 | removing everything above a block keeps the store a tree and the block's path unchanged |
| `RewindSteps.CutIsValid` | core/headerchain.go:580-676 | a valid chain cut at an ancestor of its head, ancient store included, is a valid chain |
| `RewindSteps.SweepStops` | core/headerchain.go:641-647 | after an interruption below the ancient limit a new sweep ends right above the head and leaves what lies above that limit |
| `RewindSteps.RecoveredExactly` | core/blockchain.go:334-360 | rewinding an interrupted rewind again makes the chain valid exactly if the first had not come down into the ancient store or nothing lay above it |
| `RewindSteps.CutShortIsInterrupted` | core/headerchain.go:605-667 | a valid chain of four blocks and a disk that a rewind of it passes through |
| `RewindSteps.RecoveryFails` | core/blockchain.go:334-360 | no rewind of that disk makes it valid |
| `RewindCourse.InForce` | core/headerchain.go:623-629 | the target is lowered exactly if the head block lies below it and below the ancient store but not below the pivot, to the height of that block, which then does not underrun it any more |
| `RewindCourse.LeftKeeps` | core/headerchain.go:605-613 | the headers passed change neither where parent links end nor whether they reach the target |
| `RewindCourse.DescendedStep` | core/headerchain.go:605-629 | the header goes on along parent links past headers beyond the target in force, or falls to genesis from the lowest of them |
| `RewindCourse.NoLowerStep` | core/headerchain.go:599-629 | leaving a header beyond the target for its parent never undershoots the target in force |
| `RewindCourse.RestsStep` | core/blockchain.go:627-690 | the head block stays put while the header is above it, then goes where the searches take it, and the root number with it |
| `RewindCourse.BlockAtUnique` | core/blockchain.go:627-690 | without a pivot head block and root number are determined by the height of the header |
| `RewindCourse.BlockIsHighest` | core/blockchain.go:627-690 | without root and pivot the head block is the highest block with state at or below the header |
| `RewindCourse.FirstPickStays` | core/blockchain.go:631-682 | with a root the result of the first search and the root number stay while the header is above that result |
| `RewindCourse.RestartGivesUp` | core/blockchain.go:631-682 | once the header comes down to that result, and the root lies above it, the head block is genesis and the root number stays |
| `RewindCourse.CourseStep` | core/headerchain.go:605-637 | one round keeps the target in force, which the head block never underruns, the way down, the head block and the root number as described |
| `RewindCourse.LeftAbove` | core/headerchain.go:605-671 | exactly when a canonical entry is left above the head, with or without an ancient store |
| `Rewind.Chain.LowerHeads` | core/blockchain.go:627-720 | the block marker moves to the unique pick, the snap marker to the target, neither above it, and the root number follows; exactly when the search falls and when a wipe is forced |
| `Rewind.Chain.LowerMarkers` | core/headerchain.go:605-637 | the header marker moves to its parent, all markers reach the disk, and the target in force is lowered exactly if the block marker underran it and the ancient store |
| `Rewind.ForcedStep` | core/headerchain.go:623-629 | the target in force is the planned one exactly as long as no head block on the way underran it, and otherwise the lowest height one was forced to |
| `Rewind.HeadTakenAlong` | core/blockchain.go:709-718 | a head block below the ancient store and not below the pivot has the header at its own height or, with a timestamp, is not earlier than that |
| `Rewind.TimeKept` | core/headerchain.go:599-629 | a timestamp stays the target as long as no head block was earlier |
| `Rewind.Chain.DropHeight` | core/blockchain.go:722-741 | what is scheduled at one height; if it is frozen, everything frozen from there up is gone at once |
| `Rewind.Chain.DropRound` | core/headerchain.go:638-666 | everything listed at the height left, and in the first round above it, is scheduled |
| `Rewind.LowerStep` | core/headerchain.go:605-637 | lowering the markers keeps the rewind on course and leaves a disk that counts as interrupted |
| `Rewind.DropStep` | core/headerchain.go:638-666 | dropping the height left keeps all data below it and leaves a disk that counts as interrupted |
| `Rewind.Chain.RoundLower` | core/headerchain.go:605-637 | the first half of a round keeps the record of writes in order |
| `Rewind.Chain.Round` | core/headerchain.go:605-667 | one round persists markers before data goes, keeps all data below them, and goes strictly down |
| `Rewind.Chain.Rounds` | core/headerchain.go:599-667 | the loop ends with the target in force reached, and makes no round exactly if it was reached before |
| `Rewind.Chain.Flush` | core/headerchain.go:668-671 | the scheduled data is gone, in order behind the markers |
| `Rewind.Chain.RoundsAndFlush` | core/headerchain.go:599-676 | the loop and the last write together, from the first marker to the last deletion |
| `Rewind.Chain.SetHead` | core/headerchain.go:580-676 | from any state, what is left of headers, bodies, map and ancient store; the head within the target in force and no lower than asked; exactly when the target is lowered, and that a head block below the ancient store takes the header along; where the head block and the root number end; exactly when an entry is left above the head; a valid chain stays valid; markers before data, and every disk in between is an interrupted rewind |
| `Rewind.Chain.SetHeadAgain` | core/blockchain.go:334-360 | a rewind cut short and made again ends valid exactly under the stated condition |
| `Rewind.RewindAcrossGap` | core/headerchain.go:609-613 | a rewind that falls to genesis through a gap and leaves a canonical entry above it |
| `Rewind.RewindToHere` | core/headerchain.go:599-605 | a rewind to where the header is leaves an entry above it although no header is missing |
| `TrieGc.Collector.WriteState` | core/blockchain.go:1366-1413 | refines the write step: the root is queued, referenced exactly if in memory, and exactly the roots queued at least 128 blocks below are released |
| `TrieGc.WrittenKeeps` | trie/database.go:448-466 | a write keeps the references within the queue, and equal to it exactly if its root was in memory |
| `TrieGc.Collector.PopUpTo` | core/blockchain.go:1404-1410 | popping and pushing back leaves the queue unchanged and means nothing old is left |
| `TrieGc.Collector.Release` | core/blockchain.go:1403-1411 | everything up to the height is released, each entry once, and nothing newer |
| `TrieGc.Collector.Drain` | core/blockchain.go:977-979 | shutdown drops one reference for each queued entry and leaves none if none exceeded the queue |
| `TrieGc.RunBalancedExactly` | core/blockchain.go:1362-1413 | over every run of writes the references never exceed the queue, equal it in every state exactly if every root was in memory, and dropping what is queued leaves none |
| `TrieGc.RecentAlive` | core/blockchain.go:1366-1413 | a state root stays queued, and referenced if all roots were in memory, until a block is written 128 or more above it |
| `TrieGc.RunDetermined` | core/blockchain.go:1362-1413 | queue and references after a run depend on the writes alone, not on the order among equally old roots |
| `TrieGc.WriteAll` | core/blockchain.go:1362-1413 | the collector passes through the states of the run and ends in the last |
| `ChainIndexer.RollbackKeepsInv` | core/chain_indexer.go:477-489 | rolling back to any count keeps the stored heads one section of parent links apart |
| `ChainIndexer.VerifyKeepsInv` | core/chain_indexer.go:422-429 | however the chain moves between its reads, after verification the last stored head was the canonical hash at its end when last read |
| `ChainIndexer.VerifyStopsHighest` | core/chain_indexer.go:422-429 | while the chain stands still, no section above the one verification stops at was still canonical |
| `ChainIndexer.NewHeadKeepsInv` | core/chain_indexer.go:243-300 | a new head or a reorganisation notice keeps the invariant whatever the worker is doing |
| `ChainIndexer.NewHeadExact` | core/chain_indexer.go:243-298 | a head without a reorganisation makes known exactly the sections that have the required confirmations on top; a reorganisation gives up exactly the sections, known or stored, that end above it, and no other head |
| `ChainIndexer.ResetKeepsInv` | core/chain_indexer.go:392-395 | starting a section, or giving all of them up without the lock, keeps the invariant |
| `ChainIndexer.RefusalGivesUpAll` | core/chain_indexer.go:392-395 | a backend that refuses to start a section costs all stored sections |
| `ChainIndexer.CaptureVerifies` | core/chain_indexer.go:317-337 | a section is begun exactly if one is known, on top of a head that was canonical when last read |
| `ChainIndexer.FinishStoresOrRests` | core/chain_indexer.go:348-369 | a section is stored exactly if it was committed and the one below is unchanged; otherwise the stored sections are verified and no more are known than those |
| `ChainIndexer.FinishKeepsInv` | core/chain_indexer.go:348-369 | a commit is accepted only if the section below is unchanged, so it extends the chain of heads |
| `ChainIndexer.StepKeepsInv` | core/chain_indexer.go:304-416 | every step of every party keeps the invariant |
| `ChainIndexer.RunKeepsInv` | core/chain_indexer.go:304-416 | under every interleaving of chain changes, notices, header reads and commits the stored heads stay parent-linked section by section |
| `ChainIndexer.SectionsExact` | core/chain_indexer.go:434-440 | after any run all stored heads are canonical if and only if the map is linked between section ends when Sections reads it last |
| `ChainIndexer.SectionsCanonical` | core/chain_indexer.go:434-440 | on a linked map every stored section ends on the canonical chain |
| `ChainIndexer.SectionsDuringReorg` | core/chain_indexer.go:434-440 | a run from the initial state, ending halfway through a reorganisation, after which Sections keeps a non-canonical section |
| `ChainIndexer.ReadsAdvance` | core/chain_indexer.go:397-412 | undisturbed reads carry the worker to the section's end with the canonical hash there |
| `ChainIndexer.UndisturbedSectionStored` | core/chain_indexer.go:317-369 | a known section processed without interference is stored with the canonical hash at its end |
| `ChainIndexer.Indexer.SetValidSections` | core/chain_indexer.go:477-489 | the loop of removals is the rollback step |
| `ChainIndexer.Indexer.VerifyTop` | core/chain_indexer.go:423-428 | one look at the last stored section keeps it exactly if it ends on the canonical chain |
| `ChainIndexer.Indexer.VerifyLastHead` | core/chain_indexer.go:422-429 | the loop of rollbacks is the verification step |
| `ChainIndexer.Indexer.OnNewHead` | core/chain_indexer.go:243-298 | known and stored sections follow the announced head exactly: the largest count with the required confirmations on top, or after a reorganisation the largest count at or below it |
| `ChainIndexer.Indexer.OnCapture` | core/chain_indexer.go:319-337 | taking the lock, verifying and capturing section and previous head is one step |
| `ChainIndexer.Indexer.OnReset` | core/chain_indexer.go:391-395 | the backend's reset, and the rollback of everything if it fails, is a step of its own without the lock |
| `ChainIndexer.Indexer.OnRead` | core/chain_indexer.go:397-412 | reading one header without the lock is one step, broken links and missing headers included |
| `ChainIndexer.Indexer.OnEnd` | core/chain_indexer.go:413-416 | the backend's commit ends the section or fails it |
| `ChainIndexer.Indexer.OnFinish` | core/chain_indexer.go:348-369 | storing or giving up a processed section is one step under the lock |
| `ChainIndexer.Indexer.OnSections` | core/chain_indexer.go:434-440 | the count and head returned, and exactly when all counted sections are canonical |
| `IndexerHistory.StepKeepsBacked` | core/chain_indexer.go:243-369 | no step makes known, stores or begins a section without an announced head deep enough above it |
| `IndexerHistory.SectionsConfirmed` | core/chain_indexer.go:275-298 | after every run every section known, stored or being indexed ends the required confirmations below a head announced in that run |
| `IndexerHistory.StepKeepsLogged` | core/chain_indexer.go:383-416 | no step stores a section that the backend has not processed header by header and committed |
| `IndexerHistory.SectionsProcessed` | core/chain_indexer.go:383-416 | after every run the backend has committed every stored section and processed each of its headers, while that header was canonical and present and a child of the one before |
| `RollbackRace.SoloRun` | core/chain_indexer.go:477-489 | a rollback nobody interferes with is consistent at every statement and ends at its target |
| `RollbackRace.SerialConsistent` | core/chain_indexer.go:477-489 | one rollback after the other, in either order, ends consistent with no section left |
| `RollbackRace.OneSectionRun` | core/chain_indexer.go:477-489 | with one section and both asking for none, its head is deleted under every schedule, wrap-around included |
| `RollbackRace.LookTooEarly` | core/chain_indexer.go:262-264 | a schedule after which sections are counted whose heads are gone |
| `RollbackRace.SkipTop` | core/chain_indexer.go:483-486 | a schedule after which no section is counted but a head is still recorded |
| `RollbackRace.OverlapExact` | core/chain_indexer.go:392-395 | every schedule of the two rollbacks that finishes ends consistent if and only if the locked one has nothing to do, or one section is stored and both ask for none |
| `RollbackRace.LeaveHole` | core/chain_indexer.go:483-486 | a schedule after which the top section counted is recorded and the first is not |
| `RollbackRace.RepairExact` | core/chain_indexer.go:422-429 | a later verification repairs every schedule's outcome if and only if the locked rollback has nothing to do or asks for at most one section |
| `CaseList.Find` | event/feed.go:213-220 | the first index with the channel, or minus one exactly if there is none |
| `CaseList.DeleteKeeps` | event/feed.go:223-225 | deletion removes that entry and no other |
| `CaseList.DeactivateKeeps` | event/feed.go:228-232 | moving an entry behind the active prefix loses and duplicates nothing |
| `CaseList.SendEnds` | event/feed.go:147-190 | when the active prefix is empty every case present at the start was served exactly once or removed |
| `Feed.Feed.FindIndex` | event/feed.go:213-220 | the scan over the array is the first-index search |
| `Feed.Feed.Delete` | event/feed.go:223-225 | shifting the array down is deletion from the list |
| `Feed.Feed.MoveBehind` | event/feed.go:228-232 | the swap on the array is deactivation on the list |
| `Feed.Feed.Absorb` | event/feed.go:134-144 | the inbox is appended to the cases and emptied |
| `Feed.Feed.Deliver` | event/feed.go:160-163 | one delivery hands the value to exactly that subscription and moves its case out of the active prefix |
| `Feed.Feed.Withdraw` | event/feed.go:171-177 | a removal request takes out the first case of its channel |
| `Feed.Feed.Send` | event/feed.go:128-190 | for every order of ready channels and removals, each subscription present and not removed received exactly one value more, nobody else any; cases were removed for exactly the requests selected, in order; the count returned is the number of deliveries |
| `FeedProtocol.SubscribeKeepsInv` | event/feed.go:72-92 | a new subscription adds exactly one entry of its channel |
| `FeedProtocol.UnsubscribeKeepsInv` | event/feed.go:103-114 | leaving takes the entry out of the inbox or leaves one behind in the cases for removal |
| `FeedProtocol.RemoveKeepsInv` | event/feed.go:116-123 | taking out a leaving subscription, during a send or not, keeps one entry per remaining one |
| `FeedProtocol.PendingHasEntry` | event/feed.go:170-177 | a subscription waiting to be removed always has an entry to delete |
| `FeedProtocol.EnabledIsSafe` | event/feed.go:170-177 | the search before each delete never returns minus one |
| `FeedProtocol.StepKeepsInv` | event/feed.go:72-190 | every enabled step is safe and keeps the protocol invariant |
| `FeedProtocol.RunIsSafe` | event/feed.go:72-190 | over every interleaving no delete ever uses a missing index |
| `FeedProtocol.SendBegins` | event/feed.go:131-144 | when a send begins, rejected or not, the inbox is empty and there is one case for every subscription of a channel not taken out by then |
| `FeedProtocol.WaitingAfter` | event/feed.go:153-181 | each step of a send takes out of the waiting cases exactly the one served or removed |
| `FeedProtocol.SendCounts` | event/feed.go:128-190 | while a send is on, every subscription held when it began has got the value, was taken out before, or waits |
| `FeedProtocol.SendBegan` | event/feed.go:128-144 | a send that is on began and has not ended since |
| `FeedProtocol.SendDelivers` | event/feed.go:128-190 | over every interleaving a send hands the value to each channel once for every subscription held when it began and not taken out before its turn, returns the number of deliveries, and serves no case twice |
| `FeedProtocol.NoSubscriptionLost` | event/feed.go:72-124 | in every reachable state each channel has exactly as many entries as subscriptions not yet taken out |
| `Balances.TransferKeepsTotal` | core/evm.go:124-127 | a transfer keeps the sum of all balances, also from an account to itself |
| `GasPool.GasPool.AddGas` | core/gaspool.go:29-35 | panics exactly on 64-bit overflow, else adds |
| `GasPool.GasPool.SubGas` | core/gaspool.go:39-45 | refuses exactly when the pool holds too little |
| `StateTransition.ToMessage` | core/state_transition.go:146-166 | a single price is paid as it is; with tip and cap the price is tip plus base fee as far as the cap allows, or the cap without a base fee; all else is taken over |
| `StateTransition.ToWordSize` | core/state_transition.go:117-123 | the least number of 32-byte words, also at the top of the 64-bit range |
| `StateTransition.DataGas` | core/state_transition.go:67-105 | the checked 64-bit computation gives the exact cost or refuses exactly on overflow |
| `StateTransition.IntrinsicGas` | core/state_transition.go:67-114 | refused exactly if the data cost overflows; the access list is added modulo 2^64 |
| `StateTransition.SplitLosesDust` | core/state_transition.go:399-414 | an eighth goes to the miner and seven eighths to the pool, both rounded down; together they fall short of the fee by at most one wei, by none exactly if it divides by eight |
| `StateTransition.BurnedBounds` | core/state_transition.go:385-427 | at most two wei are lost with the fee pool, and exactly when; without it the whole base fee is burned from London on |
| `StateTransition.FeesAddUp` | core/state_transition.go:385-398 | what the sender paid for the gas used is the tip plus, from London on, the base fee |
| `StateTransition.PriceIsShared` | core/state_transition.go:385-427 | what the sender pays for the gas used is what miner and pool earn and what is burned, and who earns which part |
| `StateTransition.GasBought` | core/state_transition.go:228-248 | the sender and no other account is charged, for the whole gas limit; nonces and contracts stay |
| `StateTransition.RefundCapped` | core/state_transition.go:378-384 | the refund is the counter, capped at a fifth of the gas spent from London on and at half before |
| `StateTransition.PaidIsSettled` | core/state_transition.go:228-448 | every account changes by what the machine makes of it, what it earns as miner or pool and, for the sender, the price of the gas used |
| `StateTransition.StateTransition.BuyGas` | core/state_transition.go:228-248 | accepted exactly if balance covers the fee cap and value and the pool covers the limit, and then the sender alone is charged; refused without effect and for the reason given |
| `StateTransition.StateTransition.PreCheck` | core/state_transition.go:250-299 | accepted exactly if nonce, sender, fees and funds are acceptable; refused without effect and for the reason given |
| `StateTransition.StateTransition.Prepare` | core/state_transition.go:341-359 | the transfer check after buying gas can never fail; which messages go on to execution, and why the others do not |
| `StateTransition.StateTransition.RefundGas` | core/state_transition.go:436-448 | the capped refund never lifts the remaining gas above the initial gas, and returning it never overflows the pool |
| `StateTransition.StateTransition.PayFees` | core/state_transition.go:385-427 | who receives how much, for any coincidence of miner, pool and sender, and how much the total rises |
| `StateTransition.StateTransition.PaySplit` | core/state_transition.go:399-421 | with the fee pool active both fees are split, for any coincidence of miner and pool |
| `StateTransition.StateTransition.Execute` | core/state_transition.go:360-434 | execution, refund and fees together: final gas, pool and sum of balances for every machine |
| `StateTransition.StateTransition.TransitionDb` | core/state_transition.go:311-434 | executed exactly if executable, else refused for the reason given; the pool loses exactly the gas used; the machine runs on the world in which the sender alone has paid for the gas limit and the nonce is spent; afterwards every account is settled, and the sum of balances changes by what the machine makes of it less what is burned |
| `StateProcessor.ApplyTransaction` | core/state_processor.go:144-187 | applied exactly if executable on what is left in the pool; receipt, pool and world are those of the message |
| `StateProcessor.BlockTotal` | core/state_processor.go:109-121 | over a block the sum of balances changes by what the machine made less what was burned, and a conserving machine makes nothing |
| `StateProcessor.BlockBurned` | core/state_processor.go:109-121 | what a block burns: at most two wei per transaction with the fee pool, else base fee times gas used from London on |
| `StateProcessor.Process` | core/state_processor.go:59-142 | every transaction is applied to the world and gas its predecessors left, up to the first that is not executable; gas used and gas left in the pool make up the limit, cumulative gas is the running sum; with conserving machines the sum of balances falls by exactly the base fee of the gas used, or by zero to two wei per transaction with the fee pool |
| `HashCache.HashFn.Query` | core/evm.go:79-115 | a cached query answers as the uncached walk would |
| `HashCache.QueryAll` | core/evm.go:79-115 | any sequence of queries is answered as if nothing were cached |
| `HashCache.AnswerIsAncestor` | core/evm.go:79-115 | in a closed store the answer is the ancestor at that height |
| `DerivationPath.ParseDerivationPath` | accounts/hd.go:68-118 | the loop that appends component by component is the recursive parser, errors included |
| `DerivationPath.AppendComponents` | accounts/hd.go:90-117 | the first bad component decides the error, otherwise all components follow the root |
| `DerivationPath.String` | accounts/hd.go:122-136 | the printing loop is the recursive printer |
| `Numerals.ParseNumeral` | accounts/hd.go:101-105 | a number written in base 2, 8, 10 or 16 with its prefix and any sign is read as that number |
| `Numerals.NumeralExact` | accounts/hd.go:101-105 | a text without a sign is read as a number if and only if it is the prefix of a base and digits of that base with single underscores between them, and then as their value |
| `DerivationPath.ParseRendered` | accounts/hd.go:90-117 | every 32-bit component survives printing and parsing, hardened or not |
| `DerivationPath.TooLargeRefused` | accounts/hd.go:105-111 | a number too large for its component, hardened or not, is refused as out of range |
| `DerivationPath.NegativeRefused` | accounts/hd.go:105-111 | so is one below zero |
| `DerivationPath.SplitPrinted` | accounts/hd.go:71-71 | splitting a printed path gives the printed components |
| `DerivationPath.RoundTrip` | accounts/hd.go:68-136 | parsing a printed path gives the path back if and only if it is not empty |
| `DerivationPath.CanonicalFormStable` | accounts/hd.go:68-136 | whatever text is accepted, printing and parsing it again changes nothing |
| `DerivationPath.RelativeIsAppended` | accounts/hd.go:72-90 | a path without a prefix is the same path below m/44'/60'/0'/0, whatever its components |
| `DerivationPath.ComponentPadded` | accounts/hd.go:91-99 | white space around a component, and between it and its hardening mark, is ignored |
| `DerivationPath.SpaceIgnored` | accounts/hd.go:68-118 | texts whose parts differ only in white space around them are the same path or the same error |
| `DerivationPath.AmbiguousRefused` | accounts/hd.go:77-78 | a path that begins with a slash, or is blank, is refused as ambiguous |

## Left out

- The virtual machine, tries, snapshots, RLP, hashing, signatures and consensus seals: parameters or not modelled.
- Caches in front of the database, events, logs and metrics.
- The insertion driver of `insertChain` with its batches, futures and verification, and the reimport half of `insertSideChain`.
- Re-execution of ancestors in `recoverAncestors`: its outcome is a parameter of `SetCanonical`.
- Snap-sync receipts, migration into the freezer, and the repair mode and safe and finalized markers of the rewind; heights below the ancient limit are taken to live in the ancient store only.
- The rewind's transaction lookup: the source leaves it as it is and so says a comment, so nothing is stated about it there.
- The background removal of old transaction lookup entries, with which the index would cover recent blocks only.
- 64-bit wrap-around of block numbers, signed priorities in the queue of state roots, and the 16-bit counter of references per root.
- Committing and capping tries by size and time, which moves roots out of memory between writes.
- A crash between the batches of a reorganisation: the recorded head writes cover the states after each, but not recovery from them.
- Child indexers, checkpoints and the event loop of the indexer.
- ChainIndexer.RunKeepsInv: takes the one rollback outside the lock as a single step, because its statements can overlap a locked rollback and then the invariant fails; `RollbackRace.dfy` interleaves them and says exactly when.
- ChainIndexer.ResetKeepsInv: the same single step.
- ChainIndexer.Indexer.OnReset: the same single step.
- The type check of a feed on first use, and subscriptions whose channel direction is wrong.
- Unsigned messages of calls (`NoBaseFee`, `SkipAccountChecks`), base-fee recomputation, withdrawals, uncle rewards and hard-fork state changes in `Process`.
- Wallet path iterators and the JSON form of a derivation path.
- Networking, synchronisation, the transaction pool, mining and the RPC interface.
- HeaderChain.HeaderChain.constructor: starts at genesis, because reading a stored head back from the database is not modelled.
- BlockChain.Serve: the exactness of the index assumes that no transaction occurs twice in one chain, which nonces guarantee in the source.
- TrieGc.RunBalancedExactly: keeps the roots in memory between writes, because committing and capping tries is not modelled.
