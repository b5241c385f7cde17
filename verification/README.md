# A model of essa-core's ledger state

essa-core keeps the state of a ledger three times over: as rows of a database behind a stack of nested
transactions, as a list of levels of merged bucket files, and as checkpoints in history archives. This
project models the code that keeps the three in step, and proves what it is for.

- **Bucket list.** Sorted files and their merge (`BucketFile`), the arithmetic of the levels
  (`LevelArithmetic`, `LevelSizes`), closing a ledger (`BucketList`) and all runs of closes
  (`BucketListRuns`). After any run the list denotes the map that plainly applying all batches gives, and
  each bucket holds exactly the ledgers that the size arithmetic says.
- **Pending merges, restart and garbage collection.** `FutureBucket`, `Restart`, `BucketGC`, and
  `BucketWorld`, a state machine whose steps are closing, publishing, forgetting, stopping and starting.
  No file that is still needed is ever deleted, and a node that was restarted at any time has the same
  buckets as one that never stopped.
- **Nested transactions.** `TxnStack` says what a stack of transactions means: a stack of maps. `LedgerTxn`
  is the code, with its delta maps, active entries, sealing, entry cache and batched writes (`BulkApply`),
  proved to mean that for every program of calls. `TxnLaws` says what callers see of each call. Over
  it: change lists (`LedgerChanges`), the best offer (`OfferTable`, `BestOffer`) and inflation winners
  (`Inflation`, `InflationWinners`).
- **Closing ledgers.** `LedgerClose` joins the two: after every sequence of ledgers the store equals the
  flat view of the bucket list.
- **Catching up.** `CatchupRange`, `VerifyChain`, `VerifyChainWork`, `BucketApplicator`, `ApplyBuckets`,
  `ApplyBucketsWork`, and the manager's state machine (`LedgerManager`) with its laws (`ManagerLaws`) and its
  object (`LedgerManagerObject`). `Rejoin` composes them: a node that applies buckets and assumes a state goes on as
  one that never left.
- **Transaction sets.** `TxSet`, `TxSetBuild`, `TxSetApply`: a proposed set is always accepted, and the
  order of application depends on the set alone.

Objects that the program updates in place are classes, loops are loops, and each is proved against a
function or predicate whose own properties are proved as lemmas. `Order` holds sorting.

## Model

| member | source | states |
|---|---|---|
| `LedgerTypes.KeyLessTotal` | src/bucket/LedgerCmp.h:27-126 | the identity order of ledger entries is a strict total order on keys, across entry types and within each |
| `LedgerTypes.KeyLessIff` | src/bucket/LedgerCmp.h:27-87 | accounts come before trust lines, offers and data; within a type the account decides, then asset, offer number, or name, where the first different character decides |
| `BucketFile.OutputIterator.Put` | src/bucket/BucketOutputIterator.cpp:48-78 | what was written so far is extended by the entry; an entry with the buffered key replaces it; a tombstone is dropped when tombstones are not kept |
| `BucketFile.OutputIterator.GetBucket` | src/bucket/BucketOutputIterator.cpp:80-101 | the finished file is everything written, with the buffered entry flushed |
| `BucketFile.Fresh` | src/bucket/Bucket.cpp:148-176 | the file of one ledger is sorted without repeats and holds exactly the given entries; a key that is both live and dead is dead |
| `BucketFile.MaybePut` | src/bucket/Bucket.cpp:178-204 | an entry is written exactly when no shadow has its key; shadow iterators only move past keys that can no longer matter |
| `BucketFile.Merge` | src/bucket/Bucket.cpp:206-265 | from sorted inputs the output is sorted and denotes, key by key, the newer entry over the older one, less shadowed keys and, at the last level, tombstones |
| `BucketFile.FileOfContents` | src/bucket/Bucket.cpp:206-265 | a sorted file is determined by the map it denotes, so merges of equal maps give equal files and hashes |
| `BucketFile.MergedStep` | src/bucket/Bucket.cpp:222-262 | taking the newest entry of the smallest key extends the merged map by just that key |
| `LevelArithmetic.LevelSizeIsShift` | src/bucket/BucketList.cpp:155-166 | the sizes 4, 16, 64, ... and their halves are the program's shifts |
| `LevelArithmetic.MaskIsMod` | src/bucket/BucketList.cpp:168-172 | masking is rounding down to a multiple |
| `LevelArithmetic.SpillTops` | src/bucket/BucketList.cpp:297-308 | when a ledger spills a level, what curr held becomes what snap holds |
| `LevelArithmetic.NoSpillTops` | src/bucket/BucketList.cpp:297-308 | otherwise snap holds what it held |
| `LevelArithmetic.TopsDescend` | src/bucket/BucketList.cpp:174-245 | the ranges of ledgers of all buckets are ordered and contiguous |
| `LevelArithmetic.HeldOnce` | src/bucket/BucketList.cpp:174-245 | no ledger is in two buckets |
| `LevelArithmetic.Partition` | src/bucket/BucketList.cpp:174-245 | each ledger closed so far is in exactly one bucket |
| `LevelSizes.SizeOfCurr` | src/bucket/BucketList.cpp:174-219 | the program's recursion gives the number of ledgers that curr of the level holds, for every ledger and level |
| `LevelSizes.SizeOfSnap` | src/bucket/BucketList.cpp:221-245 | the same for snap |
| `LevelSizes.OldestLedgerInCurr` | src/bucket/BucketList.cpp:247-265 | the first ledger of curr's range, or the largest number when it holds none |
| `LevelSizes.OldestLedgerInSnap` | src/bucket/BucketList.cpp:267-284 | the same for snap |
| `BucketList.List.SnapLevel` | src/bucket/BucketList.cpp:127-137 | curr becomes snap and curr becomes empty at one level; the rest stays |
| `BucketList.List.SetCurr` | src/bucket/BucketList.cpp:67-73 | curr is replaced and the pending merge dropped |
| `BucketList.List.Commit` | src/bucket/BucketList.cpp:80-90 | a live merge is resolved into curr; otherwise nothing changes |
| `BucketList.List.Prepare` | src/bucket/BucketList.cpp:92-125 | the next merge gets curr, unless curr is about to be spilled, the spilled snap and the shadows |
| `BucketList.List.AddBatch` | src/bucket/BucketList.cpp:328-423 | the walk from the deepest level up changes all levels at once, each from the state before the ledger: a level that spills moves curr to snap; where the level above spills, the pending merge becomes curr and a merge begins that comes, key by key, to what was spilled over curr, less exactly the keys that a level above the one that spills holds in curr or snap, and less tombstones at the last level |
| `BucketList.ClosedIsLevelClosed` | src/bucket/BucketList.cpp:328-423 | the same of closing a ledger as a function of all levels |
| `BucketListRuns.MergeCovers` | src/bucket/Bucket.cpp:206-265 | merging the buckets of two neighbouring ranges, less what newer buckets shadow, gives a bucket for the joined range |
| `BucketListRuns.ShadowsAreNewer` | src/bucket/BucketList.cpp:355-389 | everything in the shadows was changed after everything that the merge holds |
| `BucketListRuns.RangesLand` | src/bucket/BucketList.cpp:92-125 | a merge prepared at one spill lands, at the next, on exactly the range of ledgers that curr is to hold |
| `BucketListRuns.RunOk` | src/bucket/BucketList.cpp:328-423 | in every reachable list each bucket covers exactly the ledgers of its range: no change is lost, repeated or out of order |
| `BucketListRuns.LookupIsNewest` | src/bucket/BucketList.cpp:328-423 | the first hit from a level on is the newest change up to there |
| `BucketListRuns.FlatViewOfRun` | src/bucket/BucketList.cpp:328-423 | after any run of any batches, reading the list newest first gives the map that applying all batches in order gives |
| `BucketListRuns.HeldIffChanged` | src/bucket/BucketList.cpp:355-389 | in every list of a run the levels above a level hold a key if and only if a ledger newer than that level has changed it |
| `BucketListRuns.MergeHoldsExactly` | src/bucket/BucketList.cpp:328-423 | in every run a merge begun with ledger c for a range of ledgers holds for each key the newest change of the range, and nothing for exactly the keys that a later ledger before c changes, and for tombstones at the last level |
| `FutureBucket.Object.constructor` | src/bucket/FutureBucket.h:88 | a new future is clear |
| `FutureBucket.Object.Merging` | src/bucket/FutureBucket.cpp:23-45 | a future over live inputs; its outcome is their merge |
| `FutureBucket.Object.StartMerge` | src/bucket/FutureBucket.cpp:253-296 | the merge that is started has the merged inputs as its outcome |
| `FutureBucket.Object.SetLiveOutput` | src/bucket/FutureBucket.cpp:47-58 | the future becomes a finished one with that output |
| `FutureBucket.Object.Resolve` | src/bucket/FutureBucket.cpp:208-232 | the result is the outcome of the merge; the inputs are given up |
| `FutureBucket.Object.ClearInputs` | src/bucket/FutureBucket.cpp:153-163 | inputs are gone, the output stays |
| `FutureBucket.Object.ClearAll` | src/bucket/FutureBucket.cpp:174-180 | the future is clear |
| `FutureBucket.Object.Activate` | src/bucket/FutureBucket.cpp:298-328 | from hashes the future becomes live again, as the stored files say |
| `FutureBucket.Object.SaveTo` | src/bucket/FutureBucket.h:150-175 | what is saved names the same buckets |
| `FutureBucket.Object.LoadFrom` | src/bucket/FutureBucket.h:123-148 | the loaded future has the saved hashes; it is an error exactly for a state that is never saved |
| `FutureBucket.Object.GetHashes` | src/bucket/FutureBucket.cpp:330-352 | exactly the hashes of inputs, shadows and output |
| `FutureBucket.SaveLoadRoundTrip` | src/bucket/FutureBucket.cpp:298-328 | saving a live future, loading it and making it live gives it back, losing only the progress of the merge |
| `Restart.AssumeState` | src/bucket/BucketManagerImpl.cpp:453-472 | each level is restored from its saved form, and merges are started again, or the state is refused when a file is missing |
| `Restart.RestartInvisible` | src/bucket/BucketList.cpp:425-442 | stop after any ledger with any merges finished and start from the files: at every later ledger curr and snap of every level are as without the stop |
| `Restart.RestoreSucceeds` | src/bucket/BucketManagerImpl.cpp:453-472 | with the files there, restoring does not fail |
| `BucketGC.AllBucketsAreNamed` | src/history/HistoryArchive.cpp:256-267 | the set of all buckets of a stored state is exactly what its levels name, pending merges included |
| `BucketGC.PublishQueueBuckets.AddBucket` | src/bucket/PublishQueueBuckets.cpp:25-29 | one more reference to that bucket, no other count changes |
| `BucketGC.PublishQueueBuckets.RemoveBucket` | src/bucket/PublishQueueBuckets.cpp:40-54 | one reference fewer, and the entry goes at zero |
| `BucketGC.PublishQueueBuckets.AddBuckets` | src/bucket/PublishQueueBuckets.cpp:16-23 | each of the hashes gets one more reference, no other count changes |
| `BucketGC.PublishQueueBuckets.RemoveBuckets` | src/bucket/PublishQueueBuckets.cpp:31-38 | each of the hashes loses one reference, no other count changes, and no zero is kept |
| `BucketGC.AddedExact` | src/history/HistoryManagerImpl.cpp:272-273 | exact counts stay exact when a state is queued |
| `BucketGC.RemovedExact` | src/history/HistoryManagerImpl.cpp:386-397 | exact counts stay exact when a state has been published |
| `BucketGC.LoadCounts` | src/history/HistoryManagerImpl.cpp:334-347 | the counts computed anew are the exact numbers of queued states that name each bucket |
| `BucketGC.GetReferencedBuckets` | src/bucket/BucketManagerImpl.cpp:263-319 | the set is exactly what the list, its pending merges, the last closed state and the publish queue name |
| `BucketGC.ReferencedIff` | src/bucket/BucketManagerImpl.cpp:263-319 | a bucket is referenced if and only if some level has it as curr, snap, or as input, shadow or output of its merge, or the stored state names it, or a queued state counts it |
| `BucketGC.ForgetUnreferenced` | src/bucket/BucketManagerImpl.cpp:351-392 | exactly the shared buckets that are neither referenced nor in use lose their files |
| `BucketWorld.WrittenAdopted` | src/bucket/BucketManagerImpl.cpp:187-231 | every bucket that a close writes, finished merges included, is a kept file |
| `BucketWorld.NeededFilesKept` | src/bucket/BucketManagerImpl.cpp:263-392 | in every run of closes, merges finishing, publications, clean-ups and restarts, no file that the list, its merges, the stored state or the queue needs is missing, each file has the hash it is named by, and the empty bucket has none |
| `BucketWorld.ForgetLeaves` | src/bucket/BucketManagerImpl.cpp:351-392 | of the files it knows, forgetting leaves exactly those that the list, a merge, the stored state or a queued state needs or that are in use elsewhere; it touches no other file |
| `BucketWorld.RestartLeaves` | src/bucket/BucketManagerImpl.cpp:321-348 | starting leaves exactly the files that are needed or were opened already |
| `BucketWorld.RestartNeverBlocked` | src/bucket/BucketManagerImpl.cpp:453-472 | wherever the invariant of all runs holds, a restart finds every file it asks for |
| `BucketWorld.NodeMatchesUninterruptedRun` | src/bucket/BucketList.cpp:425-442 | whatever happened, if no two buckets that the node had at one time have the same hash, its buckets are those of a node that never stopped, and its list denotes all batches |
| `TxnStack.RunWithin` | src/ledger/LedgerTxn.cpp:168-181 | nothing done within a transaction is felt outside it |
| `TxnStack.RollbackRestores` | src/ledger/LedgerTxn.cpp:1114-1126 | open a child, do anything within it, roll it back: the parent's map, header and consistency are as before |
| `TxnStack.CommitTransfers` | src/ledger/LedgerTxn.cpp:217-288 | open a child, do anything within it, commit it: the parent has the child's sealed map and header, nothing else changes; with a grandchild open the commit fails |
| `TxnLaws.GetLaw` | src/ledger/LedgerTxn.cpp:872-881 | asking changes nothing, and the root answers from the store |
| `TxnLaws.CreateLaw` | src/ledger/LedgerTxn.cpp:296-321 | creating fails exactly if the key can be seen, and then changes nothing; otherwise the entry can be seen and written afterwards and nothing else changes |
| `TxnLaws.CreateOrUpdateLaw` | src/ledger/LedgerTxn.cpp:329-346 | fails exactly if the key is handed out; otherwise the entry can be seen afterwards, is not handed out, and nothing else changes |
| `TxnLaws.LoadLaw` | src/ledger/LedgerTxn.cpp:929-958 | fails exactly if the key is handed out; otherwise answers what asking answers and, if that is an entry, hands it out for writing |
| `TxnLaws.LoadWithoutRecordLaw` | src/ledger/LedgerTxn.cpp:1081-1105 | the same, but the entry cannot be written and the transaction does not come to hold it |
| `TxnLaws.EraseLaw` | src/ledger/LedgerTxn.cpp:387-430 | fails exactly if the key cannot be seen; otherwise it cannot be seen afterwards and is not handed out, and nothing else changes |
| `TxnLaws.EraseWithoutLoadingLaw` | src/ledger/LedgerTxn.cpp:438-469 | never fails; the key cannot be seen afterwards and nothing else changes |
| `TxnLaws.BlindLaw` | src/ledger/LedgerTxn.cpp:438-469 | after it the transaction can be sealed, but not where exact changes are asked for |
| `TxnLaws.ExactLaw` | src/ledger/LedgerTxn.cpp:296-430 | no other edit takes exactness away or gives it |
| `TxnLaws.AssignLaw` | src/ledger/LedgerTxn.cpp:929-958 | what is written through a handed-out entry is what can be seen; nothing else changes |
| `TxnLaws.DeactivateLaw` | src/ledger/LedgerTxn.cpp:354-363 | what is given back can still be seen and is no longer handed out |
| `TxnLaws.HeaderLaw` | src/ledger/LedgerTxn.cpp:1019-1035 | the header is handed out once at a time and can be written exactly while it is |
| `TxnLaws.ParentLaw` | src/ledger/LedgerTxn.cpp:168-181 | while a transaction has a child, nothing but asking and rolling back succeeds on it |
| `TxnLaws.OpenLaw` | src/ledger/LedgerTxn.cpp:168-181 | a child sees what its parent sees, has nothing handed out, and what the parent has handed out is withdrawn; the root has one child at most |
| `TxnLaws.RollbackLaw` | src/ledger/LedgerTxn.cpp:1114-1126 | everything around the transaction is as it was |
| `TxnLaws.SealLaw` | src/ledger/LedgerTxn.cpp:1164-1217 | sealing ends all editing, is done once, and stamps exactly the entries that the transaction holds |
| `TxnLaws.CommitLaw` | src/ledger/LedgerTxn.cpp:217-288 | the parent then sees what the sealed child saw, holds what either held and still exists, and is exact if and only if both were |
| `TxnLaws.CommitToRootLaw` | src/ledger/LedgerTxn.cpp:1410-1452 | the store then has what the sealed child saw |
| `TxnLaws.HeldLaw` | src/ledger/LedgerTxn.cpp:296-958 | a transaction comes to hold an entry by creating, updating and loading only, and ceases to by erasing only |
| `BulkApply.Accumulator.Accumulate` | src/ledger/LedgerTxn.cpp:1323-1353 | just that key becomes pending, in the upserts or the deletes of its type |
| `BulkApply.Accumulator.BulkApply` | src/ledger/LedgerTxn.cpp:1355-1408 | exactly the buffers over the threshold are written and emptied, the others stay; the store gets exactly the entries that leave the buffers; an error exactly if a row to delete is missing |
| `BulkApply.BulkDelete` | src/ledger/LedgerTxnAccountSQL.cpp:432-470 | the rows go; under exact consistency it is an error exactly when a row was missing |
| `BulkApply.CommitToStore` | src/ledger/LedgerTxn.cpp:1410-1452 | whatever the order of the entries and the batches, the store becomes the store overlaid with the changes; for an exact transaction it is an error exactly if some erased key has no row |
| `LedgerTxn.LedgerTxns.GetNewestVersion` | src/ledger/LedgerTxn.cpp:872-881 | through any depth and the cache, the entry that the map of that depth has |
| `LedgerTxn.LedgerTxns.RootGetNewestVersion` | src/ledger/LedgerTxn.cpp:1748-1792 | the cached or loaded entry is the stored one, and the cache stays an image of the store |
| `LedgerTxn.LedgerTxns.PutInEntryCache` | src/ledger/LedgerTxn.cpp:1842-1856 | the cache stays an image of the store, whatever it evicts |
| `LedgerTxn.LedgerTxns.Create` | src/ledger/LedgerTxn.cpp:296-321 | the call on the stack of maps, whose laws are `TxnLaws.CreateLaw`: the key gets the entry and becomes active, or it is an error if it exists |
| `LedgerTxn.LedgerTxns.CreateOrUpdateWithoutLoading` | src/ledger/LedgerTxn.cpp:329-346 | the key gets the entry, or it is an error if it is active |
| `LedgerTxn.LedgerTxns.Load` | src/ledger/LedgerTxn.cpp:929-958 | the visible entry, now recorded and active; nothing if there is none; an error if it is active |
| `LedgerTxn.LedgerTxns.LoadWithoutRecord` | src/ledger/LedgerTxn.cpp:1081-1105 | the visible entry, without being recorded |
| `LedgerTxn.LedgerTxns.Erase` | src/ledger/LedgerTxn.cpp:387-430 | the key goes; an error if it is not visible |
| `LedgerTxn.LedgerTxns.EraseWithoutLoading` | src/ledger/LedgerTxn.cpp:438-469 | the key goes and the transaction is no longer exact |
| `LedgerTxn.LedgerTxns.LoadHeader` | src/ledger/LedgerTxn.cpp:1019-1035 | the header becomes active, or an error if it is |
| `LedgerTxn.LedgerTxns.Deactivate` | src/ledger/LedgerTxn.cpp:354-363 | the key is no longer active, or an error if it was not |
| `LedgerTxn.LedgerTxns.DeactivateHeader` | src/ledger/LedgerTxn.cpp:371-379 | the same for the header |
| `LedgerTxn.LedgerTxns.UnsealHeader` | src/ledger/LedgerTxn.cpp:1146-1162 | of a sealed transaction the header alone changes |
| `LedgerTxn.LedgerTxns.Open` | src/ledger/LedgerTxn.cpp:168-181 | the child starts with the parent's map and header and the parent's handed-out entries are withdrawn; an error if there is a child or the parent is sealed |
| `LedgerTxn.LedgerTxns.Rollback` | src/ledger/LedgerTxn.cpp:1114-1126 | the transaction and all within it are gone, the rest as it was |
| `LedgerTxn.LedgerTxns.StampEntries` | src/ledger/LedgerTxn.cpp:1164-1189 | every held entry gets the header's ledger number, if the transaction stamps at all |
| `LedgerTxn.LedgerTxns.Seal` | src/ledger/LedgerTxn.cpp:1191-1217 | stamped and sealed once, with everything handed out withdrawn; an error where exactness is needed and missing |
| `LedgerTxn.LedgerTxns.JoinChild` | src/ledger/LedgerTxn.cpp:247-288 | the parent's changes become those that give the child's map, and an erased key is kept only if it exists further out |
| `LedgerTxn.LedgerTxns.Commit` | src/ledger/LedgerTxn.cpp:217-225 | the parent, or the store, has the child's sealed map and header |
| `LedgerTxn.LedgerTxns.CommitToRoot` | src/ledger/LedgerTxn.cpp:1410-1452 | store and header are the sealed transaction's, the caches stay images of the store, and no delete fails |
| `LedgerTxn.LedgerTxns.DeleteModifiedOnOrAfter` | src/ledger/LedgerTxn.cpp:1521-1535 | exactly the entries stamped before the ledger stay; an error with a child |
| `LedgerTxn.LedgerTxns.Perform` | src/ledger/LedgerTxn.cpp:168-1217 | every call at every depth has the result and the effect that it has on the stack of maps, errors included |
| `LedgerTxn.LedgerTxns.RunCalls` | src/ledger/LedgerTxn.cpp:168-1217 | every program of calls leaves the stack of maps, and returns and fails, exactly as the stack of maps does |
| `LedgerTxn.JoinEntries` | src/ledger/LedgerTxn.cpp:247-288 | joining the child's changes into the parent's gives the child's map over what is below, and keeps exactness |
| `LedgerChanges.GetLiveEntries` | src/ledger/LedgerTxn.cpp:848-864 | exactly the held live entries, stamped, each once |
| `LedgerChanges.GetDeadEntries` | src/ledger/LedgerTxn.cpp:619-637 | exactly the erased keys, each once; an error without exactness |
| `LedgerChanges.GetDelta` | src/ledger/LedgerTxn.cpp:645-665 | each held key with what it is now and what it was below, never both absent |
| `LedgerChanges.GetChanges` | src/ledger/LedgerTxn.cpp:570-611 | reading the list of changes over the parent's map gives the transaction's map: each key is settled once, a new entry by its creation alone, any other by its state directly followed by its update or removal |
| `OfferTable.SelectRows` | src/ledger/LedgerTxnOfferSQL.cpp:67-95 | exactly the offers of the asset pair, in the order of the query |
| `OfferTable.RowsFollowOffers` | src/ledger/LedgerTxnOfferSQL.cpp:98-125 | the order of the query agrees with the comparison of offers in memory |
| `BestOffer.BestUnique` | src/ledger/LedgerTxnOfferSQL.cpp:98-125 | where offer numbers are unique there is one best offer |
| `BestOffer.BestIsCheapest` | src/ledger/LedgerTxnOfferSQL.cpp:98-125 | no eligible offer has a lower price than the best one, nor the same price and a lower number |
| `BestOffer.FindIncludedOffer` | src/ledger/LedgerTxn.cpp:1602-1616 | the first row that is not excluded, or none |
| `BestOffer.CachedFor` | src/ledger/LedgerTxn.cpp:1858-1880 | the cached rows are a beginning of the sorted rows |
| `BestOffer.RootBestOffer` | src/ledger/LedgerTxn.cpp:1618-1666 | the best offer of the store that is not excluded, found through a cache that grows in batches and stays a beginning of the sorted rows |
| `BestOffer.BestOfBoth` | src/ledger/LedgerTxn.cpp:506-562 | the better of a transaction's own best and its parent's best, with the own offers excluded, is the best of all |
| `BestOffer.GetBestOffer` | src/ledger/LedgerTxn.cpp:506-562 | at any depth, of all matching offers visible there that were not excluded the one with the lowest price, and of those the one with the lowest number |
| `BestOffer.LoadBestOffer` | src/ledger/LedgerTxn.cpp:1001-1011 | the best visible offer is loaded, or none, or the error of loading |
| `BestOffer.RunQueries` | src/ledger/LedgerTxn.cpp:1618-1666 | through every run of queries, edits, commits, rollbacks and deletions both caches stay images of the store and every answer is the best offer of its moment |
| `Inflation.AnswerUnique` | src/ledger/LedgerTxn.cpp:752-783 | if votes are asked for at all, there is one right list of winners |
| `Inflation.TotalChange` | src/ledger/LedgerTxn.cpp:693-727 | changing one entry moves a total by the difference of its votes |
| `Inflation.VoteLaw` | src/ledger/LedgerTxn.cpp:693-727 | an account votes with its whole balance if that is at least 1000000000, for its one destination, and not otherwise |
| `Inflation.EnumerateInflationWinners` | src/ledger/LedgerTxn.cpp:752-783 | the destinations with enough votes, by descending votes and then descending text, up to the number asked for |
| `Inflation.GetTotalVotes` | src/ledger/LedgerTxn.cpp:729-750 | the parent's winners with their changes, and new destinations with enough votes of their own |
| `Inflation.MissedOnlyIfCut` | src/ledger/LedgerTxn.cpp:785-826 | a rising destination is missed only if the parent's list was full |
| `Inflation.CombinedAnswers` | src/ledger/LedgerTxn.cpp:785-826 | if none is missed, combining the parent's right answer gives the right answer |
| `Inflation.RightIffMissedOut` | src/ledger/LedgerTxn.cpp:785-826 | over a right answer of the parent, the combined answer is right if and only if each missed destination is outside the top anyway |
| `InflationWinners.GetDeltaVotes` | src/ledger/LedgerTxn.cpp:693-727 | for each destination touched, the total after less the total before |
| `InflationWinners.LoadInflationWinners` | src/ledger/LedgerTxnAccountSQL.cpp:98-129 | the root's list is the right one, by descending votes and then descending text |
| `InflationWinners.Widen` | src/ledger/LedgerTxn.cpp:788-815 | how many winners and how few votes the parent is asked for; an error exactly on overflow |
| `InflationWinners.GetInflationWinners` | src/ledger/LedgerTxn.cpp:785-826 | at any depth the list is one that the layers compute from the root's right list, and it is an error exactly when some layer overflows |
| `InflationWinners.ListedIffNotBeaten` | src/ledger/LedgerTxn.cpp:785-826 | with enough votes, a destination is in the right list if and only if fewer than the wanted number rank higher |
| `InflationWinners.RightIfNothingMissed` | src/ledger/LedgerTxn.cpp:785-826 | over any stack: right if at no depth a destination rises that too many outrank in the parent |
| `InflationWinners.RightIfNoneCut` | src/ledger/LedgerTxn.cpp:785-826 | over any stack: right if no parent's list is cut off |
| `InflationWinners.NoRiseNothingMissed` | src/ledger/LedgerTxn.cpp:785-826 | where totals only fall, nothing is missed |
| `InflationWinners.RightIff` | src/ledger/LedgerTxn.cpp:785-826 | at any depth over a right answer of the parent: right if and only if every destination that rises unseen is outside the top |
| `InflationWinners.OneTransactionRightIff` | src/ledger/LedgerTxn.cpp:785-826 | one transaction over the store: the same, as a condition on votes alone |
| `InflationWinners.WrongWhenMissed` | src/ledger/LedgerTxn.cpp:785-826 | a store of three accounts and a transaction with a fourth for which every computed answer is wrong |
| `LedgerClose.FreshBatch` | src/bucket/Bucket.cpp:148-176 | the bucket of a sealed transaction's live and dead entries denotes its changes |
| `LedgerClose.LedgerClosed` | src/ledger/LedgerManagerImpl.cpp:1035-1048 | the batch goes to the bucket list and the changes to the store exactly when the transaction can be closed; the batch is what was touched, live, and what was removed, dead; otherwise neither changes |
| `LedgerClose.StartNewLedger` | src/ledger/LedgerManagerImpl.cpp:195-218 | the first ledger holds the root account, stamped 1, in store and list alike |
| `LedgerClose.CloseLedger` | src/ledger/LedgerManagerImpl.cpp:745-884 | after any transactions the ledger is closed exactly when nothing is left open, the batch and the next state are those that the stack of maps decides, and store, list and header stay in step |
| `LedgerClose.CloseMore` | src/ledger/LedgerManagerImpl.cpp:745-884 | over any further ledgers the batches are a function of store, header and inputs, and store, list and header stay in step |
| `LedgerClose.CloseLedgers` | src/ledger/LedgerManagerImpl.cpp:745-884 | across every sequence of ledgers from the first the store equals the flat view of the bucket list |
| `CatchupRange.MaskIsDivide` | src/history/HistoryManagerImpl.cpp:99-113 | the program's division and multiplication round down to a multiple |
| `CatchupRange.FilesPartition` | src/history/HistoryManagerImpl.cpp:93-113 | a ledger is between the first and the last ledger of a checkpoint's file if and only if that is the checkpoint that contains it |
| `CatchupRange.NoGap` | src/catchup/CatchupWork.cpp:433-505 | between the last closed ledger and the range nothing is left out: with buckets the start is a checkpoint beyond it, without them the first file begins no later than the next ledger |
| `CatchupRange.StartClose` | src/catchup/CatchupWork.cpp:433-505 | the start reaches back far enough, and less than one checkpoint further |
| `CatchupRange.RangeHoldsEnough` | src/catchup/CatchupWork.cpp:424-505 | the range holds at least as many ledgers as were asked for, one at least, as far as the node lacks them, and less than a checkpoint more |
| `CatchupRange.StartPositive` | src/catchup/CatchupWork.cpp:433-466 | the range never begins at ledger 0 |
| `VerifyChain.ChainsAgree` | src/catchup/VerifyLedgerChainWork.cpp:18-50 | two linked chains with the same trusted end agree as far back as both go |
| `VerifyChain.ChainUnique` | src/catchup/VerifyLedgerChainWork.cpp:18-50 | chains with the same first ledger and trusted end are equal |
| `VerifyChain.SuccessIsChain` | src/catchup/VerifyLedgerChainWork.cpp:127-349 | success means one gap-free linked chain with right hashes, from the first header of the first file to the end of the range, agreeing with the last closed ledger and the trusted hash |
| `VerifyChain.Refused` | src/catchup/VerifyLedgerChainWork.cpp:127-253 | an entry is refused for its version, as too early, as too late or for its hash exactly in these cases, in this order |
| `VerifyChain.SuccessIff` | src/catchup/VerifyLedgerChainWork.cpp:127-349 | whatever the files, the verification succeeds if and only if each file, as far as it is read, is a chain that agrees with the last closed ledger and ends where it has to, at the trusted end or right before the file after it |
| `VerifyChain.TidySuccessIff` | src/catchup/VerifyLedgerChainWork.cpp:127-349 | files of which only the last holds the last ledger pass, and are what was verified, if and only if each is there and together they are a chain to the trusted end |
| `VerifyChain.SuccessIsFilesIffTidy` | src/catchup/VerifyLedgerChainWork.cpp:127-291 | the joined files are that chain if and only if no file but the last holds the last ledger of the range |
| `VerifyChain.SuccessIsTrusted` | src/catchup/VerifyLedgerChainWork.cpp:127-349 | on success each header read from the files hashes right, is not beyond the range, and has the trusted hash if it is the last, even where the files do not join |
| `VerifyChain.UntidyCanPass` | src/catchup/VerifyLedgerChainWork.cpp:127-291 | two files that are no chain and pass |
| `VerifyChain.PassingFilesAgree` | src/catchup/VerifyLedgerChainWork.cpp:52-77 | with an injective hash, two sets of files that pass agree as far back as both go, and give equal chains if and only if they begin with the same ledger |
| `VerifyChain.StartNotChecked` | src/catchup/VerifyLedgerChainWork.cpp:127-291 | two sets of files that pass and begin with different ledgers |
| `VerifyChainWork.MakeTask` | src/catchup/VerifyLedgerChainWork.cpp:79-126 | the checkpoints of a range are valid, and the last ends the range |
| `VerifyChainWork.Work.VerifySingle` | src/catchup/VerifyLedgerChainWork.cpp:127-291 | one file, read header by header, is judged as the pure reading judges it |
| `VerifyChainWork.Work.Run` | src/catchup/VerifyLedgerChainWork.cpp:293-349 | the whole work, last checkpoint to first, ends with the pure outcome |
| `VerifyChainWork.Verify` | src/catchup/VerifyLedgerChainWork.cpp:79-349 | success exactly if each file passes; on success a linked chain up to the trusted end, which is the joined files if and only if they are tidy |
| `BucketApplicator.ApplyFileIsBatch` | src/bucket/BucketApplicator.cpp:39-68 | applying a file entry by entry is applying the bucket it denotes |
| `BucketApplicator.ResumeAt` | src/bucket/BucketApplicator.cpp:55-64 | resuming at the entry applied last does no harm |
| `BucketApplicator.Applicator.Advance` | src/bucket/BucketApplicator.cpp:39-68 | 4096 entries, or all that are left if fewer, are applied and committed; the next batch begins with the last of 4096; what is left completes the same change |
| `ApplyBuckets.StartAtSnap` | src/catchup/ApplyBucketsWork.cpp:100-136 | deleting what is stamped from a differing snap's first ledger on and applying from there gives the target's state |
| `ApplyBuckets.StartAtCurr` | src/catchup/ApplyBucketsWork.cpp:100-136 | the same for a differing curr |
| `ApplyBuckets.DifferingSnap` | src/bucket/BucketList.cpp:267-284 | a snap that differs has absorbed a ledger, so its first ledger is a number and not the largest one |
| `ApplyBuckets.WalkGivesTarget` | src/catchup/ApplyBucketsWork.cpp:100-247 | if the node has all ledgers that the skipped buckets absorbed, the walk brings its store to the target's state |
| `ApplyBuckets.SkippedSameSuffices` | src/catchup/ApplyBucketsWork.cpp:100-136 | the node has all those ledgers if each skipped bucket absorbed the same ones on both sides |
| `ApplyBuckets.RunUpTo` | src/bucket/BucketList.cpp:328-423 | no bucket or pending merge of a list holds an entry stamped after the last closed ledger |
| `ApplyBuckets.TargetKept` | src/catchup/ApplyBucketsWork.cpp:100-247 | from whatever earlier ledger, the walk neither loses nor changes an entry of the target; only a leftover entry can go wrong |
| `ApplyBuckets.WalkRightIff` | src/catchup/ApplyBucketsWork.cpp:100-247 | the walk brings the store to the target's state if and only if each entry that is to go, and that deleting leaves, is mentioned by an applied bucket |
| `ApplyBuckets.WalkWrongWhenSkippedDiffer` | src/catchup/ApplyBucketsWork.cpp:100-136 | a history of six ledgers on two levels in which a skipped bucket absorbed different ledgers, and a removed account stays |
| `ApplyBucketsWork.Work.OnStart` | src/catchup/ApplyBucketsWork.cpp:100-136 | a level is skipped if nothing was applied and neither bucket differs; the outcome stays what the whole walk says |
| `ApplyBucketsWork.Work.OnRun` | src/catchup/ApplyBucketsWork.cpp:138-157 | snap is finished before curr is touched; the outcome stays |
| `ApplyBucketsWork.Work.OnSuccess` | src/catchup/ApplyBucketsWork.cpp:206-247 | again while entries are left, then the next level, and success with the outcome reached |
| `ApplyBucketsWork.Work.Run` | src/catchup/ApplyBucketsWork.cpp:100-247 | all callbacks end, with the store that the whole walk makes of the first one |
| `ApplyBucketsWork.ApplyAll` | src/catchup/ApplyBucketsWork.cpp:100-247 | from a node at any earlier ledger of the same history: the walk's store; the target's state if the node has all ledgers of the skipped buckets, and if and only if every leftover is mentioned |
| `Rejoin.TakeHeader` | src/ledger/LedgerManagerImpl.cpp:651-661 | the root gets the verified header and its entries stay as they are |
| `Rejoin.CatchUp` | src/catchup/ApplyBucketsWork.cpp:206-247 | after applying buckets and assuming the saved state the list is the target's; store and list are in step at the target if and only if every leftover is mentioned |
| `Rejoin.CatchUpAndClose` | src/catchup/CatchupWork.cpp:299-384 | such a node then closes the same batches as one that never left, and has its store, header and buckets at every later ledger |
| `LedgerManager.StepOk` | src/ledger/LedgerManagerImpl.cpp:384-722 | every event keeps the invariant: state, sub-state, buffer, trigger and work fit together, buffered ledgers are consecutive, and no assert fails |
| `LedgerManager.RunOk` | src/ledger/LedgerManagerImpl.cpp:384-722 | in every run from boot the invariant holds and the last closed ledger never goes back |
| `LedgerManager.VerifiedFilesRun` | src/catchup/CatchupWork.cpp:299-384 | every run whose catchups take their headers from files that passed verification for their target is such a run |
| `LedgerManager.LastAppliedIsLCL` | src/ledger/LedgerManagerImpl.cpp:630-687 | when a catchup reports its end, the header it applied last is the last closed one, for an injective hash, retries included |
| `LedgerManager.FinishedFits` | src/ledger/LedgerManagerImpl.cpp:630-722 | at the end of a catchup the last closed ledger fits under the first buffered one if and only if replaying the target did not close it with another hash; otherwise the next step throws |
| `LedgerManager.FinishedWithWrongHash` | src/catchup/ApplyLedgerChainWork.cpp:115-230 | a run in which it does not fit |
| `LedgerManager.WrongHashFromVerifiedFiles` | src/catchup/ApplyLedgerChainWork.cpp:115-230 | the headers of that run come from files that pass verification |
| `ManagerLaws.NextLedgerSyncs` | src/ledger/LedgerManagerImpl.cpp:384-481 | unless ledgers are being buffered, the next ledger built on the last closed one is closed and the node is in sync; nothing else changes |
| `ManagerLaws.OtherLedgersRefused` | src/ledger/LedgerManagerImpl.cpp:444-481 | an old ledger changes nothing, and the next one built on another ledger is an exception |
| `ManagerLaws.CheckpointIsLeast` | src/history/HistoryManagerImpl.cpp:99-113 | the trigger is one past the least multiple of the frequency that is not below the ledger |
| `ManagerLaws.LaterLedgerStarts` | src/ledger/LedgerManagerImpl.cpp:384-442 | a later ledger is kept and starts catching up, to be triggered after the end of its checkpoint |
| `ManagerLaws.BufferingKeeps` | src/ledger/LedgerManagerImpl.cpp:483-506 | while buffering exactly the ledger after the last kept one is kept; at the trigger, and not before, a catchup begins to just before the first kept ledger with the hash that this one names |
| `ManagerLaws.PostedLaw` | src/ledger/LedgerManagerImpl.cpp:689-722 | one kept ledger is taken and closed, an exception exactly if it was built on another; the last one leaves the node waiting |
| `ManagerLaws.BucketsLaw` | src/ledger/LedgerManagerImpl.cpp:651-661 | the last closed ledger becomes the verified one, unless that is older, which is an exception |
| `ManagerLaws.ReplayLaw` | src/catchup/ApplyLedgerChainWork.cpp:53-68 | a replay starts, and is retried at most five times, from the last closed ledger |
| `ManagerLaws.HeaderLaw` | src/catchup/ApplyLedgerChainWork.cpp:115-255 | a header is skipped, closed or refused by number and hash; it fails exactly if it is neither knit in nor closed with its hash |
| `ManagerLaws.FileLaw` | src/catchup/ApplyLedgerChainWork.cpp:238-270 | at the end of a file the replay is done exactly if the target is the last closed ledger |
| `ManagerLaws.EndLaw` | src/ledger/LedgerManagerImpl.cpp:630-687 | a failed catchup drops the kept ledgers and leaves the node booting; a finished one goes on with them |
| `ManagerLaws.NoWorkLaw` | src/ledger/LedgerManagerImpl.cpp:630-687 | without a catchup its events change nothing |
| `ManagerLaws.CatchupEndsInSync` | src/ledger/LedgerManagerImpl.cpp:508-722 | from the end of a replay, with kept ledgers that fit on it and on each other, the posted closes and then the next ledger bring the node in sync |
| `ManagerLaws.UnspoiltCatchupSyncs` | src/ledger/LedgerManagerImpl.cpp:384-722 | in every run from boot a catchup that finishes unspoilt, with kept ledgers built on each other, ends in sync with the next ledger of the network |
| `LedgerManagerObject.Manager.SetState` | src/ledger/LedgerManagerImpl.cpp:135-151 | the new state, and no sub-state outside catching up |
| `LedgerManagerObject.Manager.SetCatchupState` | src/ledger/LedgerManagerImpl.cpp:153-158 | the new sub-state while catching up |
| `LedgerManagerObject.Manager.Bootstrap` | src/ledger/LedgerManagerImpl.cpp:129-133 | a node that starts a network of its own is in sync, and nothing else changes |
| `LedgerManagerObject.Manager.CloseLedger` | src/ledger/LedgerManagerImpl.cpp:745-884 | the next ledger over the last closed one, or an exception exactly when the set was built on another |
| `LedgerManagerObject.Manager.CloseLedgerIf` | src/ledger/LedgerManagerImpl.cpp:444-481 | closed, ignored as old, or too new, by number; an exception on a wrong previous hash |
| `LedgerManagerObject.Manager.ContinueCatchup` | src/ledger/LedgerManagerImpl.cpp:499-506 | the ledger is buffered if it is the next one, and catchup is started when its time has come |
| `LedgerManagerObject.Manager.FinalizeCatchup` | src/ledger/LedgerManagerImpl.cpp:508-534 | the ledger right after the last closed one is closed and the node is in sync; a later one sends it back to catching up; an older one is ignored |
| `LedgerManagerObject.Manager.ValueExternalized` | src/ledger/LedgerManagerImpl.cpp:384-442 | the state machine's step for an externalized value, in each state, with the laws of `ManagerLaws` |
| `LedgerManagerObject.Manager.ResetReplay` | src/catchup/ApplyLedgerChainWork.cpp:53-68 | a retry starts from the last closed ledger |
| `LedgerManagerObject.Manager.ApplyHistoryOfSingleLedger` | src/catchup/ApplyLedgerChainWork.cpp:115-230 | an old header is skipped if it knits, the next one is closed and compared, anything else fails |
| `LedgerManagerObject.Manager.RunOnHeader` | src/catchup/ApplyLedgerChainWork.cpp:238-255 | the replay goes on, ends at the target, or fails |
| `LedgerManagerObject.Manager.CatchupFinished` | src/ledger/LedgerManagerImpl.cpp:630-687 | the state machine's step for the end of a catchup |
| `LedgerManagerObject.Manager.ApplyBufferedLedgers` | src/ledger/LedgerManagerImpl.cpp:689-722 | with ledgers buffered one callback is posted; with none left the node waits for the closing ledger |
| `LedgerManagerObject.Manager.Handle` | src/ledger/LedgerManagerImpl.cpp:384-722 | every event has the effect of the state machine's step |
| `LedgerManagerObject.HandleAll` | src/ledger/LedgerManagerImpl.cpp:384-722 | every run of the object is a run of states that keeps the invariant, and stops only where an exception ends it |
| `TxSet.TxSetFrame.Add` | src/herder/TxSetFrame.h:59-64 | the transaction comes last, and no outdated contents hash stays valid |
| `TxSet.TxSetFrame.SortForHash` | src/herder/TxSetFrame.cpp:54-61 | the same transactions by ascending hash |
| `TxSet.TxSetFrame.GetContentsHash` | src/herder/TxSetFrame.cpp:341-357 | the hash of the previous ledger's hash and of the list in hash order, cached or not |
| `TxSet.TxSetFrame.SetPreviousLedgerHash` | src/herder/TxSetFrame.cpp:359-364 | the previous ledger's hash changes and no outdated contents hash stays valid |
| `TxSet.TxSetFrame.RemoveTx` | src/herder/TxSetFrame.cpp:332-339 | that transaction goes and the order stays |
| `TxSet.TxSetFrame.TrimAccount` | src/herder/TxSetFrame.cpp:197-255 | of one account exactly what checking in order rejects, and all of it if the account cannot pay |
| `TxSet.AllKept` | src/herder/TxSetFrame.cpp:197-255 | everything is kept if and only if everything is valid in order |
| `TxSet.KeptIff` | src/herder/TxSetFrame.cpp:197-255 | checking in order keeps a transaction if and only if it is valid after the last one kept before it |
| `TxSetBuild.CheckValid` | src/herder/TxSetFrame.cpp:285-330 | true exactly for the acceptable sets: right previous hash, few enough, in hash order, no transaction twice, every account's chain valid and paid for |
| `TxSetBuild.GoodIffChain` | src/herder/TxSetFrame.cpp:220-252 | an account passes exactly when it repeats no transaction and its chain is good, since a repeated one is not valid after itself |
| `TxSetBuild.TrimInvalid` | src/herder/TxSetFrame.cpp:257-283 | in hash order, of each account exactly what a pass in order of sequence numbers keeps, so that every account's chain is good; the result lists exactly the others |
| `TxSetBuild.GoodLosesNothing` | src/herder/TxSetFrame.cpp:197-255 | trimming takes nothing from an account whose chain is good |
| `TxSetBuild.RestsIff` | src/herder/TxSetFrame.cpp:197-255 | if trimming leaves anything of an account, it leaves exactly the transactions that are valid after the last one left before them |
| `TxSetBuild.NoneRests` | src/herder/TxSetFrame.cpp:197-255 | it leaves nothing only if nothing is valid, or the account cannot pay for what is |
| `TxSetBuild.AccountFees` | src/herder/TxSetFrame.cpp:170-185 | for each account one of its fee ratios, and the lowest if all fees are positive |
| `TxSetBuild.EarlierIsKept` | src/herder/TxSetFrame.cpp:139-156 | of one account, what surge pricing keeps comes before what it drops |
| `TxSetBuild.SurgePricingFilter` | src/herder/TxSetFrame.cpp:158-195 | nothing changes if there are few enough; otherwise exactly the maximum stays, in the same order; an account whose transaction went has no higher fee ratio than one whose transaction stays, on a tie a higher id, and of one account the later sequence numbers go; every good account stays good |
| `TxSetBuild.Propose` | src/herder/HerderImpl.cpp:738-747 | a set built on the last closed ledger, trimmed and filtered, is always accepted, so the herder never throws there; a set that is good and small enough loses nothing |
| `TxSetApply.SortForApply` | src/herder/TxSetFrame.cpp:94-137 | a rearrangement of the set in apply order, mixed with the set's own contents hash |
| `TxSetApply.AccountsAscend` | src/herder/TxSetFrame.cpp:94-137 | in apply order each account's sequence numbers ascend |
| `TxSetApply.OrderMeans` | src/herder/TxSetFrame.cpp:63-137 | in apply order each account's sequence numbers ascend, and transactions with equally many before them in their accounts ascend by hash, mixed with the set's hash |
| `TxSetApply.ApplyOrderCanonical` | src/herder/TxSetFrame.cpp:63-137 | for one mixing hash the apply order depends on the set only, not on how it was listed |
| `TxSetApply.HashOrderCanonical` | src/herder/TxSetFrame.cpp:54-61 | so does the list that the set's hash is taken of |
| `TxSetApply.XorInjective` | src/util/types.cpp:69-80 | mixing keeps different hashes different |
| `TxSetApply.SetDecidesOrder` | src/herder/TxSetFrame.cpp:63-137 | however two nodes list the same set, they get the same contents hash and the same apply order |

## Findings

Properties that one might expect and that the code does not have. Each has an input, and the condition
under which the property does hold.

- **A finished catchup can leave the wrong ledger last closed.** When replaying the last ledger of a catchup
  closes it with a hash other than the verified one, the work fails, but the ledger stays closed
  (src/catchup/ApplyLedgerChainWork.cpp:115-230). The retry starts from that ledger, finds nothing to
  do and succeeds. `LedgerManager.FinishedWithWrongHash` is such a run. `LedgerManager.FinishedFits`: the
  last closed ledger fits under the first buffered one if and only if no such mismatch happened during this
  catchup; if it did, applying the first buffered ledger throws.
- **Verified files need not be one chain.** A file that reaches the last ledger of the range is compared with
  the trusted end only, not with the file after it (src/catchup/VerifyLedgerChainWork.cpp:127-291).
  `VerifyChain.UntidyCanPass` gives two files that pass and do not join.
  `VerifyChain.SuccessIsFilesIffTidy`: the joined files are the verified chain if and only if no file but the
  last holds the last ledger of the range. `VerifyChain.StartNotChecked`: where the first file starts is not
  checked; `VerifyChain.PassingFilesAgree` gives what is unique nevertheless.
- **Inflation winners can be wrong within a transaction.** A destination that rises may have been outside the
  winners that the parent was asked for (src/ledger/LedgerTxn.cpp:785-826). It is then counted with its
  increase alone, or not at all. `InflationWinners.WrongWhenMissed` gives a store and a transaction.
  `InflationWinners.OneTransactionRightIff` and `InflationWinners.RightIff`: the answer is right if and only
  if each destination that rises unseen is outside the top anyway. Over whole stacks
  `InflationWinners.RightIfNothingMissed` and `InflationWinners.RightIfNoneCut` are sufficient conditions.
- **Applying buckets can keep a removed entry.** A bucket is skipped when the local one has the same hash
  (src/catchup/ApplyBucketsWork.cpp:100-136), although at the last level, where tombstones are dropped, equal
  buckets may have absorbed different ledgers. `ApplyBuckets.WalkWrongWhenSkippedDiffer` gives a history.
  `ApplyBuckets.WalkRightIff`: the result is right if and only if each entry that is not in the target, and that
  deleting leaves, is mentioned by a bucket that is applied; the store and the two lists tell beforehand.
  `ApplyBuckets.TargetKept`: nothing of the target is ever lost.

## Left out

- InflationWinners.RightIfNothingMissed: one direction only over deeper stacks, where the errors of two layers may cancel; `RightIff` is exact above any right answer.
- FutureBucket.Object.Activate: requires the stored files to hold the buckets of the hashes they are named by; a corrupt file is not modelled.
- LevelSizes.SizeOfCurr: for lists of at least two levels; the program's list has 11.
- Machine integers: ledger numbers, balances and votes are unbounded; only the overflow checks that the program makes itself are modelled.
- SQL: each table is a map under the full ledger key; prepared statements, sessions and bulk statements are a fold over rows.
- Hashing and XDR: hash functions are parameters, injective only where a contract says so; files are sequences of entries.
- Threads: a background merge is a step that may happen at any time; the work framework is reduced to the callbacks and retries that matter.
- Prices and fee ratios are exact real numbers; the program divides doubles (src/ledger/LedgerTxnOfferSQL.cpp:109-110, src/herder/TxSetFrame.cpp:172-176), so two close ratios may compare equal there.
- Account identifiers and assets are numbers in their order; the text form of an account has an order of its own.
- std::sort is some sorting method; where it is not determined by the order the result is not either.
- Whether one transaction is valid, and what it does to entries, are parameters.
- Other queries of offers (by account, all offers), counting objects and the prefetching of entries: easy members over the same maps.
- Manual catchup, downloading and publishing files, metrics, and upgrades beyond their effect as calls on a child transaction.
- The overlay network, consensus (SCP) and the transaction operations themselves.
