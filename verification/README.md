# dbhelm: a verified model of its snapshot engine

dbhelm keeps git-like snapshots of databases, compares them, restores them, and shows and migrates schemas. This project
models the parts where much can go wrong at once and proves, in Dafny, what they promise. `dafny verify dfyconfig.toml`
checks everything.

**Sorting and diffing in bounded memory.** Workers deliver document refs in any order. `ExtSort` has the spill of sorted
runs and the k-way merge with its heap, `BoltStore` the chunked list in a byte-ordered key-value store, `Diff` the merge
join and `Compare` what is built on it, `Pipeline` the scan that feeds the whole. Each stage is proved to be a fast form
of one plain thing, a map from document ID to content per collection; `EndToEnd` composes them, so that Compare's counts
are the cardinalities of the differences of two database states.

**The life of a snapshot.** `Scope` has the durable state of one scope and the retention rule, `Gc` one
garbage-collection pass as the code runs it, `Publishing` the two other critical sections. `Protocol` puts Create, Tag and
GC side by side as processes with one durable effect per step, two locks, crashes between any two steps and recovery of
lock files. `Lifecycle` proves an invariant over all its runs, one lemma per step; `Durability` draws the consequences.
`Requests` ties what is published to what the calls were asked for, `Tags` a snapshot's manifest to its index line; `PassRefs`
follows the doc refs through a pass, `Locks` the two locks through crashes. `Progress` shows that what the calls are for can
always be reached.

**Restore.** `Restore` has the live database as an object that may fail at any operation, part-way through it as well,
and the restore on it. `SafeRestore` adds Create over a whole database, the safety snapshot and the rollback.

**Session cache.** `Sessions` is the state machine of `engine.Manager`, its sections under the mutex interleaved with the
opening and closing outside it; `SessionManager` is the class, each method proved to be one step of the machine.

**Three transformations.** `Encodings` and `SqlLiterals` print INSERT statements and read them back, `ErGraph` finds the
components of a foreign-key graph and lays them out, `Migration` and `MigrationEffect` diff two schemas and run the
script made from the diff. `ByteStrings`, `Decimals`, `DocRefs`, `Permutations` and `Options` are what the others
stand on.

SHA-256 is an injective function, zstd an inverse pair, JSON and BSON lossless; map iteration, goroutine scheduling,
faults of the database and the answers of a cancelled context are arbitrary. Time of creation is a number of which only
the order matters.

Where the code and its comments differ, the model follows the code:

* `internal/snapshot/scopelock.go:31-34` says bbolt's lock covers a Tag call. Tag opens no backend
  (`internal/snapshot/query.go:41-46`), so in `Protocol` it interleaves with a Create that is scanning.
* `internal/snapshot/restore.go:33-39` calls Touched a superset of Collections. Without Drop it stays empty while
  Collections grows (`internal/snapshot/restore.go:103-109`); `Restore.Restore` states both cases.
* `internal/snapshot/restore.go:134-149` promises to bring every touched collection back to its pre-restore state. A
  collection the failed restore created stays, and a bare empty one is dropped and not created again. Which collections
  are at risk can be told before the call, from the snapshot, its store and the target (`SafeRestore.CanMiss`): a rollback
  puts all others right (`SafeRestore.RestoreWithSafety`), and for each of these some failure makes it miss
  (`SafeRestore.RollbackMisses`). `LostRollback.Run` is one such call. Where the safety snapshot goes into the store the
  snapshot is restored from, the objects it adds count as stored.

Seven more results are about where a promise ends. A chunk list is read back in order up to one million chunks and not
beyond (`BoltStore.WriteThenRead`). Compare does not show that a collection without documents was created or dropped
(`EndToEnd.CompareIsStateDifference`). A pass that crashed while pruning can be rerun with the same keepLast, but a pass
that keeps a snapshot whose manifest is already gone cannot mark it, and fails every time
(`Durability.MarkNeedsManifests` has the exact condition, `StuckPass.AStuckPass` a run). What a pass keeps is determined
exactly if no untagged snapshot stands on the border of keepLast inside a group of equal times
(`Scope.ChoiceIsDetermined`); where it is, a crashed pass can be rerun to the same end (`Durability.RerunCanMark`,
`Durability.RerunReachesTarget`). A migration script that creates a table with a composite key is refused by the database
(`MigrationEffect.MigrationReachesTarget` has the exact condition, `MigrationEffect.CompositeKeyIsRefused` the case). A Tag
writes the manifest first and the index second; one that stops in between leaves the snapshot's manifest a tag ahead, and the
snapshot unprotected (`Tags.TagsAgree`). In the diagram a component that fills its last row is followed by a double gap
(`ErGraph.Layout`).

## Model

| member | source | states |
|---|---|---|
| `Decimals.ItoaPad` | internal/snapshot/extsort.go:92-100 | the run file name is the ten lowest decimal digits of the run number |
| `Decimals.RunNamesDistinct` | internal/snapshot/extsort.go:92-100 | run names are distinct for numbers below 10^10, and wrap after that |
| `Decimals.ParsePadded` | internal/snapshot/backend_bolt.go:139-141 | a "%06d" chunk number reads back to the same number, however many digits it needs |
| `Decimals.PaddedOrder` | internal/snapshot/backend_bolt.go:139-141 | byte order of padded numbers is numeric order while they fit the width |
| `Decimals.PaddedOrderBreaks` | internal/snapshot/backend_bolt.go:139-141 | the width of six is a tight bound: 1000000 sorts before 100001 |
| `DocRefs.SortById` | internal/snapshot/extsort.go:64 | sort.Slice by ID: an ascending arrangement of the same refs, ties in no promised order |
| `DocRefs.SameMap` | internal/snapshot/extsort.go:64 | with distinct IDs, reordering a list changes neither their distinctness nor the ID-to-hash map it stands for |
| `ExtSort.RunReader.Advance` | internal/snapshot/extsort.go:173-185 | each call moves exactly one ref along the run file, and ok says whether one is shown |
| `ExtSort.StoreRun` | internal/snapshot/extsort.go:66-88 | a spilled run adds exactly its refs to what the run files hold, and changes no earlier file |
| `ExtSort.HeapRootLeast` | internal/snapshot/extsort.go:187-194 | the root of a heap holds a least key |
| `ExtSort.SinkOneLevel` | internal/snapshot/extsort.go:187-205 | one sift-down step under the least child keeps the heap broken only at the sinking place |
| `ExtSort.SinkDone` | internal/snapshot/extsort.go:187-205 | when the sinking key is not above its least child, the heap order is whole again |
| `ExtSort.MergeHeap.Down` | internal/snapshot/extsort.go:187-205 | sift-down restores heap order from one place on and only permutes the runs |
| `ExtSort.MergeHeap.Init` | internal/snapshot/extsort.go:153-155 | heap.Init makes a heap of the opened runs |
| `ExtSort.MergeHeap.FixRoot` | internal/snapshot/extsort.go:220-221 | heap.Fix at the root restores heap order after its run advanced |
| `ExtSort.MergeHeap.Pop` | internal/snapshot/extsort.go:197-203 | heap.Pop removes the root and leaves a heap of exactly the others |
| `ExtSort.AdvanceFirst` | internal/snapshot/extsort.go:215-219 | advancing the top run takes exactly the ref it showed out of what remains |
| `ExtSort.RootIsLeast` | internal/snapshot/extsort.go:215-216 | the ref shown by the heap root is a minimum of all refs remaining in all runs |
| `ExtSort.MergeIterator.TakeRoot` | internal/snapshot/extsort.go:211-227 | one merge step delivers a minimum of the remaining refs, removes just it, and keeps the heap |
| `ExtSort.MergeIterator.Next` | internal/snapshot/extsort.go:211-227 | Next ends exactly when nothing remains, and otherwise delivers a minimum |
| `ExtSort.SortedIterator.Next` | internal/snapshot/extsort.go:108-156 | both kinds of iterator keep that contract |
| `ExtSort.Drain` | internal/snapshot/docrefstore.go:43-56 | draining an iterator gives a sorted permutation of exactly what remained |
| `ExtSort.ExtSortSpill.Add` | internal/snapshot/extsort.go:51-58 | the ref joins what was added; runs on disk never change |
| `ExtSort.ExtSortSpill.SpillBuffer` | internal/snapshot/extsort.go:60-90 | spilling moves the sorted buffer to a new run file and loses nothing |
| `ExtSort.ExtSortSpill.NewIterator` | internal/snapshot/extsort.go:108-156 | the iterator, over a copied buffer or the merged runs, has exactly the refs added so far |
| `ExtSort.EarlierIteratorUnaffected` | internal/snapshot/extsort.go:102-107 | an open iterator is undisturbed by anything that only adds run files |
| `ExtSort.RunScript` | internal/snapshot/extsort.go:51-227 | for every interleaving of Add and NewIterator and every run size, draining the iterators in the end gives each a sorted permutation of exactly the refs added before it was opened |
| `BoltStore.PrefixesDisjoint` | internal/snapshot/backend_bolt.go:139-149 | with NUL-free names a key lies under one manifest and one of its collections only |
| `BoltStore.ChunkKeyInjective` | internal/snapshot/backend_bolt.go:139-141 | different chunks of one list have different keys |
| `BoltStore.ChunkKeyOrder` | internal/snapshot/backend_bolt.go:139-141 | key order is chunk order for up to 1000000 chunks |
| `BoltStore.ChunkKeyOrderBreaks` | internal/snapshot/backend_bolt.go:139-141 | with one chunk more it is not |
| `ByteStrings.PrefixInterval` | internal/snapshot/backend_bolt.go:151-153 | the keys with one prefix are one stretch of the byte order, so a cursor can stop at the first key without it |
| `BoltStore.BoltBackend.PutMany` | internal/snapshot/backend_bolt.go:76-93 | afterwards every item has its object, present objects are kept as they were, nothing else appears, and the count is the growth of the key set |
| `BoltStore.BoltBackend.WriteDocRefs` | internal/snapshot/backend_bolt.go:158-195 | the list is cut into numbered chunks of 5000 |
| `BoltStore.BoltBackend.DeleteDocRefs` | internal/snapshot/backend_bolt.go:214-230 | exactly the keys under the manifest are deleted |
| `BoltStore.BoltDocRefIterator.constructor` | internal/snapshot/backend_bolt.go:202-212 | IterDocRefs opens on the whole stored list |
| `BoltStore.BoltDocRefIterator.Next` | internal/snapshot/backend_bolt.go:243-265 | the cursor walk delivers the list one ref at a time and ends where the prefix ends |
| `BoltStore.NextInList` | internal/snapshot/backend_bolt.go:243-254 | the cursor's next key either is the least one left of the list or shows that none is left |
| `BoltStore.DrainStored` | internal/snapshot/docrefstore.go:43-56 | draining the stored iterator gives exactly the stored list |
| `BoltStore.PutChunksOthers` | internal/snapshot/backend_bolt.go:158-195 | writing a list changes no other manifest's or collection's list |
| `BoltStore.WriteThenRead` | internal/snapshot/backend_bolt.go:158-265 | under a fresh prefix, what is read back is what was written exactly if it needs at most 1000000 chunks (5000000000 refs) |
| `BoltStore.DeleteThenRead` | internal/snapshot/backend_bolt.go:214-230 | after a deletion the manifest's lists are empty and all others unchanged |
| `Diff.MergeJoin` | internal/snapshot/diff.go:149-213 | the callback sees the event list in order: all of it when the join ends, a prefix when cancelled or when the callback refuses |
| `Diff.EventsAreChanges` | internal/snapshot/diff.go:159-210 | on strictly sorted lists there is an event exactly for each ID that differs, of the right kind |
| `Diff.EventsInOrder` | internal/snapshot/diff.go:143-148 | events come in strictly increasing ID order, so one per ID |
| `Diff.CountsAreCardinalities` | internal/snapshot/diff.go:124-141 | the number of events of a kind is the size of that part of the map difference |
| `Diff.NoEventsIffSameMap` | internal/snapshot/diff.go:143-213 | there are no events exactly if the two ID-to-hash maps are equal |
| `Diff.ReplayReachesTarget` | internal/snapshot/diff.go:143-213 | replaying the events on the from-map with the to-map's contents gives the to-map |
| `Diff.SwapSides` | internal/snapshot/diff.go:143-213 | swapping the sides swaps added and removed and changes nothing else |
| `Compare.DiffCollection` | internal/snapshot/diff.go:124-141 | the three counters count the events of each kind |
| `Compare.CollectionNames` | internal/snapshot/diff.go:74-88 | the union of the names, ascending, each once |
| `Compare.CompareSnapshots` | internal/snapshot/diff.go:96-119 | a run that is not cancelled reports exactly the collections with a non-empty diff |
| `Compare.CompareCountsMapDifferences` | internal/snapshot/diff.go:96-119 | for any sorted sources the reported counts are the cardinalities of the map differences, and the diff is empty exactly if all maps are equal |
| `Compare.StreamDiff` | internal/snapshot/diff.go:220-243 | the callback sees a prefix of the full stream; for sorted sources every change it sees is one between the two, told in order and each once, and a stream that is done has told all of them |
| `Compare.StreamHasChanges` | internal/snapshot/diff.go:220-243 | for sorted sources the full stream has a change exactly for each ID of a named collection that differs between the two ID-to-hash maps, of the right kind |
| `Compare.StreamInOrder` | internal/snapshot/diff.go:215-243 | the stream is in order of collection, then ID |
| `Compare.DiffCollectionPage` | internal/snapshot/diff.go:259-294 | the page is the slice of the filtered list at the offset and limit asked for, clamped; for sorted sources the total is the number of all changes of the kind, whichever page is asked for, and every event on the page is such a change |
| `Compare.PageHas` | internal/snapshot/diff.go:245-294 | where each event of a page comes from: the event that many places on in the filtered list |
| `Compare.WalkIsWhole` | internal/snapshot/diff.go:245-294 | paging on by the returned length, each page as it was asked for, reconstructs the filtered list |
| `Pipeline.ScanCollectionDocs` | internal/snapshot/pipeline.go:111-163 | for any results in any order: succeeds exactly if none failed; then every ref is spilled, docCount is the number of documents, every object is stored, and newObjects is the growth of the key set |
| `Pipeline.RefBagPermuted` | internal/snapshot/pipeline.go:48-98 | the order in which workers deliver does not matter |
| `Pipeline.SortedScan` | internal/snapshot/pipeline.go:21-26 | sorting what was spilled gives the one strictly sorted list of the collection's state |
| `Pipeline.ScannedIsReadable` | internal/snapshot/pipeline.go:126-163 | every document's content can be read back under its hash, also where the object was stored before |
| `EndToEnd.SnapshotCollection` | internal/snapshot/snapshotter.go:80-91 | workers, spill, merge and chunked write together record exactly the collection's ID-to-content map under the manifest |
| `EndToEnd.RecordsLast` | internal/snapshot/backend_bolt.go:158-230 | a recorded collection survives later snapshots and the deletion of other manifests |
| `EndToEnd.HashesTellStatesApart` | internal/snapshot/objectstore.go:88-94 | hash maps differ exactly where contents differ |
| `EndToEnd.UnwrittenIsEmpty` | internal/snapshot/backend_bolt.go:202-265 | a list nobody has written reads as that of a collection without documents |
| `EndToEnd.CompareIsStateDifference` | internal/snapshot/diff.go:96-119 | end to end, Compare of two recorded states over all their collections reports the exact numbers of added, removed and modified documents, and nothing exactly if the states are equal but for empty collections: creating or dropping one does not show |
| `Scope.Find` | internal/snapshot/manifest.go:206-225 | an exact ID wins; otherwise a prefix counts only if it fits exactly one snapshot |
| `Scope.KeepSetIsKeepIds` | internal/snapshot/gc.go:109-125 | if the choice is determined, the positional rule over whatever sorted list keeps exactly the tagged snapshots and those with fewer than keepLast newer ones |
| `Scope.ChoiceIsDetermined` | internal/snapshot/manifest.go:228-233 | for every index and keepLast: the rule admits just one keep set if and only if no untagged snapshot has fewer than keepLast newer ones but more than keepLast no older than itself |
| `Scope.KeepsTheNewest` | internal/snapshot/gc.go:109-125 | for every index and keepLast, whatever sorting does with equal times: a tagged snapshot is kept, an untagged one is kept only if fewer than keepLast are newer, and dropped only if keepLast others are at least as new |
| `Scope.TiesKeepEither` | internal/snapshot/manifest.go:228-233 | the smallest case: of two untagged snapshots of one time, keepLast 1 may keep either |
| `Scope.DeterminedStays` | internal/snapshot/gc.go:109-125 | what is left after a determined choice is determined again for the same keepLast |
| `Scope.KeepIsStable` | internal/snapshot/gc.go:109-125 | the rule applied again to what it kept keeps all of it |
| `Gc.Sorted` | internal/snapshot/manifest.go:228-233 | an oldest-first arrangement of the index |
| `Gc.ChooseKeep` | internal/snapshot/gc.go:109-125 | the tagged ones and the newest keepLast are kept: the retention rule over some oldest-first arrangement, and the one keep set there is if the choice is determined |
| `Gc.ScopeFiles.RecoverAbandoned` | internal/snapshot/gc.go:32-64 | exactly the manifests no index entry names are removed, with their doc refs, and counted |
| `Gc.ScopeFiles.Prune` | internal/snapshot/gc.go:127-146 | exactly the unkept snapshots lose line, manifest and doc refs; the kept lines stay in index order |
| `Gc.ScopeFiles.Mark` | internal/snapshot/gc.go:153-176 | the set of hashes the kept snapshots reference; fails exactly if one of their manifests is missing |
| `Gc.ScopeFiles.Sweep` | internal/snapshot/gc.go:178-189 | exactly the unreferenced objects go, and the count is the difference |
| `Gc.ScopeFiles.GcLocked` | internal/snapshot/gc.go:98-192 | a whole pass: kept lines in order, just their manifests, exactly the old objects they reference, and all three counters exact |
| `Gc.ReferencedSame` | internal/snapshot/gc.go:153-176 | what snapshots reference depends on their own manifests and doc refs only |
| `Durability.PassInOneGo` | internal/snapshot/gc.go:98-192 | the pass as a method run in one go ends where the pass of the protocol, step by step, ends, and fails exactly where that one cannot mark |
| `Publishing.FindAfterPublish` | internal/snapshot/snapshotter.go:132-141 | what publishing does to every lookup: the new snapshot is found by its ID and by a prefix only it has, a prefix it shares finds nothing any more, all others find what they found |
| `Publishing.Tag` | internal/snapshot/query.go:47-78 | each of the four endings: no such snapshot, already tagged, manifest missing, tagged; only the last writes, manifest and index alike |
| `Lifecycle.SaveManifestKeeps` | internal/snapshot/snapshotter.go:95-107 | a Create that has written its manifest has everything the manifest promises |
| `Lifecycle.PublishIndexKeeps` | internal/snapshot/snapshotter.go:132-141 | publishing keeps the invariant: the new snapshot is restorable and no other is disturbed |
| `Lifecycle.SaveTagKeeps` | internal/snapshot/query.go:52-77 | writing a tag back keeps the invariant, with a Create scanning or a manifest saved meanwhile |
| `Lifecycle.SaveKeptKeeps` | internal/snapshot/gc.go:143-146 | writing the pruned index keeps the invariant |
| `Lifecycle.SweepOneKeeps` | internal/snapshot/gc.go:182-189 | sweeping one object keeps every published snapshot restorable |
| `Lifecycle.GoneKeeps` | internal/snapshot/scopelock.go:32-43 | a crash at any step, lock file left behind, keeps the invariant |
| `Lifecycle.ReclaimLockKeeps` | internal/snapshot/scopelock.go:95-112 | reclaiming a dead holder's lock file keeps the invariant |
| `Lifecycle.StepKeeps` | internal/snapshot/scopelock.go:48-75 | every step of every process, crashes included, keeps the whole invariant |
| `Lifecycle.RunKeeps` | internal/snapshot/scopelock.go:48-75 | so does every run |
| `Durability.PublishedStaysRestorable` | internal/snapshot/snapshotter.go:40-144 | after any run from an empty scope, an indexed snapshot restores to exactly what its Create recorded, if and only if no pruning pass has removed its manifest |
| `Durability.NoSnapshotIsLost` | internal/snapshot/gc.go:98-192 | if passes do not stop while pruning, every indexed snapshot is restorable except those a pass at work is dropping |
| `Durability.NoUpdateIsLost` | internal/snapshot/scopelock.go:28-47 | the index is the result of all publishes, tags and prunes one at a time in lock order |
| `Durability.PublishSurvives` | internal/snapshot/snapshotter.go:126-141 | a published snapshot stays listed through every later update but a prune that drops it |
| `Durability.TagSurvives` | internal/snapshot/query.go:40-77 | a tag stays on its snapshot through every later update but such a prune |
| `Requests.IndexIsWhatWasAskedFor` | internal/snapshot/snapshotter.go:116-141 | after any run every update of the index was asked for by a call in it, no two Creates have one ID, and each line has the time its Create was started with and exactly the tags put on it since |
| `Tags.TagsAgree` | internal/snapshot/query.go:52-77 | after any run a snapshot's manifest has the tags of its index line, or those and one more that a Tag was asked for; if no Tag stops between its two writes the lists are the same but for the snapshot a Tag at work is writing to |
| `PassRefs.PassDropsRefs` | internal/snapshot/gc.go:50-146 | a pass that has written the pruned index has deleted the doc refs of the snapshots it dropped and of abandoned manifests, and no others |
| `Progress.CanFinish` | internal/snapshot/scopelock.go:48-75 | from wherever a run has got to: a process can finish by steps of its own if no other has the scope lock, and has then done just what its call was for |
| `Progress.CreateCanPublish` | internal/snapshot/snapshotter.go:40-144 | whatever happened before, with both locks free a Create can list its snapshot last in the index, restorable to what it was started with |
| `Progress.TagCanTag` | internal/snapshot/query.go:47-78 | with the scope lock free a Tag can put its tag on the snapshot its query names |
| `Progress.GcCanCollect` | internal/snapshot/gc.go:98-192 | with both locks free a GC can end at its target, if the snapshots it keeps have their manifests |
| `Locks.LocksAreHeld` | internal/snapshot/scopelock.go:28-75 | after any run at most one process is inside a critical section and at most one has the backend open; the lock file is there exactly while a process is inside, or left by one that crashed there |
| `Locks.ScopeComesFree` | internal/snapshot/scopelock.go:48-112 | from wherever a run has got to all processes can leave, with both locks free in the end and nothing written; a lock file left by a crash is no obstacle |
| `Durability.RecoveryIsSafe` | internal/snapshot/gc.go:21-64 | recovery never removes the manifest of a snapshot that is, or ever will be, published |
| `Durability.KeptStaysRestorable` | internal/snapshot/gc.go:98-192 | at every boundary inside a pass a kept snapshot is restorable exactly if its manifest was there when the pass began |
| `Durability.SweepIsExact` | internal/snapshot/gc.go:98-192 | a pass whose garbage is swept leaves exactly the kept lines, their manifests and the objects they reference |
| `Durability.TargetIsStable` | internal/snapshot/gc.go:98-192 | if the choice was determined when a pass began, what the pass leaves behind at any boundary has the same target under the same keepLast, and is determined too |
| `Durability.RerunCanMark` | internal/snapshot/gc.go:127-158 | a rerun with the same keepLast after a crash anywhere gets past marking exactly if the kept snapshots had their manifests when the first pass began |
| `Durability.RerunReachesTarget` | internal/snapshot/gc.go:98-192 | and once it has swept, index, manifests and objects are those of an uninterrupted pass |
| `Durability.SecondPassDeletesNothing` | internal/snapshot/gc.go:98-192 | after a determined choice a second pass finds nothing to delete |
| `Durability.MarkNeedsManifests` | internal/snapshot/gc.go:153-158 | a pass gets past marking exactly if every snapshot it kept had its manifest when it began |
| `Durability.LargerKeepLastGetsStuck` | internal/snapshot/gc.go:127-158 | after a crash between a manifest's deletion and the index write, a rerun with a keepLast covering the index fails there |
| `StuckPass.AStuckPass` | internal/snapshot/gc.go:127-158 | such a run, step by step: a snapshot is created, a pass with keepLast 0 is killed while pruning, and the next pass, with keepLast 1, cannot mark |
| `Restore.Target.InsertMany` | internal/snapshot/restore.go:212-215 | an ordered insert: the documents up to the first failure are in, none of them was there, and success means all |
| `Restore.InsertDocs` | internal/snapshot/restore.go:201-247 | whatever fails and wherever batches end, exactly a prefix of the stored list has been inserted; all of it on success, and counted |
| `Restore.RecreateIndexes` | internal/snapshot/restore.go:257-331 | on success exactly the recorded indexes but the one on _id are added; on failure some of them |
| `Restore.RestoreOne` | internal/snapshot/restore.go:99-129 | one collection becomes what the snapshot says, and no other changes; without Drop nothing is lost even on failure; with Drop it succeeds, after an exact number of operations, if and only if none of them fails and the stored collection is whole |
| `Restore.Restore` | internal/snapshot/restore.go:86-132 | finished collections are as the snapshot says, naming a collection leaves every other one as it is and restores just that one, naming none restores all of the snapshot, collections outside the dropped ones are unchanged, the lists are prefixes of the sorted names, and the count is exact, on success and on failure; a drop restore of a whole snapshot succeeds if no operation fails, and which collections a failed one can leave behind is exact |
| `SafeRestore.Create` | internal/snapshot/pipeline.go:228-257 | a whole-database snapshot records every collection's documents and indexes, leaves other snapshots alone, and succeeds exactly if no read fails |
| `SafeRestore.RecordedRestores` | internal/snapshot/restore.go:201-247 | restoring a recorded list gives exactly the recorded ID-to-document map |
| `SafeRestore.CoveredCanRestore` | internal/snapshot/restore.go:99-129 | what Create recorded has every object, distinct IDs and distinct index names, so nothing in it can make a restore fail |
| `SafeRestore.RestoreGivesBack` | internal/snapshot/restore.go:99-132 | a drop restore gives back the recorded collection, except that one without documents and own indexes is not created again |
| `SafeRestore.CreateThenRestore` | internal/snapshot/restore.go:55-132 | Create, any change whatever to the database, Restore with Drop: the recorded collections are back, others untouched, DocsWritten is the manifest's total |
| `SafeRestore.TotalIsDocTotal` | internal/snapshot/manifest.go:59-65 | the number of refs stored is the total of the documents recorded |
| `SafeRestore.RestoreWithSafety` | internal/snapshot/restore.go:150-196 | a named collection is the only one that changes; a collection that changed is in Touched; failing with Touched empty means nothing changed; a successful rollback puts every collection right but those it can miss, so the whole database if all chosen collections were there and none was bare; a failed one leaves all but one collection either back or as it found them; without Drop nothing is lost |
| `SafeRestore.RollbackMisses` | internal/snapshot/restore.go:134-196 | and for each collection a rollback can miss, for every snapshot and target, there is a failure of one operation after which the call reports a rollback and the collection is not what it was |
| `SafeRestore.MissedOfWhole` | internal/snapshot/restore.go:134-149 | for a whole snapshot those are: bare collections of the target, and chosen collections the target lacks that have a document or an index |
| `LostRollback.Run` | internal/snapshot/restore.go:134-149 | one such call from start to end: rolled back, yet a new collection has stayed and an empty one is gone |
| `Sessions.StepKeeps` | internal/engine/manager.go:51-183 | every section of every call, interleaved with opens and closes outside the mutex, keeps reference counts and ownership exact |
| `Sessions.RunKeeps` | internal/engine/manager.go:51-183 | so does every interleaving |
| `Sessions.ClosedAtMostOnce` | internal/engine/manager.go:51-183 | refs is the number of unreleased handles, the cache has no doomed session, and a session is closed at most once, never while held or obtainable |
| `Sessions.AllClosedInTheEnd` | internal/engine/manager.go:132-153 | after Close, with all handles released and all calls returned, every session ever opened has been closed exactly once |
| `Sessions.NothingLeaks` | internal/engine/manager.go:96-183 | from wherever a run has got to: once the manager is closed, calls have returned, handles are released and due Close calls are made, every session ever opened has been closed exactly once |
| `Sessions.InvalidateRetires` | internal/engine/manager.go:115-130 | Invalidate takes out the session cached under the name and no other, and closes it at once exactly if nobody holds it |
| `Sessions.RetiredForever` | internal/engine/manager.go:115-183 | a session taken out of the cache is never handed out again |
| `Sessions.RightSession` | internal/engine/manager.go:51-113 | after any run, a handle is on a session that was opened for the very name the handle was asked for, and the cache files each session under that name |
| `Sessions.AcquireGetsCached` | internal/engine/manager.go:51-94 | asking for a name that is cached and not doomed hands out that very session |
| `Sessions.AcquireCanSucceed` | internal/engine/manager.go:51-94 | an Acquire of an open manager can always come to a handle, on the session cached under the name or on the one opened for it, which is then cached |
| `Sessions.ReaperTakesIdle` | internal/engine/manager.go:168-183 | after any run, the reaper takes out exactly the sessions that no handle holds and that no acquire, insertion or release has used within the limit |
| `Sessions.ReaperRetires` | internal/engine/manager.go:168-183 | the reaper takes out exactly the sessions without a holder that were last used longer ago than the limit |
| `SessionManager.Manager.Lookup` | internal/engine/manager.go:51-63 | the first section of Acquire is the state machine's lookup |
| `SessionManager.Manager.Insert` | internal/engine/manager.go:75-94 | the second section is its insertion, preferring a session that is already there |
| `SessionManager.Manager.Release` | internal/engine/manager.go:96-113 | release is its release the first time and nothing after that |
| `SessionManager.Manager.Invalidate` | internal/engine/manager.go:118-130 | Invalidate is its invalidation |
| `SessionManager.Manager.Close` | internal/engine/manager.go:133-153 | Close is its closing, and lists each session to close once |
| `SessionManager.Manager.EvictIdle` | internal/engine/manager.go:170-183 | evictIdle is its eviction, and lists each session to close once |
| `Encodings.Base64RoundTrip` | internal/snapshot/encode_sql.go:11-13 | bytes stored as base64 decode to the same bytes |
| `Encodings.HexRoundTrip` | internal/snapshot/restore_sql.go:331-336 | hexadecimal digits read back to the same bytes and contain no quote |
| `SqlLiterals.QuotedBack` | internal/snapshot/restore_sql.go:318-319 | a text with doubled quotes reads back, and reading stops at its own closing quote |
| `SqlLiterals.LiteralBack` | internal/snapshot/restore_sql.go:294-336 | every literal reads back to what the stored value stands for, up to exactly its end |
| `SqlLiterals.BinaryBack` | internal/snapshot/restore_sql.go:298-307 | bytes survive the way from the database through base64 and hexadecimal back |
| `SqlLiterals.BuildInsert` | internal/snapshot/restore_sql.go:213-236 | the loops print a statement that reads back to the table, the columns and, row by row and column by column, what the given values stand for, NULL where a row has no such column |
| `SqlLiterals.IdentsBack` | internal/snapshot/restore_sql.go:397-402 | a printed identifier list reads back to the same names |
| `SqlLiterals.CellsBack` | internal/snapshot/restore_sql.go:228-235 | a printed row reads back to the meanings of its values |
| `SqlLiterals.RowsBack` | internal/snapshot/restore_sql.go:228-236 | a printed VALUES list reads back to the same rows: its separators are never ambiguous |
| `SqlLiterals.InsertBack` | internal/snapshot/restore_sql.go:213-236 | the whole INSERT reads back to the same table, columns and rows |
| `SqlLiterals.NothingOfTheRowIsLost` | internal/snapshot/restore_sql.go:217-224 | with the columns taken from a row's keys, the printed row reads back to just those columns, each with what its value stands for |
| `ErGraph.BuildAdjacency` | desktop/frontend/src/views/ERDiagramView.tsx:32-41 | two tables are adjacent exactly if a foreign key of one refers to the other and both are there |
| `ErGraph.Search` | desktop/frontend/src/views/ERDiagramView.tsx:46-59 | the search from a table finds a closed set of tables all connected to it, each once |
| `ErGraph.Components` | desktop/frontend/src/views/ERDiagramView.tsx:43-61 | the components are closed and connected, and name every table once |
| `ErGraph.ComponentsAreConnected` | desktop/frontend/src/views/ERDiagramView.tsx:43-61 | two tables share a component exactly if a path of foreign keys joins them |
| `ErGraph.Layout` | desktop/frontend/src/views/ERDiagramView.tsx:63-88 | every box is in its place: column k mod 4 of its component, a row right below the tallest box of the row above, components one under the other, with a second gap after one that fills its last row; no two overlap |
| `ErGraph.DrawEdges` | desktop/frontend/src/views/ERDiagramView.tsx:90-102 | one edge for every foreign key to another known table, and no other |
| `ErGraph.BuildGraph` | desktop/frontend/src/views/ERDiagramView.tsx:31-105 | the diagram has these components, every box in its place and as high as its header and its columns need, and these edges |
| `ErGraph.PlacedOnce` | desktop/frontend/src/views/ERDiagramView.tsx:63-88 | every table name is placed exactly once, and nothing else is |
| `ErGraph.EdgesStayInside` | desktop/frontend/src/views/ERDiagramView.tsx:90-102 | an edge joins two tables of one component |
| `Migration.DiffColumns` | internal/schemadiff/schemadiff.go:133-166 | one diff for every column of either side, by name, of the right kind |
| `Migration.Diff` | internal/schemadiff/schemadiff.go:56-91 | one diff for every table of either side, in order of name and of the right kind, that tells every column of the tables as they are on the two sides; of tables with one name the last counts |
| `Migration.HasChanges` | internal/schemadiff/schemadiff.go:169-176 | true exactly if some table is not unchanged |
| `Migration.GenerateMigration` | internal/schemadiff/migration.go:38-85 | the statements table by table, or the no-change script if there are none; transactional exactly for Postgres and SQLite |
| `MigrationEffect.ColumnsRun` | internal/schemadiff/migration.go:61-76 | a table's statements take its columns step by step to the other side |
| `MigrationEffect.MigrationReachesTarget` | internal/schemadiff/migration.go:38-85 | the script runs through exactly if its key clauses are ones a database takes, and then makes the target schema |
| `MigrationEffect.IndexedIsNamed` | internal/schemadiff/schemadiff.go:93-107 | tables and columns as the diff indexes them are filed under their own names |
| `MigrationEffect.TargetIsAfter` | internal/schemadiff/migration.go:31-37 | the target has the after side's tables and columns, and each column is the after column exactly unless it is left for review |
| `MigrationEffect.NoScriptIffNoChange` | internal/schemadiff/schemadiff.go:168-176 | there is no statement exactly if HasChanges is false, which is exactly if the schemas are equal |
| `MigrationEffect.CompositeKeyIsRefused` | internal/schemadiff/migration.go:87-97 | a new table with a two-column key is refused: CREATE TABLE declares a primary key per column |
| `MigrationEffect.ScriptOutcome` | internal/schemadiff/migration.go:18-37 | running the returned script gives the target or, where DDL is transactional, leaves the schema as it was |

## Left out

- `ExtSort.ExtSortSpill.Add`: asks for fewer than 10^10 spilled runs, because run file names wrap there (`Decimals.RunNamesDistinct`).
- `ExtSort.ExtSortSpill.SpillBuffer`: asks for the same.
- `ExtSort.ExtSortSpill.NewIterator`: asks for the same, since it may spill once more.
- `ExtSort.RunReader.Advance`: does not model the line scanner's token limit or read errors; each encoded ref is taken to fit a line.
- `ExtSort.RunScript`: asks for fewer than 10^10 operations for the same reason, and drains its iterators after the last Add; draining in between is covered by `ExtSort.EarlierIteratorUnaffected`, not by the script.
- `Diff.MergeJoin`: takes iterators over lists in memory, since the merge and stored iterators are proved to deliver such lists (`ExtSort.Drain`, `BoltStore.DrainStored`); read errors in mid-join are not modelled.
- `Compare.CompareSnapshots`: takes its sources as lists, so errors of opening or reading one are not modelled.
- `Compare.StreamDiff`: likewise.
- `Compare.DiffCollectionPage`: likewise.
- `BoltStore.BoltBackend.WriteDocRefs`: takes an iterator over a list; errors of the iterator and of the store are not modelled.
- `Pipeline.ScanCollectionDocs`: a failed worker is modelled; errors of the spill, the store and the cursor are not.
- `Gc.ScopeFiles.GcLocked`: one uninterrupted pass; its read and write errors are the Return and Crash steps of `Protocol`.
- `SafeRestore.Create`: takes one delivery order of the workers, reading order; `EndToEnd.SnapshotCollection` holds for every order.
- `SafeRestore.RestoreWithSafety`: when the rollback itself fails, says nothing of the one collection it failed at.
- `Lifecycle.ReclaimLockKeeps`: does not model reclaiming a lock file by its age; the probe for a dead holder and the removal are one step (`internal/snapshot/scopelock.go:101-109`).
- `SessionManager.Manager.Lookup`: the mutex is what makes a section one step; the open and close calls between sections are steps of `Sessions` and not part of the class.
- `MigrationEffect.MigrationReachesTarget`: a schema is tables, columns, types, nullability and key membership; foreign keys, index definitions, the text of statements and warnings, and what a dialect may refuse beyond existence and a second primary key are not modelled.
- `SqlLiterals.LiteralBack`: MySQL, where a backslash is an escape, is not covered; numbers are JSON number tokens and are compared as text.
- withScopeLock's waiting: its retry loop is the lock step becoming enabled, its timeout the Return step.
- The fs backend: the same contract over files, without Create/GC isolation.
- RestoreSQL, CreateSQL and the row scan: the shape of their document counterparts; of these only the printing of rows is modelled.
- Options of an index, text and collation included: carried over unread.
- Reading or reclaiming doc refs that lost their manifest in a crash between the two deletions of recovery: nothing does either (`PassRefs.PassDropsRefs`).
- `Migration.Diff`: where a wholly new or removed table repeats a column name, the code lists the column twice and the model once.
- Create's use of Latest for the parent ID, Log, messages and other fields nothing depends on.
- ScanLive and LiveScan: the same scan without a store; a live source is a spill's iterator, which `ExtSort` covers.
- A GC between Get and OpenBackend of a restore, or between the safety snapshot and its rollback; writers to the target during a restore.
- Freshness of a session whose opening was under way when Invalidate ran.
- Drivers, wire protocols, git sync, tunnels, views, schedulers and the small catalogues.
