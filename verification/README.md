# moocbt in Dafny

moocbt is a block-snapshot driver. While a snapshot exists, every write to the
traced device is held back until the old contents of the blocks it overwrites have
been captured into a copy-on-write (COW) file; in incremental mode only an index of
changed blocks is kept. An offline tool, `update-img`, brings an image of one
snapshot up to the next by copying the blocks the old index marks. This project
models that machinery and proves what it is for.

The layers share one vocabulary (`Blocks.dfy`): a word is 8 bytes, a sector 64
words, a block 512 words. A block store is a map from block to page; a snapshot read
takes a block's page from the store, or else from the live device (`SnapshotRead`).

* **COW manager** (`CowImage`, `CowDisk`, `CowStore`, `CowSweep`, `CowUsage`, `CowManager`,
  `CowLimit`, `CowSetup`).
  Class `Manager` is the section cache with its arrays, eviction and threshold search,
  over class `CowFile`, whose ghost trace is every state a crash can expose. The cache
  stands for a flat index (`View`) and, in snapshot mode, for a block store (`Store`);
  which sections are in memory and how often each was used is `Cache`. Transfers and
  allocations fail at any time, unless the file is `steady`.
* **Queue** (`DelayRead`, `BioQueue`). The linked list and its read-delaying dequeue,
  refining a function on sequences.
* **Protocol** (`Tracker`, `Protocol`, `Isolation`, `Overtaking`, `ReadLedger`, `WriteLedger`,
  `ReadWindow`, `Disturbance`, `Teardown`). A state machine
  whose steps are those of intercepted writes, read clones, the completion callback,
  the device, and the COW, release and read threads, interleaved in any way, with any
  of them failing. `ReadWindow` takes the snapshot read apart into lookup, base read and
  answer; `Teardown` is the wait that ends a snapshot. `CloneTiling` and `SnapHandle` are the loops inside those steps.
* **Backup cycle** (`IncTracing`, `IncMarking`, `UpdateImg`, `BackupCycle`, `IndexFile`,
  `TrackedCycle`, `LateFailure`). Snapshot, incremental tracking, next snapshot, merge; and the link from
  the cycle's marks through the manager's index to the words of the file the tool reads. Class `Tracked` carries a new manager
  through such a cycle; its reads of the next snapshot are those of `ReadWindow`.
* **Return hooks** (`ShadowStack`). The shadow stack of each task against an ordinary
  call stack.
* **Device table** (`Lifecycle`, `CowFiles`, `Driver`). Setup, reload, destroy, the two mode
  transitions and mount events, and the numbering of the COW files of a series.

Reading order for the main results: `Isolation.SnapshotIsolation`,
`Isolation.CaptureBeforeOverwrite`, `ReadLedger.EveryReadAccounted`,
`WriteLedger.WriteKeptWhole`, `ReadWindow.GivenExactly`,
`Protocol.EveryWriteIsReleasedOnce`, `Teardown.WaitCanEndExactly`, `IndexFile.Backup`,
`BackupCycle.MergedImageIsNextSnapshot`, `CowManager.Manager.ReadMapping` and
`WriteMapping`, `CowUsage.CounterIsUses`, `CowSetup.Reload`, `SnapHandle.HandleRead`, `ShadowStack.RunRefines`,
`Lifecycle.AcceptsExactlyPredecessor`, `CowFiles.FilesKeepIdentity`.

## Where the code does not do what one would expect

* The read-delaying dequeue takes the first queued write that overlaps the read, and
  can lift it over an earlier clone of another of its blocks. The store then gets the
  newer page. `DelayRead.SafeExactlyWithoutOvertaking` says exactly when a dequeue is
  safe, `Overtaking.OvertakingBreaksIsolation` is a run that answers a snapshot read
  wrongly, and `Isolation.SnapshotIsolation` holds for every run without such a dequeue.
* Nothing guards the window between looking up a snapshot read's blocks and reading them
  from the base device. An answer is right exactly when no word of a traced, unstored
  block of it is overwritten with other data in that window (`ReadWindow.GivenExactly`);
  it is enough that nothing lands on such a word between lookup and base read
  (`ReadWindow.NoLandingsIsolation`). `Disturbance.WindowBreaksIsolation` is a
  failure-free run, without overtaking, in which a write is captured, released and lands
  there. `Protocol` and `Isolation` take the lookup, the base read and the answer as one
  step; the backup cycle takes them apart.
* A read clone that fails is never counted as received, and tearing a snapshot down waits
  for the two counters to meet. The wait can end exactly when no clone's read has failed
  (`Teardown.WaitCanEndExactly`); `Teardown.FailedCloneHangsTeardown` is a run after which
  it never does.
* The overlap test accepts requests that only touch, so reads may be delayed without need
  (`DelayRead.OverlapsExactly`).
* The index is sized by a floor division of the device size. On a device with a
  partial last block that block is out of the index exactly when the whole blocks fill
  their last section (`CowSetup.PartialBlockFits`).
* `update-img` takes errno for the result of a transfer that fell short, and a transfer
  that is merely cut short sets no errno. `UpdateImg.NoErrorsExactly` says when the tool
  reports no errors, `UpdateImg.NoErrorsMeansCopied` when that means that everything was
  copied. `UpdateImg.PartialBlockLost` and `UpdateImg.FullDiskTears` are runs without a
  reported error that leave out, or tear, a marked block.
* When `update-img` stops because its read of the index fell short, its exit status is
  errno, and so zero if errno was clear. `UpdateImg.ZeroExitExactly` is the exact
  condition, `UpdateImg.ShortIndexExitsZero` a run on an index that is too short, which
  copies nothing and exits with zero.
* A reload that runs out of memory after it accepted the header leaves the file marked
  dirty, and so refused next time; no other failed reload does (`CowSetup.Reload`).
* "All usage counters are reset on each flush" (`doc/STRUCTURE.md:80`) does not hold: a
  section's counter is reset exactly when more than half the limit is still in memory at
  its turn, or the whole cache is flushed (`CowSweep.ResetExactly`);
  `CowSweep.CounterSurvives` is a cleanup that leaves one alone.
* A return hook that cannot get its task entry is dropped, and its pre-handler still
  reports success: `ShadowStack.DoneInstallsExactly` says when success means installed.
* A sector set that fails last, after the transition to the next snapshot has succeeded,
  is reported to nobody, and the old index misses its blocks:
  `LateFailure.LateFailureMissesBlock` is such a run, `BackupCycle.CompleteExactly` the
  condition under which the index is complete all the same.
* Reloading a COW file that is not the newest of its series makes two files with one
  sequence number (`Lifecycle.OlderFileRepeatsNumber`); `Lifecycle.ContinuesExactly`
  gives the exact condition.
* A transition to snapshot mode may be given the path of the old COW file, whose header
  is then written over the new one's. The file carries the new tracer's identity exactly
  when the paths differ (`CowFiles.OwnFileExactly`); `CowFiles.ReusedPathMisnames` is
  such a run. `CowFiles.FilesKeepIdentity` is about runs that use no path twice.

## Model

| member | source | states |
|---|---|---|
| `Isolation.SnapshotIsolation` | src/module_threads.c:95-164 | in every run, with any failures, in which no queued clone overtakes an earlier one on an unstored block, each answered snapshot read returned word for word the device as at setup, on traced blocks |
| `Isolation.CaptureBeforeOverwrite` | src/bio_helper.c:450-457 | in every unfailed run, any order: a traced block that differs from the snapshot had a clone queued, the first one carried the snapshot's contents, and until the block is stored a clone of it is queued |
| `Isolation.StoppedThreadStoredAll` | src/module_threads.c:105 | when the COW thread may stop (queue empty, counters equal, no failure) no clone is outstanding and every changed traced block is stored |
| `Isolation.RunGood` | src/tracer.c:154-204 | coverage, soundness of captured pages, queue bookkeeping and counters hold in every reachable state |
| `Isolation.CountersStep` | src/tracer.c:167 | every step, failed or not, keeps submitted equal to received plus outstanding plus failed clones, and the device failed once a clone's read failed; `RunGood` has it in every reachable state |
| `Isolation.ReadAnswered` | src/snap_handle.c:134-209 | the COW thread's turn with a read adds one answer, for exactly the range asked for and with a word for each of its words, and each is the snapshot's, if the first-queued pages are stored; lookup and base read are one step here, `ReadWindow` divides it |
| `ReadLedger.EveryReadAccounted` | src/module_threads.c:119-145 | in every run, as multisets of ranges: what was asked for is answered as a whole, or queued, or was ended with an error, and the latter only on a failed device |
| `ReadLedger.AllReadsAnswered` | src/module_threads.c:119-145 | without a failure, once the queue is empty, all that was asked for is answered |
| `ReadLedger.EveryReadAccountedApart` | src/snap_handle.c:105-224 | the same with lookup, base read and answer apart, where a read may also be in hand |
| `ReadLedger.DequeueTakes` | src/bio_queue.c:107-141 | a dequeue takes exactly the read it returns |
| `Isolation.OrderedRun` | src/bio_queue.c:107-141 | without overtaking, the stored or pending page of every block stays the first one captured |
| `Overtaking.OvertakingBreaksIsolation` | src/bio_queue.c:117-131 | a failure-free run with an overtaking dequeue answers a snapshot read with a later write's data |
| `ReadWindow.GivenExactly` | src/snap_handle.c:134-209 | with lookup, base read and answer apart: an answer equals the snapshot on traced blocks iff no word of an unstored block was overwritten with other data in between |
| `ReadWindow.UndisturbedIsolation` | src/module_threads.c:123-145 | runs of the divided read in which that never happens, and no dequeue overtakes, keep snapshot isolation |
| `ReadWindow.NoLandingsIsolation` | src/snap_handle.c:134-209 | the same from events: no word of an unstored, traced block of a held read is written between its lookup and its own base read |
| `Disturbance.WindowBreaksIsolation` | src/snap_handle.c:134-145 | a failure-free run in which a write lands in the window and the answer is wrong |
| `Teardown.WaitOverExactly` | src/tracer.c:901-911 | the counters that teardown compares are equal iff no clone is outstanding and none has failed |
| `Teardown.WaitCanEndExactly` | src/tracer.c:901-911 | from any reachable state, some continuation ends the wait iff no clone's read has failed |
| `Teardown.FailedCloneHangsTeardown` | src/bio_helper.c:461-465 | a run with one failed clone, from which no continuation ends the wait |
| `Protocol.EveryWriteIsReleasedOnce` | src/tracing_params.c:66-83 | a live write's count is the holder's reference plus its clones and it is not released; afterwards it was released or let through exactly once, in all runs including failures; what is released is `WriteLedger.WriteKeptWhole` |
| `WriteLedger.WriteKeptWhole` | src/tracing_params.c:66-83 | in every run each intercepted write has one fate: traced as it was intercepted, let go as it was intercepted and waiting or with the device, or acknowledged; the release thread hands writes on in the order of release |
| `WriteLedger.LandsInterceptedWord` | src/module_threads.c:194-201 | a word that lands is the intercepted write's payload at the word's own place |
| `WriteLedger.LiveWordsOriginate` | src/module_threads.c:194-201 | in every run each live word is the snapshot's, or an intercepted write's at its own place, or in a block written behind the tracer's back |
| `WriteLedger.HandedOnInOrder` | src/module_threads.c:186-201 | releases are those handed on followed by those queued; a held write is queued or with the device |
| `WriteLedger.UntracedExactly` | src/tracer.c:116 | the blocks that snapshot isolation leaves out are exactly those that untraced writes touched |
| `Protocol.TracingRun` | src/tracer.c:140-228 | the reference accounting holds in every reachable state |
| `Tracker.CompleteKeeps` | src/bio_helper.c:394-466 | a completed or failed clone drops exactly its own reference |
| `Tracker.IssueKeeps` | src/bio_helper.c:776-781 | a new clone adds exactly one reference to its own write |
| `Tracker.DropHolderKeeps` | src/tracer.c:193-219 | the tracing function drops its hold once, whether tracing worked or not |
| `CloneTiling.SnapTraceBio` | src/tracer.c:107-229 | the clone loop ends; clones tile the rounded-out range from its start, each with its own sector map entry; references equal clones; a write without clones is released at once; no clone is larger than a bio; it fails only for want of memory |
| `CloneTiling.MakeReadClone` | src/bio_helper.c:699-792 | a clone has between one page and all it was asked for, and one reference; a failure leaves none, and no more pages than a bio takes |
| `CloneTiling.WriteBlocksCarriedOnce` | src/tracer.c:131-138 | the clones of a write carry each block the write touches once and no other block, for any partition offset |
| `CloneTiling.TilesCarryOnce` | src/tracer.c:184-188 | contiguous page-sized tiles carry each block of their range once |
| `CloneTiling.Params.Restore` | src/bio_helper.c:412-425 | completion restores a clone's own sector, relative to the partition, and size, whatever the device did to its iterator |
| `CloneTiling.Params.Put` | src/tracing_params.c:66-83 | releases the write exactly when the last reference goes |
| `CloneTiling.Params.Add` | src/tracing_params.c:95-118 | records where a clone starts and how long it is, or nothing |
| `DelayRead.DequeueLosesNothing` | src/bio_queue.c:107-141 | one dequeue takes one entry and keeps the others |
| `DelayRead.DequeueKeepsOrder` | src/bio_queue.c:119-129 | the delayed read takes the returned write's place and nothing else moves |
| `DelayRead.ReturnedReadIsClear` | src/bio_queue.c:116-135 | a returned read overlaps no queued write and shares no sector with one |
| `DelayRead.DrainReturnsEverything` | src/bio_queue.c:107-141 | repeated dequeues return every entry once |
| `DelayRead.DrainDelaysReads` | src/bio_queue.c:91-100 | over a drain every read comes out after all queued writes that overlap it |
| `DelayRead.OverlapsExactly` | src/bio_queue.c:84-89 | for requests with data, the overlap test accepts exactly those that share a sector or only touch |
| `DelayRead.SafeExactlyWithoutOvertaking` | src/bio_queue.c:117-131 | a dequeue stores the first-queued page of every unstored block, whatever was captured, iff it overtakes no earlier clone of one |
| `DelayRead.EqualExtentsNeverOvertake` | src/bio_queue.c:117-131 | queued clones that share a block and have equal extents are never overtaken |
| `BioQueue.BioList.DequeueDelayRead` | src/bio_queue.c:107-141 | the in-place dequeue returns and leaves what the sequence functions say, on a proper list with a correct tail |
| `BioQueue.BioList.Swap` | src/bio_queue.c:119-129 | relinking puts one node in another's place and keeps head, tail and acyclicity |
| `BioQueue.BioList.FindOverlap` | src/bio_queue.c:117-133 | finds the first overlapping write and its predecessor |
| `BioQueue.BioList.Add` | src/bio_list.c:44-54 | appends at the tail |
| `BioQueue.BioList.Pop` | src/bio_list.c:65-78 | takes the head, clears the tail of an emptied list |
| `SnapHandle.HandleRead` | src/snap_handle.c:105-224 | any segment layout: a successful read fills the buffer as if both store and device had always been read, although lookups evict sections |
| `SnapHandle.GetMode` | src/snap_handle.c:40-92 | the mode is all stored, none stored, or neither, exactly |
| `SnapHandle.ExtendMode` | src/snap_handle.c:69-79 | one more chunk moves the mode the right way |
| `SnapHandle.OverlaySegment` | src/snap_handle.c:170-204 | after a segment every word up to it is right |
| `SnapHandle.LiveIsRight` | src/snap_handle.c:138-154 | with nothing stored the live data is the snapshot |
| `SnapHandle.HandleWrite` | src/snap_handle.c:240-291 | a captured clone's pages are added block by block, the first page of a block wins, stored pages survive failures |
| `CowManager.Manager.ReadMapping` | src/cow_manager.c:835-867 | answers the flat view's entry and leaves view and data alone, whatever is loaded, evicted or fails; keeps the memory bound; its section's counter goes up by one, and sections and counters are then those of `CowUsage.After`; it fails only if the system does |
| `CowManager.Manager.WriteMapping` | src/cow_manager.c:880-918 | sets exactly one entry of the flat view; failing, sets it or nothing; keeps the changed-block count and the memory bound; the same for its section's counter; the count of changed blocks goes up by one exactly for an entry that was zero |
| `CowManager.Manager.LimitCache` | src/cow_manager.c:856-860 | a cache over its limit is cleaned up, any other left alone: sections and counters are those of `CowUsage.Tidy`, the view is unchanged |
| `CowManager.Manager.UseSection` | src/cow_manager.c:841-853 | the counter of the section goes up by one, and it is brought into memory unless it is only read and has no data |
| `CowUsage.CounterIsUses` | src/cow_manager.c:841 | after any sequence of mapping operations a section's counter is the number of its uses since its last reset, on top of its start if there was none |
| `CowUsage.OnlyOwnCounter` | src/cow_manager.c:887 | an operation without a cleanup raises the counter of its own section by one and leaves the others |
| `CowUsage.MostUsedStays` | src/cow_manager.c:193 | a cleanup keeps the most used section exactly if it was used more than once |
| `CowUsage.HotSectionStays` | src/cow_manager.c:841 | four lookups of a section save it from the cleanup that evicts the other two |
| `CowUsage.OperationSettles` | src/cow_manager.c:856-860 | every operation keeps the cache within its limit, or takes it one cleanup nearer if it comes to the check: at most one section over, and then all counters in memory zero |
| `CowUsage.TidyEnds` | src/cow_manager.c:183-209 | a cleanup leaves at most half the limit in memory, or every counter zero and only sections used more than once |
| `CowUsage.SweepDrops` | src/cow_manager.c:192-204 | a sweep shrinks the cache by exactly what it drops |
| `CowLimit.CountersCount` | src/cow_manager.c:835-918 | the same of a manager driven through any sequence of lookups and writes from counters at zero |
| `CowManager.Manager.CleanupMappings` | src/cow_manager.c:221-264 | the view is unchanged; sections and counters are those of a sweep with the searched threshold; if more than half the limit stays, every counter is zero and only sections used more than once stay |
| `CowManager.Manager.FindThreshold` | src/cow_manager.c:227-254 | the loops compute the halving search |
| `CowSweep.ThresholdNearMedian` | src/cow_manager.c:233-254 | the threshold splits the sections evenly, or misses the median by at most one more than the halvings of half the largest usage |
| `CowSweep.ThresholdZero` | src/cow_manager.c:227-254 | it is zero iff no section was used more than once, otherwise below the largest usage |
| `CowSweep.ResetExactly` | src/cow_manager.c:189-206 | a counter is reset iff the flush is total or more than half the limit is in memory at its turn |
| `CowSweep.CounterSurvives` | src/cow_manager.c:189-206 | a cleanup that stops before a section and leaves its counter |
| `CowManager.Manager.SyncAndFreeSections` | src/cow_manager.c:183-209 | evictions keep the view; exactly the sections reached lose their counters, and of them the unwanted ones leave memory; threshold zero flushes all |
| `CowManager.Manager.Evict` | src/cow_manager.c:192-204 | one section written to its place and dropped leaves the view unchanged |
| `CowManager.Manager.LoadSection` | src/cow_manager.c:123-144 | a loaded section is the view's section; a failed load leaves nothing behind |
| `CowManager.Manager.AllocZeroed` | src/cow_manager.c:890-893 | a first-used section becomes resident as the zeros it stood for |
| `CowManager.Manager.CountAndSet` | src/cow_manager.c:901-905 | the count of changed blocks is the number of nonzero entries, after every write of a nonzero value |
| `CowImage.EvictKeepsView` | src/cow_manager.c:155-168 | pure form: writing a resident section out and forgetting it is invisible |
| `CowImage.PutThenAt` | src/cow_manager.c:884-905 | reading after writing: the written entry, and no other, changes |
| `CowImage.PutChanges` | src/cow_manager.c:901-905 | how one write changes the number of nonzero entries |
| `CowImage.SectionsApart` | src/cow_manager.c:131-133 | places of different sections do not overlap, nor does the header |
| `CowImage.HeaderRoundTrip` | src/cow_manager.c:293-300 | a header reads back from the bytes it was written as |
| `CowImage.HeaderLayout` | src/moocbt.h:66-76 | the fields of a written header are where the structure has them |
| `CowImage.IndexUntouched` | src/cow_manager.c:721-722 | data behind the index changes neither index nor header |
| `CowManager.ResidentUpdate` | src/cow_manager.c:70-111 | the counter of resident sections moves with one slot |
| `CowManager.Manager.WriteHeader` | src/cow_manager.c:279-309 | writes the fields and the clean bit in one step |
| `CowManager.Manager.OpenHeader` | src/cow_manager.c:329-385 | if it can be read, a header is refused iff it is not clean and of the wanted mode; otherwise its fields are taken over and it is left dirty |
| `CowManager.Manager.SyncAndClose` | src/cow_manager.c:483-508 | success leaves a file that by itself holds header and index; failure removes it; at every moment a clean file is that of the last close |
| `CowManager.ClosedImage` | src/cow_manager.c:279-309 | a clean header over flushed sections makes the file hold the state |
| `CowManager.Manager.Reopen` | src/cow_manager.c:520-544 | gives everything back, or leaves the file closed as it was |
| `CowManager.Manager.TruncateToIndex` | src/cow_manager.c:792-804 | data goes, the index view stays |
| `CowManager.Manager.LookUp` | src/cow_manager.c:987-994 | a mapping is nonzero iff the block is stored, and points to its page |
| `CowManager.Manager.WriteCurrent` | src/cow_manager.c:982-1011 | adds the page unless the block has one; mappings stay distinct, behind the index, before the next free block; failures lose no page |
| `CowManager.Manager.WriteData` | src/cow_manager.c:931-966 | writes at the next free block, refuses beyond the file's size, touches neither index nor header |
| `CowManager.Manager.ReadData` | src/cow_manager.c:1026-1042 | reads the words at an offset inside the mapped block, refuses an offset beyond it |
| `CowManager.Manager.ModifyCacheSize` | src/cow_manager.c:816-820 | only the limit changes, to the sections that fit beside the descriptors; a bounded cache stays bounded under a larger limit; the cache itself stays as it is |
| `CowManager.AllowedSectionsFit` | src/cow_manager.c:559-568 | the limit is the largest number of sections that fits in the cache beside the descriptors, or none |
| `CowLimit.ShrinkSettles` | src/cow_manager.c:816-860 | after any change of the limit, two mapping operations that reach the limit's check, with any others between them, bring the cache within the new bound |
| `CowStore.AppendKeepsOk` | src/cow_manager.c:996-1004 | a new mapping keeps mappings injective and in range |
| `CowStore.AppendStores` | src/cow_manager.c:996-1004 | mapping and page together add one block to the store and change no other |
| `CowStore.MappingSurvives` | src/cow_manager.c:997-1004 | a mapping whose page was never written hurts no stored page |
| `CowSetup.Init` | src/cow_manager.c:685-780 | a new manager has room for every block, an empty store, count zero, and the series' uuid or a new one; the limit is that of the cache size and nothing is in memory; it fails only if the system does |
| `CowSetup.Reload` | src/cow_manager.c:587-664 | gives up, or restores exactly the header fields and index of the last proper close; a good file stays good unless it was reloaded or memory ran out; on a system that does not fail it is reloaded iff the header is acceptable |
| `CowSetup.CloseThenReopen` | src/cow_manager.c:483-544 | the identity on view, header fields, store and count |
| `CowSetup.CloseThenReload` | src/cow_manager.c:439-643 | the same across a shutdown, up to the allocator flag |
| `CowSetup.SectionsHoldDevice` | src/cow_manager.c:714-718 | the computed number of sections is the least that holds every element |
| `CowSetup.PartialBlockFits` | src/tracer.c:597 | a partial last block fits the index iff the whole blocks do not fill their last section |
| `IncTracing.IncTraceBio` | src/tracer.c:280-331 | reports exactly the sectors of segments that are not the COW file's, or the whole range of a write of zeroes; fails only for want of memory |
| `IncTracing.BlocksReportedExactly` | src/snap_handle.c:306-310 | the blocks handed to the index are exactly those with a reported sector |
| `IncTracing.ReportedSetsFit` | src/tracer.c:597 | on a device of whole blocks every reported set, of segments or of zeroes, lies inside the index |
| `IncMarking.MarkWrite` | src/tracer.c:280-331 | from a write to the index: exactly the blocks it changes outside the COW file are marked, inside the index, and the count and memory bound are kept |
| `IncMarking.IncHandleSset` | src/snap_handle.c:303-321 | marks exactly the blocks of a sector set with the filler, or on failure the first few of them; keeps every other entry, the count and the memory bound |
| `UpdateImg.Update` | utils/update-img.c:182-227 | the chunk loop copies marked blocks only, as the system lets it, counts them all, and counts the errors that errno shows; it finishes iff every chunk of the index is read whole, and otherwise exits with what errno was then; the count of errors is `ErrorsExactly` |
| `UpdateImg.ZeroExitExactly` | utils/update-img.c:205-211 | a tool that stopped early exits with zero iff the index read was cut short and errno was clear, from the start or because a block before it was not copied |
| `UpdateImg.ShortIndexExitsZero` | utils/update-img.c:205-211 | an index too short copies nothing and exits with zero |
| `UpdateImg.NoErrorsExactly` | utils/update-img.c:36-49 | no error is reported iff no transfer failed and, if one fell short, errno was clear when the merge began |
| `UpdateImg.ErrorsExactly` | utils/update-img.c:217-218 | the reported count is the number of marked blocks whose transfer failed, plus one if errno was set at the start and the first marked block not copied fell short |
| `UpdateImg.CopyBlock` | utils/update-img.c:30-56 | the block afterwards and the result, for whole, short and failed reads and writes |
| `UpdateImg.NoErrorsMeansCopied` | utils/update-img.c:35-49 | without a reported error all marked blocks were copied iff the snapshot ends on a block boundary or its last block is unmarked, and the system cut no marked block's transfer short |
| `UpdateImg.PartialBlockLost` | utils/update-img.c:35-40 | a marked partial last block is left out without an error |
| `UpdateImg.FullDiskTears` | utils/update-img.c:43-48 | a short write tears a marked block without an error |
| `UpdateImg.CopiedIsMerge` | utils/update-img.c:213-221 | with every marked block copied the image is the plain merge |
| `UpdateImg.MergedBlock` | utils/update-img.c:213-221 | block by block, a merge takes the snapshot's block where marked |
| `BackupCycle.ChangedBlocksAreIndexed` | src/tracer.c:2076-2251 | once both old threads drained without failure, every traced block that differs between the two snapshots is among the marks of the old index |
| `BackupCycle.CompleteExactly` | src/tracer.c:2242-2248 | after a late failure the index is complete iff each changed block of the failed sector set has an entry anyway |
| `LateFailure.LateFailureMissesBlock` | src/tracer.c:2242-2248 | a run whose transition succeeded and whose old index misses a changed block |
| `IndexFile.StoresLinks` | src/cow_manager.c:996-1004 | while clones are stored, the manager's nonzero entries are the cycle's marks |
| `IndexFile.StoreNext` | src/snap_handle.c:240-291 | handling a clone keeps manager and cycle together |
| `IndexFile.MarkNext` | src/module_threads.c:73-78 | so does a sector set, marked wholly or in part |
| `IndexFile.CutData` | src/cow_manager.c:792-804 | so does giving up the data |
| `IndexFile.IndexStays` | src/module_threads.c:34-164 | no other event changes the marks |
| `IndexFile.CloseIndex` | src/cow_manager.c:439-472 | the words behind the closed file's header are nonzero exactly for the marks |
| `IndexFile.Backup` | utils/update-img.c:178-227 | closing the old index and running the tool on its file turns the first snapshot's image into the next snapshot on traced blocks, if no word was overwritten in the window of an answered read, no error is reported and no marked transfer was cut short; the tool finishes if neither the system nor its reads of the index fail |
| `TrackedCycle.SetUp` | src/cow_manager.c:685-780 | a new snapshot's manager stores what the empty cycle stores |
| `TrackedCycle.Tracked.HandleClone` | src/module_threads.c:147-157 | storing a clone, or failing to, keeps the manager's store the cycle's until the device fails |
| `TrackedCycle.Tracked.HandleSset` | src/module_threads.c:73-78 | a sector set, always inside the index, is marked wholly or in part and the index stays the cycle's |
| `TrackedCycle.Tracked.Observe` | src/module_threads.c:34-164 | any other event leaves the manager in step with the cycle |
| `TrackedCycle.Tracked.CutFile` | src/cow_manager.c:792-804 | so does cutting the file behind the index |
| `TrackedCycle.Tracked.Finish` | utils/update-img.c:178-227 | from a new snapshot through any events to the end of the cycle: `IndexFile.Backup` for the manager carried along, nothing assumed of its index |
| `TrackedCycle.StorySetsInside` | src/tracer.c:280-331 | in every reachable state the waiting sector sets lie inside the device |
| `BackupCycle.MergedImageIsNextSnapshot` | utils/update-img.c:201-224 | an image equal to the first snapshot, merged by the old marks with the next snapshot's answers, equals the next snapshot on traced blocks, for divided reads whose windows were undisturbed |
| `BackupCycle.UpdatedImageIsNextSnapshot` | utils/update-img.c:201-224 | the same for what a run of the tool leaves, from index words that carry the marks |
| `BackupCycle.StorySane` | src/module_threads.c:34-85 | changes made in incremental mode are in the index or in a pending sector set, in every reachable state |
| `BackupCycle.StrayExactly` | src/tracer.c:280-331 | the blocks that the backup leaves out are exactly those changed by stray writes or by segments of the COW file |
| `ShadowStack.RunRefines` | src/preempt_rethook.c:343-410 | after any well-nested run on any tasks, the next return goes to the true address and runs exactly its frame's hooks, newest first; a task is registered iff an open frame is hooked |
| `ShadowStack.HooksRunOnce` | src/preempt_rethook.c:370-382 | installed hooks are those that ran plus those on open frames, as multisets |
| `ShadowStack.DoneInstallsExactly` | src/preempt_rethook.c:211-219 | a pre-handler that reports success installed its hook iff memory did not run out or the task already had a hooked frame; otherwise nothing changed |
| `ShadowStack.Replay` | src/preempt_rethook.c:343-410 | the mechanism driven through any nested run stands for its call stacks |
| `ShadowStack.TopOfShadow` | src/preempt_rethook.c:311-341 | the walk and the hook loop see exactly the innermost frame |
| `ShadowStack.HookInPlace` | src/preempt_rethook.c:195-203 | another hook on a frame keeps slot and list in step with the call stack |
| `ShadowStack.Rethooks.FindRetAddr` | src/preempt_rethook.c:311-341 | finds the first node with a true return address |
| `ShadowStack.Rethooks.RunPostHooks` | src/preempt_rethook.c:369-382 | runs the hooks of the frame up to that node, in list order |
| `ShadowStack.Rethooks.TrampolineHandler` | src/preempt_rethook.c:343-410 | restores the slot, unlinks the used nodes, removes an emptied task |
| `ShadowStack.Rethooks.PreHandler` | src/preempt_rethook.c:211-309 | installs the hook, or one of two allocation failures leaves the frame unhooked |
| `Lifecycle.RunOk` | src/tracer.c:2327-2595 | after any run every tracer is in one of the six documented states, no block device has two tracers, and the walk over the minor range finds the table's first match |
| `Lifecycle.EventMoves` | src/bdev_state_handler.c:30-48 | a failure stays; the unverified state is left for good, into the active one and in the same mode; modes change between unfailed active states only, with the next file for a new snapshot; the block device is given once and the path of the COW file changes with a new snapshot only |
| `Lifecycle.SeriesNumbered` | src/tracer.c:2202-2216 | files of each series carry 1, 2, 3, ... if each transition continued the newest file |
| `Lifecycle.ContinuesExactly` | src/tracer.c:2212-2214 | a transition keeps the numbers in a row iff the file it continues is the newest of its series |
| `Lifecycle.OlderFileRepeatsNumber` | src/tracer.c:2202-2216 | reloading an older file of a series repeats a number |
| `Lifecycle.AcceptsExactlyPredecessor` | utils/update-img.c:91-110 | the tool accepts a COW file iff it was made right before the tracer's own in the same series |
| `Lifecycle.UnverifiedAcceptsNothing` | src/tracer.c:2305-2314 | an unverified tracer has the tool accept no file with a nonzero series identifier |
| `CowFiles.FilesKeepIdentity` | src/tracer.c:2202-2221 | in every run that makes no two files at one path, a file has the identity it was made with while it exists, and a tracer with an identity has the path of the file made with it |
| `CowFiles.MadeFileIsThere` | src/tracer.c:2213-2221 | setup and transition leave their new file at the path asked for, with the identity, path and mount of the tracer |
| `CowFiles.OldFileIsPredecessor` | utils/update-img.c:91-110 | after a transition that could close the old file, that file is where it was and the tool accepts it for the new snapshot |
| `CowFiles.OwnFileExactly` | src/tracer.c:2202-2248 | after a transition that closed the old file, the file at the new path carries the new identity iff the paths differ |
| `CowFiles.ReusedPathMisnames` | src/tracer.c:2202-2248 | a run with one path for two snapshots leaves the old identity in the new tracer's file |
| `Lifecycle.WalkSeesAll` | src/tracer_helper.h:18-22 | iterating lowest to highest minor misses no tracer |
| `Driver.Table.RecalculateRange` | src/tracer.c:393-411 | the range becomes the least and greatest minor in use |
| `Driver.Table.Include` | src/tracer.c:419-425 | the range grows to hold a minor |
| `Driver.Table.Walk` | src/bdev_state_handler.c:119-167 | finds the first match of the range |
| `Driver.Table.SetupSnap` | src/ioctl_handlers.c:142-217 | success: an active snapshot tracer in a slot that was free, with file 1 of a new series; otherwise slots and series unchanged; base, paths, mount and the file at the path are those asked for |
| `Driver.Table.Reload` | src/tracer.c:1931-1962 | success: an unverified tracer of the wanted mode in a slot that was free; no file is touched; with the paths asked for |
| `Driver.Table.Destroy` | src/ioctl_handlers.c:229-251 | removes a tracer not in use, and from the files exactly its COW file if that is open |
| `Driver.Table.TransitionInc` | src/ioctl_handlers.c:263-305 | success: the same file, incremental, active and unfailed; an error leaves the table alone or a failed incremental tracer; base, path and mount of the file stay |
| `Driver.Table.ThreadError` | src/module_threads.c:111-118 | an error of an active tracer's thread fails it; its COW file stays, or is closed and deleted; nothing else changes |
| `Driver.Table.TransitionSnap` | src/ioctl_handlers.c:323-366 | only an active, unfailed incremental does: a snapshot on the same block device with a new file at the path and on the mount asked for, with the next number of its series; the old file is closed with its own identity, or lost |
| `Driver.Table.UnverifiedToActive` | src/tracer.c:2360-2445 | active on the mounted device with the identity read from its file, or unverified and failed, or lost for want of memory; same mode, no other slot, same paths |
| `Driver.Table.DormantToActive` | src/tracer.c:2547-2595 | active with the identity read from the file, or failed in the same state; no other slot, same base, mode and paths |
| `Driver.Table.ActiveToDormant` | src/tracer.c:2327-2350 | dormant, its file closed with its own identity, or failed in the same state with its file gone; no other slot |
| `Driver.Table.Mounted` | src/bdev_state_handler.c:109-175 | no tracer before the first that sleeps on the device is touched, nor any after it; that one is dormant on the device, or unverified under a name of it; it becomes active and unfailed with its file's identity, the device and the mount, or keeps its stage and fails, or, if unverified, is lost for want of memory |
| `Driver.Table.Unmount` | src/bdev_state_handler.c:262-322 | touches only the one active, unfailed tracer of the device whose file is open on the mount: dormant if its file was closed and not reopened after a refusal, otherwise active; failed unless it is closed for good or reopened |

## Left out

- Kernel-version shims, request-queue and gendisk setup, ftrace registration and the assembly trampolines: foreign code. The `USE_HOOK_TRACER` configuration is the one modelled.
- Freezing and thawing the file system: a mode transition is one step that waits for intercepted writes to finish.
- Concurrency inside a step: one completion callback is one step, so the order of `sd_received_cnt` and `tp_put` within it is not visible. One iteration of the COW thread is one step in `Protocol`; `ReadWindow` divides it for reads, and the next device of `BackupCycle` uses those.
- Discards and requests made only of COW-file pages are not traced by the driver; the blocks they change are kept in `untraced` and `stray`, and no claim is made for them.
- Machine integers: block positions, usage counters and mappings are unbounded. Sequence numbers wrap at 64 bits.
- Power loss that reorders or tears writes: each file write is one step, in program order. The driver issues no flushes.
- `UpdateImg.Update`: takes an image at least as long as the snapshot's whole blocks; the tool would extend a shorter one. Output to the terminal is taken to leave errno alone.
- `CloneTiling.MakeReadClone`: takes it that a new clone accepts at least one page; with none, the code would make empty clones without end.
- `Driver.Table.Destroy`: takes it that tracing can be stopped; when the freeze fails, the code ignores the error and its slot keeps pointing to freed memory.
- `Driver.Table.TransitionInc`: does not join the table to the index; truncation of the file is in `CowManager.Manager.TruncateToIndex`, and its races with the incremental thread are not modelled.
- `Lifecycle.SeriesNumbered`: takes it that random uuids do not repeat.
- Lengths in `SnapHandle` are in sectors rather than bytes; section memory is an optional sequence in an array; the list of sector maps, the sector-set queue and the lists of return-hook nodes are sequences.
- Hooks that hook or return from functions of their own while the trampoline handler runs them.
- Lock order and deadlock: the mount path and the ioctl path take two locks in opposite orders.
- VFS wrappers, ioctl parameter copying, `/proc` output, the command-line tools other than `update-img`, `callback_refs.c`: plumbing.
