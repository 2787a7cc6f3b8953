# Kraken's bookkeeping, modelled in Dafny

Kraken distributes container blobs. What makes it correct is bookkeeping that many goroutines
share: which blobs still have to be written back, which peers are alive, which cache entry a
callback may touch, how many bytes of memory are spoken for, which hosts own a digest. This
project models those parts and proves what they keep, over every interleaving.

A concurrent part is a state machine. One step is one region under a lock, one channel operation
or one call to a store, and any goroutine may take the next step. `ValidRun` is a sequence of such
steps from an initial state, and the main results hold in every state of every valid run. Where
the source has an object, the same code also stands beside the state machine as a class with its
fields and loops; its methods are proved to compute the very functions the steps are made of.

Verify everything with `dafny verify dfyconfig.toml`.

## Layout

| area | modules |
|---|---|
| write-back of uploaded blobs | `TaskTable`, `WriteBack` (state machine), `RetryProofs`, `RetryDelay`, `Durability`, `OneNamespace`, `UnsafeSteps`, `LostBlobs`, `RetryManager`, `OriginFiles` |
| tracker peer store | `PeerGroup`, `PeerStore` |
| file map of the local store | `LruQueue`, `FileMap` (state machine) |
| in-memory blob cache and drain | `BlobCache`, `Drain` (state machine), `DrainFlow`, `DrainCases`, `DrainExpiry`, `CAStore` |
| HDFS listing | `HdfsList`, `HdfsProofs`, `HdfsPaths`, `HdfsEnding` |
| hash ring and health | `Rendezvous`, `HealthCheck`, `PassiveFilter`, `Ring` |
| background requests | `RequestCache`, `RequestHistory` |
| chunked upload and pieces | `FileReadWriter`, `ChunkedUpload`, `MetaInfo` |
| shared | `Sums`, `Seqs`, `Division`, `Bytes`, `Options` |

## Where the code does not do what is promised

These promises fail. The code is modelled as it is; each has a run or an input that shows the
failure, and a lemma with the exact condition under which the promise holds.

- A write-back row is supposed to mean that its blob is in the backend or on disk under `Persist`,
  and to vanish only once the backend has the blob. Two things break that.
  - `localFileOp.lockHelper` first makes sure the entry is in the file map and only then loads it.
    If the entry is evicted or deleted in between, the file stays on disk because of `Persist`, but
    the load reports a missing file; the executor drops the write-back of a blob the backend never
    saw. Such a removal is safe if and only if no worker is between those two halves with a blob the
    backend lacks (`UnsafeSteps.RemovalIsSafeIffOutsideWindow`); `LostBlobs.WindowIsReachable` is a
    run that gets there.
  - `Persist` is shared by all namespaces of a name. Deleting it after one upload is safe if and only
    if every other row and every call under way with that name is in the backend
    (`UnsafeSteps.ClearIsSafeIffOthersStored`); `LostBlobs.SharedNameLosesBlob` is a run that loses
    the blob of the second namespace. If each name belongs to one namespace the condition always
    holds (`OneNamespace.HomedRunsKeepPromise`).
- A task must not run before its delay is over. The store keeps creation times in whole seconds
  and at insertion, so a delayed task can start early, by less than a second. It never does, in any
  run, if and only if the rounding does not go back past its creation (`RetryDelay.RunsWaitIff`, with
  a run that is early otherwise).
- The memory cache's counter is exact, over a whole run, if and only if every blob that is cached has
  the size that was reserved for it (`Drain.CounterExactIff`; `DrainCases.WrongSizeIsMiscounted` is a
  run with another size).
- Moving a drained blob from memory to disk is to be invisible to readers. It is if and only if the
  file has not been deleted from disk since it was written and what memory holds under the name has
  its digest (`DrainFlow.ReadsSurviveIffOnDisk`). `DrainCases.DeletedFileIsNoticed` and
  `DrainCases.OtherDownloadIsNoticed` are runs of the two failures; in the second the blob has expired
  from memory and another, unverified, download was cached under its name. A blob that the TTL takes
  out of memory before it is drained cannot be read until it is (`DrainFlow.ReadsChangeIff`). And as a
  read looks in two places one after the other, a deletion in between can make it miss a name that is
  readable all the time (`DrainFlow.SplitReadFinds`, `DrainCases.SplitReadMisses`).
- An entry is to stay in memory for the TTL. A cleanup looks for old entries under one lock and removes
  them by name under another. It drops a name if and only if the entry it saw was too old
  (`DrainExpiry.CleanupDropsTheOld`), so an entry goes before its time only if its name was drained
  and downloaded again in between; `DrainExpiry.FreshEntryCanGo` is a run of that.
- `state.sync` says that hosts that leave are removed and new ones start healthy. Nothing ever
  leaves `all`, so a host that leaves and returns is not new. One that left healthy is healthy again
  if and only if it has completed a whole streak of passes since and not fallen again; one that left
  unhealthy is treated as if it had never been away, so passes from before still count
  (`HealthCheck.ReturningHostHealthyIff`, `HealthCheck.ShortStreakAfterReturn`).
- A chunked upload drops bytes that its reader returns together with the end of the file. A local
  file does that when it is read in parts; it is uploaded whole if and only if the read part size
  is 0 or the chunk size divides its length (`ChunkedUpload.FileUploadedWholeIff`).

## Model

| member | source | states |
|---|---|---|
| `TaskTable.TaskStore.AddWithStatus` | lib/persistedretry/writeback/store.go:138-167 | a new key gets its row; an existing key is an error and nothing changes |
| `TaskTable.TaskStore.MarkPending` | lib/persistedretry/writeback/store.go:58-77 | only the status changes; a missing row is an error |
| `TaskTable.TaskStore.MarkFailed` | lib/persistedretry/writeback/store.go:80-103 | status, one more failure and the time of the attempt; a missing row is an error |
| `TaskTable.TaskStore.Remove` | lib/persistedretry/writeback/store.go:106-116 | that row goes, no other changes |
| `TaskTable.TaskStore.SelectStatus` | lib/persistedretry/writeback/store.go:169-180 | every row with the status exactly once, and no other |
| `TaskTable.DelayRespectedIff` | localdb/migrations/00002_writeback_init.go:31 | rows get their creation time from the database, in whole seconds: a delay measured from the stored time never ends early if and only if rounding does not go back past its creation |
| `RetryProofs.StepKeepsRetryInv` | lib/persistedretry/manager.go:83-300 | every step of every goroutine, and a crash, keeps the one-copy invariant and the poller's stale list usable |
| `RetryProofs.OneCopyInEveryRun` | lib/persistedretry/manager.go:124-300 | in every reachable running state each pending row has exactly one copy among both channels, the workers and the enqueues in progress, and no failed row has any |
| `RetryProofs.NoKeyRunsTwice` | lib/persistedretry/manager.go:206-221 | no key is executed by two workers at once, also with full queues and a stale list of failed tasks |
| `RetryProofs.StartsWithAllFailed` | lib/persistedretry/manager.go:57-94 | after every restart all rows are failed and nothing is queued |
| `RetryProofs.RowsLeaveByCompletion` | lib/persistedretry/manager.go:285-300 | the only step that removes a row is a worker's whose Exec has just succeeded |
| `RetryProofs.RowsStayUntilExecuted` | lib/persistedretry/manager.go:83-300 | a row stays through any closes, crashes and restarts until a completion removes it |
| `RetryProofs.AcceptedHasRow` | lib/persistedretry/manager.go:124-150 | each time Add reports success, the first time or again, its row is in the store: also when the row existed, when it waits for its delay, and when the queue was full |
| `RetryProofs.AcceptedUntilExecuted` | lib/persistedretry/manager.go:124-300 | from each time Add reports success the row stays stored until an Exec of it has succeeded, through closes, crashes and restarts |
| `RetryProofs.OnlyAddAccepts` | lib/persistedretry/manager.go:124-150 | no other step makes a key accepted |
| `RetryDelay.DelayInvInEveryRun` | lib/persistedretry/manager.go:130-251 | no row becomes pending before its delay is over, by the process's or by the store's clock |
| `RetryDelay.NoEarlyRun` | lib/persistedretry/manager.go:206-251 | no worker ever holds a task more than the rounded second before its delay is over, nor early at all if the stored creation time is not before the real one |
| `RetryDelay.RetriesWait` | lib/persistedretry/manager.go:237-251 | in every run a failed row turns pending only when now - createdAt is at least its delay and now - lastAttempt is more than the retry interval, and then nothing else in it changes |
| `RetryDelay.PollerPicksTheDue` | lib/persistedretry/manager.go:237-251 | in every run the poller picks the row it comes to if and only if, in the table as it is then, both waits are over; a row it does not pick it skips |
| `RetryDelay.RunsWaitIff` | lib/persistedretry/manager.go:237-251 | a task not ready when stored is never run early in any run if and only if rounding does not go back past its creation; otherwise there is a run in which a worker takes it early |
| `RetryManager.Manager.constructor` | lib/persistedretry/manager.go:57-81 | a new manager has made every pending row a failed one and keeps all others |
| `RetryManager.Manager.MarkPendingTasksAsFailed` | lib/persistedretry/manager.go:83-94 | exactly the pending rows are charged one failure |
| `RetryManager.Manager.Enqueue` | lib/persistedretry/manager.go:181-194 | a row's key joins the channel if there is room, otherwise the row fails |
| `RetryManager.Manager.Add` | lib/persistedretry/manager.go:124-150 | refused after Close; an existing task is untouched; a new one is stored with its delay, the whole second of now and no failures, pending and queued exactly when now - created is at least the delay and there is room; ready without room it counts one failed attempt; other rows unchanged; one copy each is kept |
| `RetryManager.Manager.Retry` | lib/persistedretry/manager.go:196-204 | a failed row becomes pending and queued, or is charged one more failure |
| `RetryManager.Manager.PollRetries` | lib/persistedretry/manager.go:237-251 | a row changes or is queued if and only if it had failed, now - createdAt is at least its delay and now - lastAttempt is more than the retry interval; it is charged a failure instead of queued only if the channel ended up full |
| `RetryManager.Manager.Work` | lib/persistedretry/manager.go:285-300 | the head of that channel is executed and the other channel left alone; success removes its row, failure charges it; one copy each is kept |
| `RetryManager.Manager.Close` | lib/persistedretry/manager.go:169-175 | closed afterwards |
| `OriginFiles.Origin.Commit` | lib/store/base/file_entry.go:341-370 | a file is created or found, never replaced; its name is on disk and in the map and nothing else changes |
| `OriginFiles.Origin.DeleteFile` | lib/store/base/file_entry.go:432-446 | the file goes unless `Persist` is set; the entry leaves the map either way |
| `OriginFiles.Origin.SetPersist` | lib/store/base/file_entry.go:507-518 | sets `Persist` of a file that exists |
| `OriginFiles.Origin.DeletePersist` | lib/store/base/file_entry.go:564-571 | clears `Persist` of a file that exists |
| `OriginFiles.Origin.Exec` | lib/persistedretry/writeback/executor.go:63-120 | succeeds only with the blob in the backend or no file to upload; clears `Persist` exactly on success; fails exactly on an error of the client, the file, the upload or the metadata |
| `Durability.StepKeepsDurable` | origin/blobserver/server.go:851-868 | every calm step of uploads, conflict retries, workers, removals and crashes keeps each row's blob in the backend or on disk under `Persist`, whatever names share namespaces |
| `Durability.ClearKeepsDurable` | lib/persistedretry/writeback/executor.go:63-76 | deleting `Persist` when everything else under the name is stored uncovers no row and no call under way |
| `Durability.CalmRunsAreDurable` | origin/blobserver/server.go:691-704 | in every calm run every row's and every accepted blob is in the backend or protected on disk |
| `Durability.RowsLeaveOnlyWhenStored` | lib/persistedretry/writeback/executor.go:78-120 | in every calm run a row vanishes only when the backend has its blob |
| `Durability.CalmRunsKeepPromise` | lib/persistedretry/writeback/executor.go:63-120 | every calm run keeps both halves of the promise throughout |
| `OneNamespace.HomedRunsKeepPromise` | lib/persistedretry/writeback/executor.go:63-120 | with one namespace for each name the promise needs only that removals stay outside the window |
| `UnsafeSteps.RemovalLosesProtection` | lib/store/base/file_op.go:155-188 | a removal inside the window can always be continued by calm steps to a broken promise, and to an unprotected blob with a row if nothing else relies on its metadata |
| `UnsafeSteps.RemovalIsSafeIffOutsideWindow` | lib/store/base/file_op.go:155-188 | a removal keeps the promise in every calm continuation if and only if no worker is inside the window for that name |
| `UnsafeSteps.ClearIsSafeIffOthersStored` | lib/persistedretry/writeback/executor.go:71-74 | deleting `Persist` keeps the promise in every calm continuation if and only if every other row and every call under way with that name is in the backend |
| `LostBlobs.WindowIsReachable` | lib/store/base/file_op.go:116-188 | a calm run from an empty origin reaches the window with an accepted blob |
| `LostBlobs.SharedNameIsReachable` | origin/blobserver/server.go:851-868 | a calm run from an empty origin has an uploaded blob about to lose `Persist` while a second namespace's row relies on it |
| `LostBlobs.SharedNameLosesBlob` | lib/persistedretry/writeback/executor.go:63-76 | that run goes on to delete the only copy of a blob with a row |
| `PeerGroup.UpdatedMeans` | tracker/peerstore/local.go:119-140 | an announce changes its own peer's entry or appends one, and keeps ids distinct |
| `PeerGroup.SweepRemovesTheDoomed` | tracker/peerstore/local.go:215-238 | removing from the back by swapping in the last entry removes exactly the listed entries that are expired, each once |
| `PeerGroup.SweepExact` | tracker/peerstore/local.go:215-238 | an entry survives a sweep if and only if it was not listed or is not expired; ids stay distinct |
| `PeerGroup.Group.Update` | tracker/peerstore/local.go:119-140 | list and map are updated together and hold the same entry objects; the last expiry moves |
| `PeerGroup.Group.Expired` | tracker/peerstore/local.go:201-207 | the indexes of exactly the expired entries, ascending |
| `PeerGroup.Group.RemoveExpired` | tracker/peerstore/local.go:215-238 | the sweep of the specification; list and map still hold the same entries |
| `PeerGroup.Group.RemoveAt` | tracker/peerstore/local.go:232-236 | the last entry takes the removed one's place, in list and map |
| `PeerGroup.Group.Sample` | tracker/peerstore/local.go:85-116 | as many distinct peers as asked for or there are |
| `PeerStore.InvInEveryRun` | tracker/peerstore/local.go:119-268 | a group is mapped exactly when it is not marked deleted, its last expiry bounds every entry's, ids are distinct, and a snapshot stays a prefix of the ids |
| `PeerStore.PeerStaysUntilExpiry` | tracker/peerstore/local.go:119-175 | a peer announced at t is in the group mapped under its hash, the same group, at every moment before t + TTL |
| `PeerStore.PassRemovesExactly` | tracker/peerstore/local.go:190-242 | one pass removes exactly the entries expired in its snapshot and not refreshed before the write lock, adds none and keeps ids distinct |
| `PeerStore.GroupGoesIffExpired` | tracker/peerstore/local.go:244-268 | in every run a group leaves the map if and only if a check finds now past its last expiry, and then every entry in it has expired |
| `PeerStore.LocalStore.UpdatePeer` | tracker/peerstore/local.go:119-175 | only the hash's group changes, and it holds the peer |
| `PeerStore.LocalStore.CleanupExpiredPeerEntries` | tracker/peerstore/local.go:190-242 | every group keeps exactly its unexpired entries |
| `PeerStore.LocalStore.CleanupExpiredPeerGroups` | tracker/peerstore/local.go:244-268 | exactly the groups past their last expiry go |
| `LruQueue.TouchKeepsShape` | lib/store/base/file_map.go:93-107 | a lookup keeps queue and map holding the same entries, once each and under their own names |
| `LruQueue.RemovalKeepsShape` | lib/store/base/file_map.go:150-165 | so does a removal |
| `LruQueue.PushKeepsShape` | lib/store/base/file_map.go:133-140 | and an addition |
| `LruQueue.TouchMovesToFront` | lib/store/base/file_map.go:93-100 | a lookup puts its entry first and leaves the others in their order |
| `LruQueue.LastUseMeans` | lib/store/base/file_map.go:93-100 | the last use of an entry is the latest lookup that found it or addition of it |
| `LruQueue.QueueIsByLastUse` | lib/store/base/file_map.go:93-165 | after every sequence of lookups, additions and removals the queue is ordered by last use, latest first |
| `LruQueue.BackIsLeastRecent` | lib/store/base/file_map.go:142-148 | so its back is the entry whose last use is the oldest |
| `FileMap.OrderedInEveryRun` | lib/store/base/file_map.go:93-382 | so it is in every state of every interleaving |
| `FileMap.EvictsLeastRecent` | lib/store/base/file_map.go:167-180 | in every run a store goes after the entry whose last use is the oldest if and only if the map is limited and over its limit |
| `FileMap.InvInEveryRun` | lib/store/base/file_map.go:167-382 | entry locks are exclusive or shared, and whoever validated an entry under its lock still has it mapped |
| `FileMap.CallbackSeesItsEntry` | lib/store/base/file_map.go:215-382 | while a callback runs its name is mapped to the very entry it was given |
| `FileMap.CallbacksOverlapOnlyAsReaders` | lib/store/base/file_map.go:279-352 | two callbacks on one name overlap only if both are readers, also across deletes, stores and evictions |
| `FileMap.NeverStuck` | lib/store/base/file_map.go:167-382 | while an operation is under way some operation can go on |
| `FileMap.LruFileMap.SyncGet` | lib/store/base/file_map.go:93-107 | a mapped entry is at the front afterwards and the others keep their order; another name changes nothing |
| `FileMap.LruFileMap.Add` | lib/store/base/file_map.go:133-140 | a new name goes to the front, an existing one is left alone |
| `FileMap.LruFileMap.SyncRemove` | lib/store/base/file_map.go:150-165 | the entry leaves queue and map, and the others keep their order |
| `FileMap.LruFileMap.RemoveOldestIfNeeded` | lib/store/base/file_map.go:167-201 | over the limit, exactly the entry goes whose last lookup or addition is the oldest, and the others keep their order |
| `FileMap.LruFileMap.StoreEntry` | lib/store/base/file_map.go:215-272 | stored exactly when the name is new and the callback agrees; a refused entry leaves no trace |
| `FileMap.LruFileMap.TryStore` | lib/store/base/file_map.go:215-272 | called one at a time, the map never outgrows its limit, and a full one makes room by dropping the entry whose last use is the oldest |
| `BlobCache.RemovalIsExact` | utils/cache/blob_memory_cache.go:109-131 | removing an entry takes its size off the counter, and cannot underflow |
| `BlobCache.BatchIsExact` | utils/cache/blob_memory_cache.go:196-209 | so does removing a batch, also with repeated and absent names |
| `BlobCache.BatchNeverUnderflows` | utils/cache/blob_memory_cache.go:196-209 | no removal within a batch meets a counter smaller than its entry |
| `BlobCache.BlobMemoryCache.TryReserve` | utils/cache/blob_memory_cache.go:150-160 | reserves exactly when the total stays within the limit |
| `BlobCache.BlobMemoryCache.ReleaseReservation` | utils/cache/blob_memory_cache.go:164-175 | gives a reservation back |
| `BlobCache.BlobMemoryCache.Add` | utils/cache/blob_memory_cache.go:71-87 | turns reserved bytes into cached ones unless the name is taken; the counter goes on covering the cached bytes if and only if as many were reserved |
| `BlobCache.BlobMemoryCache.Remove` | utils/cache/blob_memory_cache.go:109-121 | that entry and its bytes go; reservations stay |
| `BlobCache.BlobMemoryCache.RemoveBatch` | utils/cache/blob_memory_cache.go:196-209 | those entries and their bytes go; reservations stay |
| `BlobCache.BlobMemoryCache.GetExpiredEntries` | utils/cache/blob_memory_cache.go:179-192 | exactly the names older than the TTL |
| `Drain.CounterIsExact` | utils/cache/blob_memory_cache.go:71-209 | as long as no blob of another size than reserved has been cached, the counter is cached bytes plus outstanding reservations and within the limit |
| `Drain.CounterExactIff` | utils/cache/blob_memory_cache.go:71-209 | over every run the counter is exact throughout if and only if every blob cached has the size reserved for it |
| `Drain.FullDeliveriesFit` | lib/store/ca_store.go:261-298 | a backend that delivers what it announced never causes that |
| `Drain.NoUnderflow` | utils/cache/blob_memory_cache.go:123-209 | in every such run no removal, no removal within a batch and no release meets a counter that is too small |
| `Drain.AddIsBalancedIff` | lib/store/ca_store.go:261-298 | caching a blob keeps the balance if and only if its size is the size reserved |
| `DrainCases.WrongSizeIsMiscounted` | lib/store/ca_store.go:261-298 | for every announced size and download of another size, a run after which the counter is wrong |
| `DrainFlow.FlowInvInEveryRun` | lib/store/ca_store.go:261-442 | one drain item for each blob in flight, its retry counter the number of failed writes, and every cached blob in flight |
| `DrainFlow.AcceptedBlobIsAccountedFor` | lib/store/ca_store.go:399-442 | an accepted blob has exactly one item, or an earlier step wrote it and its own bytes are on disk unless deleted since, or it was dropped after exactly the retry limit plus one failed writes |
| `DrainFlow.CachedBlobHasItem` | lib/store/ca_store.go:286-335 | every cached entry has a drain item queued, held or about to be queued |
| `DrainFlow.DrainingIsBounded` | lib/store/ca_store.go:399-442 | while nothing is added, drain workers take at most three steps for the first write and for each retry of each item queued or held, whatever else happens |
| `DrainFlow.DrainingGoesOn` | lib/store/ca_store.go:399-442 | and while work is left some worker can take one |
| `Drain.RemovalReads` | lib/store/ca_store.go:462-470 | taking a name out of memory changes no read of it if and only if memory did not hold it, or the disk does and what memory held had its digest; other names never change |
| `DrainFlow.ReadsSurviveIffOnDisk` | lib/store/ca_store.go:417-470 | in every run the end of a drain leaves reads unchanged under exactly that condition |
| `DrainFlow.WrittenFileStays` | lib/store/ca_store.go:205-233 | a file written by a drain worker, or found already there, stays until deleted |
| `DrainFlow.DrainIsInvisible` | lib/store/ca_store.go:417-470 | without a deletion in between, no reader of any name can tell that the blob moved if and only if what memory holds under its name has the digest |
| `DrainFlow.ReadsChangeIff` | lib/store/ca_store.go:375-470 | in every run a step changes what a reader of a name gets if and only if it takes the name out of memory (end of a drain, last failed retry, TTL) while the disk lacks the file or memory held something without the digest, caches something the disk does not have, or creates or deletes the file while memory has nothing |
| `DrainFlow.SplitReadFinds` | lib/store/ca_store.go:462-470 | a read that looks in memory and later on disk finds what was readable when it began, unless the file is deleted in between |
| `DrainCases.SplitReadMisses` | lib/store/ca_store.go:462-470 | a run in which it finds nothing although the name was readable at every moment, because of such a deletion |
| `DrainCases.DeletedFileIsNoticed` | lib/store/ca_store.go:417-470 | a run in which the file is deleted before the blob leaves memory, and reads find nothing |
| `DrainCases.OtherDownloadIsNoticed` | lib/store/ca_store.go:261-298 | a run in which the drain of an expired blob takes another download out of memory, and reads change |
| `DrainExpiry.StampedInEveryRun` | lib/store/ca_store.go:261-298 | in every run a cached entry's creation time is the time at which its download was done |
| `DrainExpiry.CleanupDropsTheOld` | lib/store/ca_store.go:375-381 | in every run a cleanup drops a cached name if and only if the entry it saw under it was more than the TTL old; if that is still the entry cached, what is dropped is too |
| `DrainExpiry.FreshEntryCanGo` | lib/store/ca_store.go:375-381 | for every blob, a run in which a cleanup drops an entry of age zero, cached again after the cleanup looked |
| `CAStore.Store.WriteBlob` | lib/store/ca_store.go:237-253 | memory exactly when the download works, the announced size fits and the name is free, and then as the entry with these bytes created now, queued for drain with no retries; otherwise disk, verified; files already there stay; the counter stays exact if and only if a cached blob has the announced size |
| `CAStore.Store.AddToMemoryCache` | lib/store/ca_store.go:261-298 | cached and queued for drain, or nothing changed and the reservation given back |
| `CAStore.Store.DrainNext` | lib/store/ca_store.go:417-458 | one item: written and out of memory, or queued again with one more retry, or dropped at the limit; readers notice a successful write if and only if memory held something without the digest |
| `CAStore.Store.CleanupExpired` | lib/store/ca_store.go:375-381 | what was cached at t stays if and only if now - t is at most the TTL |
| `CAStore.Store.GetCacheFileReader` | lib/store/ca_store.go:462-470 | the read that the drain results are about: nothing if and only if neither memory nor disk has the name, and whatever comes from disk has the digest it is named by |
| `HdfsList.ScanListing` | lib/backend/hdfsbackend/client.go:227-261 | by position: the directories collected are exactly those neither ignored nor stopped, and the entries named exactly the stopped ones, by their tag link, and the other files, by their path, without the ignored ones |
| `HdfsProofs.ListAgreesWithWalk` | lib/backend/hdfsbackend/client.go:173-276 | a successful listing returns the names of the sequential walk, each as often; it fails only if the walk meets an error and never succeeds if it does |
| `HdfsPaths.WalkListsPlaces` | lib/backend/hdfsbackend/client.go:227-261 | for every tree the sequential walk lists a name as often as there are places that bear it and can be reached through directories that are found and neither ignored nor stopped |
| `HdfsPaths.BreaksIff` | lib/backend/hdfsbackend/client.go:215-226 | the walk meets an error if and only if it can reach a directory whose listing fails other than by absence |
| `HdfsPaths.ListReturnsThePlaces` | lib/backend/hdfsbackend/client.go:173-276 | in every run a listing that succeeds returns every name as often as there are such places, with no such directory broken; one that fails could reach a broken one |
| `HdfsPaths.ListingIsBounded` | lib/backend/hdfsbackend/client.go:146-276 | no run takes more than three steps for each directory that can be reached |
| `HdfsProofs.PendingCountsOutstanding` | lib/backend/hdfsbackend/client.go:210-271 | pending is always the directories unsent, being listed or undelivered |
| `HdfsProofs.ListingTerminates` | lib/backend/hdfsbackend/client.go:146-276 | no run takes more than three steps for each directory the walk visits |
| `HdfsProofs.NeverStuck` | lib/backend/hdfsbackend/client.go:146-170 | until it returns, some goroutine can go on |
| `HdfsEnding.EndingIsBounded` | lib/backend/hdfsbackend/client.go:193-206 | after List has returned its goroutines take at most three steps for each directory not yet sent and each lister |
| `HdfsEnding.NobodyIsLeftBehind` | lib/backend/hdfsbackend/client.go:146-170 | and nothing can happen any more if and only if all of them have ended |
| `Rendezvous.OrderMeans` | lib/hrw/rendezvous.go:198-208 | the order is all nodes by falling score |
| `Rendezvous.OrderIgnoresInsertionOrder` | lib/hrw/rendezvous.go:166-208 | it does not depend on the order nodes were added |
| `Rendezvous.OneMemberKeepsOrder` | lib/hrw/rendezvous.go:166-208 | adding one member keeps the relative order of all others |
| `Rendezvous.RemovalKeepsOrder` | lib/hrw/rendezvous.go:176-183 | so does removing one |
| `Rendezvous.TopKGainsOnlyTheNewNode` | lib/hrw/rendezvous.go:198-208 | for every key the top k of the larger set lie in the top k of the smaller and the new node |
| `Rendezvous.TopKLosesOnlyTheLast` | lib/hrw/rendezvous.go:198-208 | and all but the last of the old top k stay |
| `Rendezvous.TopIsBest` | lib/hrw/rendezvous.go:198-208 | the top k are k nodes, or all if there are fewer, by falling score, and no node left out scores higher than one taken |
| `Rendezvous.RendezvousHash.AddNode` | lib/hrw/rendezvous.go:166-173 | appends the node |
| `Rendezvous.RendezvousHash.RemoveNode` | lib/hrw/rendezvous.go:176-183 | removes the first node of that label, if any, and leaves the others in place |
| `Rendezvous.RendezvousHash.GetNode` | lib/hrw/rendezvous.go:186-193 | the first node of that label, or none |
| `Rendezvous.RendezvousHash.GetOrderedNodes` | lib/hrw/rendezvous.go:198-208 | the n best nodes by falling score, or all if there are fewer |
| `HealthCheck.SyncedHealthIff` | lib/healthcheck/state.go:46-63 | after a sync a host is healthy if and only if it is a member and new or was healthy |
| `HealthCheck.ReturningHostIsNotNew` | lib/healthcheck/state.go:46-63 | a host that leaves and returns comes back unhealthy |
| `HealthCheck.ReturningHostHealthyIff` | lib/healthcheck/state.go:46-93 | after any events since: if it left healthy it is healthy if and only if it completed a streak of passes and has not fallen since; if it left unhealthy it is as if it had never left |
| `HealthCheck.OnePassAfterReturn` | lib/healthcheck/state.go:46-85 | when a single pass after the return is enough |
| `HealthCheck.ShortStreakAfterReturn` | lib/healthcheck/state.go:46-85 | with two passes asked for, a pass before leaving and one after the return make a host healthy |
| `HealthCheck.CheckedMeans` | lib/healthcheck/filter.go:49-74 | a run changes each checked host's trend and health by its own result and nothing else |
| `HealthCheck.CheckOrderIsIrrelevant` | lib/healthcheck/filter.go:58-71 | the order in which the checks finish does not matter |
| `HealthCheck.TrendIsCappedStreak` | lib/healthcheck/state.go:66-85 | over every life the trend is the signed length of the latest streak, cut off at the threshold; absences interrupt it only for a healthy host |
| `HealthCheck.HealthyIff` | lib/healthcheck/state.go:46-93 | over every life a host is healthy if and only if it started out healthy or completed a streak of passes, and has neither completed a streak of failures nor left while healthy since |
| `HealthCheck.HistoryDecidesHealth` | lib/healthcheck/filter.go:49-74 | from any state and after any rounds, present, absent or over a single address, what is known of a host is decided by its own events alone |
| `HealthCheck.Filter.Sync` | lib/healthcheck/state.go:46-63 | both loops together compute the synced state |
| `HealthCheck.Filter.Mark` | lib/healthcheck/state.go:66-85 | one result recorded |
| `HealthCheck.Filter.Run` | lib/healthcheck/filter.go:49-74 | a lone host is healthy; of several, exactly those that started out healthy or completed a streak of passes and have not fallen since, by their own history |
| `PassiveFilter.FailuresAreTheWindow` | lib/healthcheck/passive_filter.go:72-96 | the recorded failures are exactly those in the window ending at the latest one |
| `PassiveFilter.FilteredIffRecentTrip` | lib/healthcheck/passive_filter.go:54-96 | over every history on a clock that does not go back, a host is recorded unhealthy if and only if some failure not older than FailTimeout had at least Fails failures, itself included, in the window ending at it |
| `PassiveFilter.Filter.Failed` | lib/healthcheck/passive_filter.go:72-96 | extends the history by the failure |
| `PassiveFilter.Filter.Run` | lib/healthcheck/passive_filter.go:54-69 | the hosts asked about without those filtered by the history |
| `Ring.OwnersMeans` | lib/hashring/ring.go:91-118 | owners are never empty, never repeat, are members, are healthy if any member is, and include every healthy member among the first MaxReplica |
| `Ring.OwnersByPosition` | lib/hashring/ring.go:91-118 | position by position: the owners are the healthy ones among the first MaxReplica in their order, or else the first healthy member, or else the first member |
| `Ring.OwnersDependOnMembership` | lib/hashring/ring.go:96-165 | two rings with the same members and health answer every digest alike |
| `Ring.JoiningDisplacesOnlyToItself` | lib/hashring/ring.go:96-118 | when a member joins, only it can be a new owner of any digest, also where no replica or no member is healthy |
| `Ring.HashRing.constructor` | lib/hashring/ring.go:75-89 | the first refresh establishes the ring's invariant |
| `Ring.HashRing.Refresh` | lib/hashring/ring.go:142-165 | membership and health are the latest, the hash holds exactly the members, watchers are told exactly on a change |
| `Ring.HashRing.RefreshWithPassive` | lib/hashring/ring.go:142-165 | with the passive filter the healthy members are those without a recent trip |
| `Ring.HashRing.RefreshWithActive` | lib/hashring/ring.go:142-165 | with the active filter a lone member is healthy, and of several those whose history of checks and absences says so |
| `Ring.HashRing.Locations` | lib/hashring/ring.go:96-118 | the loop computes the owners, position by position; the fatal check cannot fire |
| `RequestCache.CleaningIsInvisible` | utils/dedup/request_cache.go:142-166 | removing expired errors changes no later answer |
| `RequestCache.InvInEveryRun` | utils/dedup/request_cache.go:127-210 | an id is pending exactly while one caller holds it, and each busy worker holds one token |
| `RequestCache.BodiesAreExclusiveAndBounded` | utils/dedup/request_cache.go:127-210 | no two bodies run under one id, and no more than NumWorkers run |
| `RequestCache.PendingIffHeld` | utils/dedup/request_cache.go:142-166 | Start answers "pending" if and only if some caller holds the id |
| `RequestCache.FailureBlocksItsId` | utils/dedup/request_cache.go:142-195 | after a failure at t every Start up to t + TTL gets that error, and no body runs under the id |
| `RequestHistory.LatestFailureIsRemembered` | utils/dedup/request_cache.go:142-195 | in every run the table holds the latest failure under an id with its deadline, unless that is past |
| `RequestHistory.StartIsToldTheLatestFailure` | utils/dedup/request_cache.go:127-195 | in every run a Start under an id nobody holds is told err if and only if the latest failure under it was err, recorded at t, and now is at most t plus the TTL the matcher gave it at t; otherwise it is granted |
| `RequestCache.CallerCanStep` | utils/dedup/request_cache.go:168-210 | a caller can always move on towards giving up its id and its worker |
| `RequestCache.Cache.Reserve` | utils/dedup/request_cache.go:142-166 | pending, the cached error if now is at most its deadline, or granted; cleaning happens exactly when due and takes exactly the errors past their deadline |
| `RequestCache.Cache.RemoveExpired` | utils/dedup/request_cache.go:146-154 | exactly the errors past their deadline go |
| `RequestCache.Cache.Release` | utils/dedup/request_cache.go:176-181 | the id is no longer pending |
| `RequestCache.Cache.Error` | utils/dedup/request_cache.go:183-195 | the error is cached until now plus the TTL of its kind, by the matcher in force, and the id released |
| `FileReadWriter.WrittenInParts` | lib/store/base/file_readwriter.go:59-98 | writing in parts is writing at once |
| `FileReadWriter.WrittenMeans` | lib/store/base/file_readwriter.go:59-98 | a write lands in its range, leaves the rest alone and fills a gap with zeros |
| `FileReadWriter.AheadMeans` | lib/store/base/file_readwriter.go:101-140 | a read gets as many bytes as asked for or left, and just those at its offset |
| `FileReadWriter.ReadBack` | lib/store/base/file_readwriter.go:59-140 | what was written at an offset is read back there |
| `FileReadWriter.LocalFile.Write` | lib/store/base/file_readwriter.go:59-76 | for every part size, all of the buffer at the offset |
| `FileReadWriter.LocalFile.WriteAt` | lib/store/base/file_readwriter.go:79-98 | for every part size, all of the buffer at the given offset |
| `FileReadWriter.LocalFile.Read` | lib/store/base/file_readwriter.go:101-119 | the bytes do not depend on the part size, but the end of the file does |
| `FileReadWriter.LocalFile.ReadAt` | lib/store/base/file_readwriter.go:122-140 | neither bytes nor end depend on the part size |
| `ChunkedUpload.TilesDoNotOverlap` | origin/blobclient/uploader.go:44-67 | patches lie one after the other |
| `ChunkedUpload.TilesCover` | origin/blobclient/uploader.go:44-67 | every byte lies in some patch |
| `ChunkedUpload.Uploader.Start` | origin/blobserver/uploader.go:38-53 | an empty upload file, unless the blob exists |
| `ChunkedUpload.Uploader.PatchUpload` | origin/blobserver/uploader.go:55-86 | for every part and buffer size the chunk's bytes at its range; each error and what it leaves behind |
| `ChunkedUpload.Uploader.Commit` | lib/store/ca_store.go:175-192 | the verified upload becomes the cache file, once; each error; the upload file is gone |
| `ChunkedUpload.SendChunk` | origin/blobclient/uploader.go:51-64 | one chunk is appended to the upload file, unless someone else has committed the blob |
| `ChunkedUpload.RunChunkedUpload` | origin/blobclient/uploader.go:44-67 | for every way a reader splits a blob the patches tile what it delivered before its last outcome, the upload file equals that before commit, and without interference success is exactly a sound reader and a matching digest |
| `ChunkedUpload.WholeIffEndAlone` | origin/blobclient/uploader.go:52-60 | the upload is the whole blob if and only if no bytes come with the end of the file |
| `ChunkedUpload.FileUploadedWholeIff` | origin/blobclient/uploader.go:44-67 | a local file is uploaded whole if and only if it is read in one part or the chunk size divides its length |
| `ChunkedUpload.ReadAll` | lib/store/base/file_readwriter.go:101-119 | the outcomes of reading a local file to its end |
| `ChunkedUpload.UploadFile` | origin/blobclient/uploader.go:36-67 | a local file uploaded from start to commit: what is committed is the file if and only if that condition holds, and matches its digest when that is checked |
| `MetaInfo.PiecesTileTheBlob` | core/metainfo.go:154-175 | the pieces put together are the blob |
| `MetaInfo.PieceCount` | core/metainfo.go:93-95 | the number of pieces is the length over the piece length, rounded up |
| `MetaInfo.PieceLengthsAreTrue` | core/metainfo.go:105-114 | every piece's length is between 1 and the piece length, and its sum is that of exactly its slice |
| `MetaInfo.NoLengthOutside` | core/metainfo.go:105-114 | the length is zero exactly for indexes without a piece |
| `MetaInfo.LengthsAddUp` | core/metainfo.go:105-114 | the lengths add up to the blob's, also for the empty blob and exact multiples |
| `MetaInfo.CalcPieceSums` | core/metainfo.go:154-175 | the loop records the sum of every piece; it fails exactly for a piece length that is not positive or a reader that breaks |

## What the model assumes

- Store calls succeed; a crash may come between any two of them.
- The namespace has a configured backend that keeps what it is given.
- Clocks do not go back. Code that reads the clock several times under one lock reads it once here.
- Scores of different nodes differ, and the host list is never empty.
- The directory tree does not change while it is listed, and every request for a listing returns.
- Upload ids and blob ids are new. Integers do not wrap.
- Where bytes read are compared, no two byte strings have one digest.

## Left out

- HTTP handlers, TLS, metrics, logging, command line and configuration loading.
- Backends other than HDFS listing: a backend is a set of keys.
- `maybeDelete`, forced cleanup and `SyncExec`: not atomic with write-back, and outside the promise.
- Write-back of unconfigured namespaces, which the executor drops on purpose.
- Last-access-time and torrent metadata; of all metadata only `Persist` is modelled.
- An exact size limit of the file map under concurrent stores, which can pick the same victim.
- Writer preference of Go's read-write locks: any waiting goroutine may get the lock, so no fairness is claimed.
- `utils/dedup/limiter.go` and the thresholds of `lib/store/cleanup.go`.
- Hash functions and floating-point scores: uninterpreted functions.
- Text of SQL statements, regular expressions and path cleaning: keyed maps and predicates.
- Closing the memory cache and its workers.
- The deliberately unspecified order of Go's map iteration is an arbitrary choice; `sort.Sort` is an insertion sort, which gives the same order when scores differ.
- PeerStore.LocalStore.UpdatePeer: the store class holds its groups as values; entry objects and list-and-map aliasing are modelled in `PeerGroup.Group`.
- RequestCache.Cache.Reserve: the worker channel is part of the state machine only, not of the class.
- TaskTable.TaskStore.MarkFailed: the copies of failures and last attempt in the caller's own task object are not modelled, only the row.
- RetryManager.Manager.Close: that it stops the workers and waits for them is not modelled; in the state machine workers may finish after Close or be cut off by the end of the process.
