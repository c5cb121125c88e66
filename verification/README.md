# Verification of Qcm's stateful components

Qcm is a music client: a Rust backend that keeps a local library in step with remote providers, and a
C++/Qt application with an audio player and a play queue. This project models the parts whose correctness
depends on whole runs rather than on single calls, and proves it.

- **Full synchronization.** `SyncProtocol` is the labelled transition system of one provider's write mutex,
  token and favourites journal, with any number of runs, guards, cancellations and local writes interleaved.
  `LockOrder` is the lock discipline of all providers and the projection lock. `SyncRun` holds the classes of
  the coordinator and of a run; `Catalogue`, `Retention` and `Prune` are the database with its cascades, the
  lease counters and the exact effect of a prune; `LeaseProtocol` interleaves leases with the protocol.
  `BatchInput`, `Registry`, `BatchTables` and `SyncBatch` say
  what a batch does, as functions of the database, and when a replay changes nothing; `BatchSteps` and
  `BatchWriter` hold the loops of one transaction and prove that they compute these functions. `BatchEffects` says what an
  accepted batch leaves, entry by entry and without these functions, and `BatchExample` has one that uses every
  stage. `FavoriteSync` puts journal and batches together.
- **Session registries.** `RadioOperations` (idempotent operations), `RadioSession` (the continuation chain),
  `RadioRegistry` (release once, shutdown) and `Playback` (the same with sixteen permits).
- **Audio path.** `Pcm` (the chunked copy, its clock spans and their drain) and `Notify` (coalesced, epoch-checked
  notifications).
- **Play queue.** `IdQueue`, `ShuffleList` and `PlayQueue`.
- **Incremental forms.** `Projection` (change runs between two snapshots) and `Mix` (ordered append with a counter).

Source code that changes state step by step is modelled by classes and loops; each such method is proved against
a function of its inputs and of the old state, and the properties are lemmas about these functions. Concurrency is
modelled by events that are interleaved arbitrarily: one atomic operation or one lock-protected section is one
step. What is drawn at random, read from a clock, answered by a provider or found valid is a parameter.

## Where the plain claim does not hold

These are properties of the code as it is. Each has a lemma that shows the failure and, where the code is right
under a condition, a lemma that gives the condition exactly.

- Pruning an unobserved album removes the rows of observed songs on it, although their items stay
  (`Prune.ObservedSongCanLoseItsRow`, `Prune.SongRowSurvives`).
- A lease keeps items, and keeps rows only as far as they are still where they were at the grant: a song that was
  moved to another album afterwards can lose its row (`Prune.MovedSongCanLoseItsRow`, `Prune.LeasedSongSurvivesIff`).
- A retained item is lost with a library that was not observed (`Prune.UnobservedLibraryTakesRetained`,
  `Prune.LeasedItemSurvivesIff`).
- A write that touches provider 0 and a provider with a negative id asks for the mutex of 0 twice and waits for
  itself (`LockOrder.RepeatedProviderBlocks`, `LockOrder.WriterIsFreshIff`).
- A dynamic entry that combines `favorite` with a contradicting insert default is changed by a replay
  (`SyncBatch.ReplayCanChange`, `SyncBatch.Replay`).
- A radio operation whose id is stamped ahead of the clock can run twice (`RadioOperations.FutureStampRunsTwice`,
  `RadioOperations.AtMostOnceIff`).
- An expired radio session stores the newest provider state without a new version; if it became valid again its
  chain would break (`RadioSession.RevalidatedChainCanBreak`, `RadioSession.RevalidationIsSafeIff`).
- A playback request that ends between the provider's answer and the registration leaves its session without
  cleanup; the permit does come back (`Playback.AbandonedSession`, `Playback.UncleanedIsAbandoned`).
- The cache notification reads the epoch before it takes the lock, so a late value can replace the newest one, and
  carries no identity of its own (`Notify.NewestCacheValueLost`, `Notify.LateCacheValueHidesNewest`,
  `Notify.CacheValueOfAnotherSource`). The only sender of these values is commented out (app/src/app.cpp:381-391),
  so the application does not receive this input at present.
- `IdQueue` does not look for repetitions inside an insertion, and neither insertion nor a move adjusts the current
  row (`IdQueue.InsertKeepsInvIff`, `IdQueue.InsertKeepsCurrentIff`, `IdQueue.MoveKeepsCurrentIff`).
- Shrinking the shuffle list by more than one row can leave a removed row in it (`ShuffleList.TwoRowsCanFail`,
  `ShuffleList.ShrinkIsPermutationIff`).
- The proxy's current row is cached and does not follow the shuffle list. After a removal or after shuffling was
  switched on it can be out of date; next and previous then go astray, next may have no effect, and a later growth
  may have no meaning (`PlayQueue.NextCanBeStuck`, `PlayQueue.SwitchCanBeStale`, `PlayQueue.StaleRowCanBreakGrowth`;
  exactly when: `PlayQueue.ShrinkKeepsUpToDateIff`, `PlayQueue.SwitchKeepsUpToDateIff`, `PlayQueue.UndoIffUpToDate`,
  `PlayQueue.RoundVisitsEachRowIff`).
- A waiting advance that is resolved before the shuffle list has the new rows selects no row
  (`PlayQueue.WaitingAdvanceNeedsSync`). The play queue connects to `rowsInserted` before its proxy does
  (app/src/model/play_queue.cpp:322-331).
- Repeated keys can hide a change from the projection (`Projection.RepeatedKeyHidesChange`,
  `Projection.FullShowsSourceIff`).
- Appending to a mix that was synchronized, and so is numbered from zero, moves its first song and miscounts
  (`Mix.AppendAfterSync`, `Mix.AppendIsCorrectIff`).

## Model

| member | source | states |
|---|---|---|
| `SyncProtocol.CommitIsContinuous` | backend/core/src/db/sync_run.rs:83-121 | a transaction committed under a tokened guard, prune or batch, belongs to a run whose token was active in every state from the run's start to the check before the commit |
| `SyncProtocol.PruneIsExclusive` | backend/core/src/db/sync_run.rs:482-544 | a prune commits only if no local guard was granted in between since the start of its run |
| `SyncProtocol.PruneAtMostOnce` | backend/core/src/db/sync_run.rs:482-544 | no run commits its prune twice, whatever is called afterwards |
| `SyncProtocol.PruneCommits` | backend/core/src/db/sync_run.rs:482-544 | whenever the mutex is free, a sealed run that owns the token and whose revision is current can take its guard, pass both checks, commit its prune and give the token back, with exactly the state that leaves |
| `SyncProtocol.BatchCommits` | backend/core/src/db/sync_batch.rs:438-453 | whenever the mutex is free, an open run that owns the token can commit a batch |
| `SyncProtocol.RunStarts` | backend/core/src/db/sync_run.rs:162-191 | whenever the mutex is free and no run is active, a new run starts with a token never used before, an empty journal and the present revision |
| `SyncProtocol.FirstPrune` | backend/core/src/db/sync_run.rs:482-544 | a behaviour from the initial state that commits a prune and clears the token |
| `SyncProtocol.FirstBatch` | backend/core/src/db/sync_batch.rs:438-453 | a behaviour from the initial state that commits a batch |
| `SyncProtocol.EndedRunCommitsNothing` | backend/core/src/db/sync_run.rs:320-342 | a run commits nothing after it failed or was dropped, and after it was sealed only its prune |
| `SyncProtocol.CancelledRunCommitsNothing` | backend/core/src/db/sync_run.rs:265-277 | after its cancellation, its drop or an invalidation a run commits nothing, unless its transaction had passed the check of the token already |
| `SyncProtocol.OnlyOwnerClears` | backend/core/src/db/sync_run.rs:265-277 | only a run's own cancellation, drop or committed prune, or an invalidation under the provider's guard, takes its token away; an older run's late calls never do |
| `SyncProtocol.RunPersists` | backend/core/src/db/sync_run.rs:162-191 | a token that lost the active slot never gets it back, and the revision of its start is fixed: no ABA |
| `SyncProtocol.FavoriteKeepsMarks` | backend/core/src/db/sync_run.rs:235-248 | marking one favourite never makes another marked one look unchanged, past the journal's overflow too |
| `SyncProtocol.LocalFavoriteIsSeen` | backend/core/src/db/sync_run.rs:235-248 | while a run owns the token, every id marked under a local guard since its start counts as changed after the run's revision |
| `SyncProtocol.BatchSeesLocalFavorites` | backend/core/src/db/sync_run.rs:245-248 | whoever holds a run's guard sees every local mark since that run's start, even if the run is cancelled meanwhile |
| `SyncProtocol.UnmarkedLooksUnchanged` | backend/core/src/db/sync_run.rs:235-248 | as long as the journal holds fewer than 200,000 ids, an id that was not marked since the start of the run does not count as changed |
| `LockOrder.WriteOrderAscends` | backend/core/src/db/sync_run.rs:136-142 | the providers locked for a write are exactly the asked ones and 0, which comes first; strictly ascending if and only if no provider id is negative |
| `LockOrder.WriteOrderIsDistinctIff` | backend/core/src/db/sync_run.rs:136-142 | no provider is locked twice if and only if 0 was not asked for together with a negative id |
| `LockOrder.WriterIsFreshIff` | backend/core/src/db/sync_run.rs:126-144 | a write over several items asks for its locks as the next rows suppose if and only if it locks no provider twice; a write to one provider always does |
| `LockOrder.NoDeadlock` | backend/core/src/db/sync_run.rs:80-144 | while some thread is unfinished some step is possible, for any number of writers, snapshots and single-lock callers and with a first-come read/write lock; a writer that takes several providers takes 0 first and the others in any order |
| `LockOrder.RepeatedProviderBlocks` | backend/core/src/db/sync_run.rs:136-142 | a write to the providers -1 and 0 asks for 0 twice, and can reach a state in which it waits for itself |
| `LockOrder.EveryRunFinishes` | backend/core/src/db/sync_run.rs:80-144 | every run can be continued so that all threads finish; each lock step consumes work |
| `LockOrder.SnapshotExcludesWriters` | backend/core/src/db/sync_run.rs:62-70 | while a snapshot holds the projection lock no writer holds a guard |
| `LockOrder.GrantIff` | backend/core/src/db/sync_run.rs:80-144 | a request is granted if and only if it is first in line for its lock and nobody holds the lock, or only sharers do and it shares |
| `Catalogue.DeleteItemKeeps` | backend/main/migration/src/m20250824_000001_create_table.rs:136-425 | deleting one item and letting every foreign key cascade, to extension rows, credits, local mixes and their entries, dynamics and images, leaves exactly what is kept without it |
| `Catalogue.KeepConsistent` | backend/main/migration/src/m20250824_000001_create_table.rs:136-425 | the cascade leaves no dangling foreign key |
| `Retention.CoverIsLeastClosed` | backend/core/src/db/retention.rs:65-88 | a lease covers the least set that contains its roots and is closed under song to album, song to artist and album to artist |
| `Retention.CoverIs` | backend/core/src/db/retention.rs:65-88 | what a lease covers: its roots, the albums of the songs among them, and the artists of all these |
| `Retention.AcceptableIff` | backend/core/src/db/retention.rs:52-101 | a request is granted if and only if it names at most 4096 positive ids and everything the lease would cover is an item of the provider |
| `Retention.GrantKeepsCounts` | backend/core/src/db/retention.rs:102-107 | after a grant every count is the number of live leases containing the id, without zero entries |
| `Retention.DropKeepsCounts` | backend/core/src/db/retention.rs:27-39 | dropping a live lease never meets a missing or zero entry and keeps the counts true |
| `Retention.RetainedIsUnion` | backend/core/src/db/sync_run.rs:215-224 | the retained ids are the union of the live leases |
| `Retention.CountsConserved` | backend/core/src/db/retention.rs:27-113 | conservation over every sequence of grants and drops |
| `Retention.RetainedItems.Retain` | backend/core/src/db/retention.rs:48-113 | a lease on the closure of the roots, or an error and no change: too many or non-positive ids, a missing or foreign root or dependency |
| `Retention.RetainedItems.Drop` | backend/core/src/db/retention.rs:27-39 | the decrement loop takes exactly one lease out of the counts |
| `Prune.PruneIsExact` | backend/core/src/db/sync_run.rs:497-536 | an item survives if and only if it belongs to another provider, or its scope was undeclared or it was observed or retained, and its library is null or observed |
| `Prune.ObservedSurvives` | backend/core/src/db/sync_run.rs:497-536 | every item observed in a declared scope survives |
| `Prune.SongRowSurvives` | backend/main/migration/src/m20250824_000001_create_table.rs:224-238 | a song's row survives if and only if the song is kept, and its album is null or kept: kept means undeclared, observed or retained, in a library that is null or observed |
| `Prune.CreditSurvives` | backend/main/migration/src/m20250824_000001_create_table.rs:262-328 | a credit survives if and only if the row of its work survives and its artist is kept |
| `Prune.AnnotationSurvives` | backend/main/migration/src/m20250824_000001_create_table.rs:380-425 | dynamic rows, images and remote mixes survive if and only if their item is kept, whatever becomes of its other rows |
| `Prune.MixSurvives` | backend/main/migration/src/m20251129_145233_create_remote_mix.rs:96-101 | a local mix survives if and only if it caches nothing or its remote mix is kept; an entry if and only if its mix and its song's row do |
| `Prune.LibrarySurvives` | backend/core/src/db/sync_run.rs:532-536 | a library survives if and only if it is another provider's or was observed |
| `Prune.PruneOnlyRemoves` | backend/core/src/db/sync_run.rs:497-536 | no table gains a row |
| `Prune.ObservedSongCanLoseItsRow` | backend/main/migration/src/m20250824_000001_create_table.rs:232-238 | an observed song loses its row, though not its item, when its unobserved album is pruned |
| `Prune.LeasedItemSurvivesIff` | backend/core/src/db/sync_run.rs:508-536 | a retained item survives if and only if its library is null or observed, whatever became of the rows around it |
| `Prune.LeasedSongSurvivesIff` | backend/core/src/db/sync_run.rs:508-536 | a retained song keeps its row if and only if, besides, its present album is null or kept |
| `Prune.ClosedLeaseSurvivesIff` | backend/core/src/db/sync_run.rs:508-536 | while a lease is still closed over the present rows, its rows and credits go if and only if a library they need was not observed |
| `Prune.MovedSongCanLoseItsRow` | backend/core/src/db/sync_run.rs:508-536 | a leased song that was moved to another album after the grant loses its row with that album |
| `Prune.UnobservedLibraryTakesRetained` | backend/core/src/db/sync_run.rs:532-536 | a retained item goes with a library that was not observed |
| `Prune.PruneTwice` | backend/core/src/db/sync_run.rs:497-536 | a second prune with the same knowledge finds nothing |
| `Prune.MixesGoAnyway` | backend/core/src/db/sync_run.rs:515-520 | the explicit deletion of a remote mix's local rows is what the cascade does anyway |
| `Prune.PassesCompose` | backend/core/src/db/sync_run.rs:509-536 | the item pass followed by the library pass is the exact prune |
| `LeaseProtocol.PruneSeesLeases` | backend/core/src/db/sync_run.rs:482-523 | in every run with grants, drops, writes and several runs interleaved, at each committed prune every live lease lies in the ids that the prune spares |
| `LeaseProtocol.PruneSparesLeases` | backend/core/src/db/sync_run.rs:508-536 | so a committed prune takes an item of a live lease if and only if its library was not observed, and a leased song's row if and only if, besides, its present album is not kept |
| `LeaseProtocol.LeaseHolds` | backend/core/src/db/retention.rs:48-113 | from its grant as long as it lives, a lease keeps every item it covers in the database, unless a writer deletes the item or its library was not observed |
| `LeaseProtocol.PruneCommits` | backend/core/src/db/sync_run.rs:482-544 | whenever the mutex is free, a sealed run with token and current revision prunes: the database becomes the result of its enumeration with the ids that are leased then |
| `LeaseProtocol.LeaseMatters` | backend/core/src/db/sync_run.rs:508-523 | a run from the initial state in which a live lease keeps an item that the prune did not observe and would have taken |
| `LeaseProtocol.ReadCovers` | backend/core/src/db/sync_run.rs:215-224 | what a final guard reads covers every lease that is live then |
| `SyncRun.ProviderState.Write` | backend/core/src/db/sync_run.rs:87-121 | a local guard advances revision and changes; a tokened one only changes, and only if its token is active |
| `SyncRun.ProviderState.Start` | backend/core/src/db/sync_run.rs:162-191 | a new token, an empty journal and the revision of the start, unless a run is active |
| `SyncRun.ProviderState.Favorite` | backend/core/src/db/sync_run.rs:235-244 | journals the id at the current revision, or raises the overflow revision past 200,000 entries |
| `SyncRun.ProviderState.Cancel` | backend/core/src/db/sync_run.rs:270-277 | compare-exchange: clears the slot only if it holds this token |
| `SyncRun.SyncRun.ObserveLibraries` | backend/core/src/db/sync_run.rs:343-370 | adds exactly the libraries before the first that is missing or foreign; succeeds if and only if there is none, and fails the run if and only if the limit is exceeded or that one is foreign |
| `SyncRun.SyncRun.Declare` | backend/core/src/db/sync_run.rs:371-412 | accepts exactly the duplicate-free declarations inside the observed libraries and required types that leave out neither a required scope nor the global mix scope |
| `SyncRun.SyncRun.ObserveItems` | backend/core/src/db/sync_run.rs:426-456 | all items of one open scope or none; succeeds if and only if every item is the provider's and in the scope, and fails the run if and only if the limit is exceeded or the first item that does not fit is the provider's but outside the scope |
| `SyncRun.SyncRun.Seal` | backend/core/src/db/sync_run.rs:474-481 | a sealed run has completed every observed library for every required type and the global mixes |
| `SyncRun.SyncRun.Finalize` | backend/core/src/db/sync_run.rs:482-544 | the database becomes exactly the result of the enumeration, or stays; succeeds if and only if sealed, unfailed, active, at the start revision and within the limits |
| `SyncRun.SyncRun.PruneItems` | backend/core/src/db/sync_run.rs:508-523 | the deletion loop over the provider's items in any order |
| `SyncRun.SyncRun.PruneLibraries` | backend/core/src/db/sync_run.rs:532-536 | the deletion loop over the provider's libraries in any order |
| `BatchInput.ApplyInput` | backend/core/src/db/sync_batch.rs:91-104 | field by field: insert default first, then the patch, each only where it applies, equals the patched row |
| `BatchInput.MaskProtects` | backend/core/src/db/sync_batch.rs:60-69 | on a stored row only allowed and named fields change |
| `BatchInput.PatchedTwice` | backend/core/src/db/sync_batch.rs:91-104 | patching what is then a stored row again changes nothing |
| `BatchInput.PatchedAfterChange` | backend/core/src/db/sync_batch.rs:91-104 | if one field was overwritten in between, the results differ in that field only |
| `Registry.WriteLibrariesStores` | backend/core/src/db/sync_batch.rs:462-491 | after writing, every named library is stored under its native id with its name, and nothing else is lost |
| `Registry.WriteLibrariesAgain` | backend/core/src/db/sync_batch.rs:462-491 | libraries that are stored already are written again without effect |
| `Registry.ResolveStable` | backend/core/src/db/sync_batch.rs:252-289 | a reference that resolves keeps resolving to the same item when items and libraries are added |
| `Registry.ResolveExact` | backend/core/src/db/sync_batch.rs:252-289 | a reference resolves to exactly the provider's item that it names by id or key, if the item has a wanted type and, where an id is expected too, that id |
| `Registry.AllocateExact` | backend/core/src/db/sync_batch.rs:341-388 | a proper key of a wanted type allocates the item that it fits, or a new one under that key unless an id was expected; every other is refused |
| `Registry.AllocateAllExtends` | backend/core/src/db/sync_batch.rs:341-388 | allocation only adds items, and returns distinct ids, each of an item of the provider of the wanted kind |
| `Registry.AllocateAllAgain` | backend/core/src/db/sync_batch.rs:341-388 | allocating the same wants later finds the same ids and adds nothing |
| `BatchTables.WrittenTwice` | backend/core/src/db/sync_batch.rs:509-582 | writing a group of entities a second time leaves the table as it is |
| `BatchTables.RemotesTwice` | backend/core/src/db/sync_batch.rs:609-640 | remote mixes and their content counts settle after the first time |
| `BatchTables.MixesTwice` | backend/core/src/db/sync_batch.rs:858-914 | cached mixes and their counts settle after the first time |
| `BatchTables.ContentsTwice` | backend/core/src/db/sync_batch.rs:882-895 | replacing ordered contents is idempotent |
| `BatchTables.LocalFavoriteKept` | backend/core/src/db/sync_batch.rs:646-671 | a favourite that changed after the run began keeps its stored mark, whatever the batch says |
| `BatchTables.DynamicRowTwice` | backend/core/src/db/sync_batch.rs:641-691 | a dynamic entry leaves the row it wrote alone if and only if it did not insert it, or the mark is local, or its insert default agrees with its favourite |
| `BatchTables.DynamicsTwice` | backend/core/src/db/sync_batch.rs:641-691 | the same for the whole dynamics stage, entry by entry |
| `BatchTables.ImagesTwice` | backend/core/src/db/sync_batch.rs:707-748 | writing or removing images again changes nothing |
| `BatchTables.RelatedTwice` | backend/core/src/db/sync_batch.rs:798-857 | merging or replacing credits again changes nothing |
| `BatchTables.RelatedExact` | backend/core/src/db/sync_batch.rs:798-857 | a credit is there afterwards if and only if it was named, or was there and its owner was not replaced |
| `SyncBatch.Replay` | backend/core/src/db/sync_batch.rs:390-929 | replaying a batch that succeeded succeeds for any masks and defaults; everything but dynamics is unchanged, and the whole database if and only if no new dynamic entry contradicts its insert default |
| `SyncBatch.ReplayCanChange` | backend/core/src/db/sync_batch.rs:641-691 | for every item without a dynamic row there is an accepted batch that its replay changes |
| `SyncBatch.EmptyBatchApplies` | backend/core/src/db/sync_batch.rs:390-453 | every well-formed store accepts the empty batch |
| `BatchEffects.SongTakesAlbum` | backend/core/src/db/sync_batch.rs:749-775 | a song entry that sets or clears the album, of a new song or where the mask allows it, leaves the song with the album that the reference resolves to, of its library, or none |
| `BatchEffects.RelationSetsAlbum` | backend/core/src/db/sync_batch.rs:776-797 | so does every explicit relation |
| `BatchEffects.AlbumStays` | backend/core/src/db/sync_batch.rs:749-797 | any other song keeps its album, and a new one has none |
| `BatchEffects.RowEffect` | backend/core/src/db/sync_batch.rs:91-104 | an entity row has each field as patched where it is new or the mask allows it, else as stored, else the insert default, else the initial value |
| `BatchEffects.RowAccepted` | backend/core/src/db/sync_batch.rs:583-608 | a batch that would leave a row that it names without a name or with a negative quantity is refused |
| `BatchEffects.OtherRowsStay` | backend/core/src/db/sync_batch.rs:509-582 | rows that no entry names stay, and no others appear |
| `BatchEffects.MixCaches` | backend/core/src/db/sync_batch.rs:609-640 | the local mix of a written remote mix has its stored name, its description or the empty text, and its count |
| `BatchEffects.OtherMixesStay` | backend/core/src/db/sync_batch.rs:609-640 | other local mixes keep name and description, and their count unless their contents are replaced |
| `BatchEffects.ContentsReplaced` | backend/core/src/db/sync_batch.rs:858-914 | the contents of a named mix are the songs that the references resolve to, in order and each once, and both counts are their number |
| `BatchEffects.OtherContentsStay` | backend/core/src/db/sync_batch.rs:858-914 | the contents of other mixes stay |
| `BatchEffects.ImageEffect` | backend/core/src/db/sync_batch.rs:707-748 | an image entry removes its image or leaves it with the patched native id and freshness |
| `BatchEffects.OtherImagesStay` | backend/core/src/db/sync_batch.rs:707-748 | other images stay |
| `BatchEffects.CreditEffect` | backend/core/src/db/sync_batch.rs:798-857 | afterwards the credits of a named owner are the artists that the targets resolve to and, if it merges, those before; the credits of other works stay |
| `BatchEffects.DynamicEffect` | backend/core/src/db/sync_batch.rs:641-691 | field by field what an entry of the dynamics leaves: the mark as protected, patched, defaulted, set or removed, in this order |
| `BatchEffects.OtherDynamicsStay` | backend/core/src/db/sync_batch.rs:641-706 | other dynamic rows stay, and every entity of the batch has one |
| `BatchEffects.IdentityEffect` | backend/core/src/db/sync_batch.rs:462-508 | the libraries are stored, earlier items and libraries keep their keys, and every entity resolves to an item of its own |
| `BatchEffects.OnlyEntitiesRegistered` | backend/core/src/db/sync_batch.rs:341-388 | no other items are registered |
| `BatchExample.FullApplies` | backend/core/src/db/sync_batch.rs:390-929 | a batch that uses every stage, with masks, is accepted |
| `BatchExample.FullLeaves` | backend/core/src/db/sync_batch.rs:390-929 | and leaves its song on the album, in the mix and marked |
| `SyncBatch.FinalAgain` | backend/core/src/db/sync_batch.rs:454-929 | the same for the tables once identities are known |
| `SyncBatch.BatchKeepsLocalFavorites` | backend/core/src/db/sync_batch.rs:646-671 | a batch written by a run keeps every mark that changed after the run began |
| `FavoriteSync.LocalFavoriteStays` | backend/core/src/db/sync_batch.rs:646-671 | in every interleaving of runs, batches, prunes and local writes, a favourite set under a local guard stays as it was set until it is set locally again or a run that began later commits |
| `FavoriteSync.BatchCommits` | backend/core/src/db/sync_batch.rs:438-453 | whenever the mutex is free, an open run that owns the token commits every batch that the database accepts, and the database becomes what the batch makes of it |
| `FavoriteSync.ContestedBatch` | backend/core/src/db/sync_batch.rs:646-671 | a run from the initial state during which a mark is set locally and which then commits a batch that would remove it |
| `FavoriteSync.JournalMatters` | backend/core/src/db/sync_batch.rs:646-671 | in such a run the mark stays, although the same batch without the journal takes it away |
| `FavoriteSync.BatchLeavesMark` | backend/core/src/db/sync_batch.rs:646-671 | a batch of a run that had begun when a favourite was set locally leaves it as it is: the journal that the batch consults lists it |
| `FavoriteSync.NoPruneAfterLocal` | backend/core/src/db/sync_run.rs:482-523 | a run that had begun when a local writer held the guard commits no prune afterwards |
| `BatchWriter.ProviderWriter.WriteBatch` | backend/core/src/db/sync_batch.rs:390-453 | the loops of one transaction produce exactly the batch's result, or leave the store unchanged when and only when it is refused |
| `BatchWriter.ProviderWriter.AllocateGroup` | backend/core/src/db/sync_batch.rs:493-508 | the allocation loop refuses exactly an unresolvable or repeated reference |
| `BatchWriter.ProviderWriter.PutRows` | backend/core/src/db/sync_batch.rs:509-582 | the loop over one group of entities |
| `BatchWriter.ProviderWriter.PutDynamics` | backend/core/src/db/sync_batch.rs:641-691 | the loop over dynamics, with the favourite put back |
| `BatchWriter.ProviderWriter.PutImages` | backend/core/src/db/sync_batch.rs:707-748 | the loop over images: removal, insertion and patching |
| `BatchWriter.ProviderWriter.PutAlbums` | backend/core/src/db/sync_batch.rs:749-797 | song inputs first, then explicit relations, never both for one song |
| `BatchWriter.ProviderWriter.PutRelations` | backend/core/src/db/sync_batch.rs:798-857 | the loops over owners and targets; no target outside the owner's library or twice |
| `BatchWriter.ProviderWriter.PutContents` | backend/core/src/db/sync_batch.rs:858-914 | the loops that renumber contents from zero and set both counts |
| `RadioOperations.EveryRunStartsOnce` | backend/main/src/radio.rs:122-197 | in every run of a new registry nothing whose timestamp was not ahead of the clock is started twice, across retries and eviction |
| `RadioOperations.RetryIsAnswered` | backend/main/src/radio.rs:138-150 | a call with the key of an operation that is pending or young joins it; another fingerprint is a conflict, and a replaced provider has it expire |
| `RadioOperations.RetryJoins` | backend/main/src/radio.rs:138-150 | so a retry joins for as long as its id is admitted, if its timestamp was not ahead |
| `RadioOperations.NewCallIsAnswered` | backend/main/src/radio.rs:151-166 | a call with any other key starts exactly one operation, its own, unless 512 are pending or young: then it is refused |
| `RadioOperations.UnservedCallExpires` | backend/main/src/radio.rs:133-135 | a call whose id is too old or too far ahead, of a stopped registry or for a provider out of service, expires and changes nothing |
| `RadioOperations.WaiterIsTold` | backend/main/src/radio.rs:186-196 | whoever joined is told the result once there is one, if the provider is still in its epoch, else that it expired |
| `RadioOperations.ResultIsKept` | backend/main/src/radio.rs:167-185 | an operation's result is the first that its body ends with |
| `RadioOperations.AtMostOnceIff` | backend/main/src/radio.rs:474-491 | an accepted operation is started at most once in every continuation if and only if its timestamp is not ahead of the clock |
| `RadioOperations.FutureStampRunsTwice` | backend/main/src/radio.rs:138-140 | with a timestamp ahead of the clock the entry is evicted before the id expires and the body runs again |
| `RadioOperations.RepliesAgree` | backend/main/src/radio.rs:186-196 | callers of one operation are told the same result or that it expired, and share its fingerprint |
| `RadioOperations.OtherFingerprintNeverRuns` | backend/main/src/radio.rs:141-149 | a call with another fingerprint starts nothing |
| `RadioOperations.OperationTable.Evict` | backend/main/src/radio.rs:138-140 | keeps exactly the young and the pending entries |
| `RadioOperations.OperationTable.Submit` | backend/main/src/radio.rs:122-163 | joins, starts, conflicts or refuses, with one reading of the clock |
| `RadioSession.EveryRunIsAChain` | backend/main/src/radio.rs:310-385 | successful continuations carry versions 2, 3, 4, …, each computed from the state of the page before it and with the opening configuration, if invalidity is permanent |
| `RadioSession.PagesAreAnswers` | backend/main/src/radio.rs:374-380 | in every run each page that is served is exactly the newest answer of the provider: state, songs, configuration and exhaustion |
| `RadioSession.NextSucceedsIff` | backend/main/src/radio.rs:330-385 | a call succeeds if and only if the session is valid at all three looks, the caller has the newest page, the radio goes on, and the answer arrives, is well formed, keeps the configuration and has its songs retained; the answer is then the next page |
| `RadioSession.NextFails` | backend/main/src/radio.rs:330-385 | which error comes first, and that only a session that ended while the provider was asked keeps the new state |
| `RadioSession.StepKeepsChain` | backend/main/src/radio.rs:330-380 | every step of a call, and every cancellation or invalidation between them, keeps the chain |
| `RadioSession.RevalidationIsSafeIff` | backend/main/src/radio.rs:361-364 | a session that became valid again keeps its chain in every continuation if and only if no answer changed the state meanwhile |
| `RadioSession.RevalidatedChainCanBreak` | backend/main/src/radio.rs:361-364 | three events lead from any opening to such a session, and one more continuation would break its chain |
| `RadioSession.OnlySuccessAdvances` | backend/main/src/radio.rs:374-380 | failures never advance the version |
| `RadioSession.StepsAreNext` | backend/main/src/radio.rs:330-380 | an undisturbed call is the function of its inputs |
| `RadioSession.RadioSession.Continue` | backend/main/src/radio.rs:330-380 | one call under the data lock, with every error branch |
| `RadioRegistry.CleanedOnce` | backend/main/src/radio.rs:387-412 | in every run a session is cleaned up at most once, exactly once when released, and never returns to the table |
| `RadioRegistry.SweptStaysEmpty` | backend/main/src/radio.rs:275-295 | after the collection of a shutdown the table stays empty whatever opens were in flight |
| `RadioRegistry.ListedIff` | backend/main/src/radio.rs:275-449 | which sessions are listed after each step: an invalidation takes out the provider's and no other, a collection those no longer usable or untouched for half an hour |
| `RadioRegistry.EveryoneIsReleased` | backend/main/src/radio.rs:454-457 | after the sweep every session can be brought to exactly one cleanup |
| `RadioRegistry.SweepEmpties` | backend/main/src/radio.rs:414-428 | the collection of a stopped registry takes every session |
| `RadioRegistry.RadioSessions.Insert` | backend/main/src/radio.rs:275-295 | insertion looks at validity, the stop flag and the limit under the table lock |
| `RadioRegistry.RadioSessions.Collect` | backend/main/src/radio.rs:414-428 | takes out exactly the invalid and the idle sessions |
| `RadioRegistry.RadioSessions.Invalidate` | backend/main/src/radio.rs:437-449 | takes out exactly the provider's sessions |
| `RadioRegistry.RadioSessions.Shutdown` | backend/main/src/radio.rs:454-457 | stops, and empties the table |
| `RadioRegistry.RadioSessions.Release` | backend/main/src/radio.rs:387-404 | only the first release makes the cleanup call |
| `Playback.PermitsAreConserved` | backend/main/src/playback.rs:284-318 | in every reachable state free permits, opens in progress and sessions still referred to add up to 16, and the size check at registration never refuses; setting the stop flag and closing the semaphore are separate steps |
| `Playback.RoomAtRegistration` | backend/main/src/playback.rs:325-328 | a session at its registration already holds a permit, so the table has room |
| `Playback.ListedIsCleanedOnce` | backend/main/src/playback.rs:138-150 | a session that was listed is cleaned up at most once, and exactly once when its permit is back |
| `Playback.UncleanedIsAbandoned` | backend/main/src/playback.rs:331-334 | a session goes without cleanup exactly when its request ends between the provider's answer and the registration |
| `Playback.AbandonedSession` | backend/main/src/playback.rs:331-334 | three events lead there: the permit is back and no cleanup is made |
| `Playback.GoneStaysGone` | backend/main/src/playback.rs:138-150 | nothing happens to a session after its last reference is gone |
| `Playback.SweptStaysEmpty` | backend/main/src/playback.rs:213-224 | after the sweep of a shutdown the table stays empty in every interleaving with in-flight opens |
| `Playback.ListedIff` | backend/main/src/playback.rs:196-343 | which sessions are listed after each step: an invalidation takes out the provider's and no other |
| `Playback.CleanupIff` | backend/main/src/playback.rs:138-150 | a cleanup is scheduled for exactly the sessions that a step takes out of the table or refuses |
| `Playback.PermitsComeBack` | backend/main/src/playback.rs:213-224 | after the sweep there is always a way to the state with all 16 permits, within a computed number of steps |
| `Playback.PlaybackSessions.ScheduleClose` | backend/main/src/playback.rs:138-150 | schedules a cleanup unless one was scheduled |
| `Playback.PlaybackSessions.Register` | backend/main/src/playback.rs:319-334 | lists the session, or schedules its close |
| `Playback.PlaybackSessions.Close` | backend/main/src/playback.rs:336-343 | removes and closes a listed session, ignores others |
| `Playback.PlaybackSessions.Invalidate` | backend/main/src/playback.rs:196-212 | removes and closes exactly the provider's sessions |
| `Playback.PlaybackSessions.Shutdown` | backend/main/src/playback.rs:213-224 | stops, removes and closes all |
| `Pcm.PullIsExact` | player/player.cpp:36-64 | one pull delivers the next frames and no others, leaves the rest, and its spans give each frame its media time |
| `Pcm.PullStopsShort` | player/player.cpp:39-50 | a pull stops short only without blocks or with a full clock queue |
| `Pcm.PullTells` | player/player.cpp:44-49 | the spans of one pull tile exactly the output it produced |
| `Pcm.DeliversThePrefix` | player/player.cpp:36-64 | in every run of pushes, requests, full clock queues and ticks, the delivered frames are a prefix of the concatenated blocks |
| `Pcm.DrainReportsPlayed` | player/player.cpp:347-363 | draining contiguous spans reports the media time of the played frame, or the end of the last span |
| `Pcm.DrainKeepsTiling` | player/player.cpp:347-363 | what the drain leaves begins no later than the played frame and still tiles to the end |
| `Pcm.DrainNotes` | player/player.cpp:347-363 | a drain leaves the spans from the first that is not played out on, and remembers the end of the last one it looked at |
| `Pcm.ShowsThePlayedFrame` | player/player.cpp:339-363 | in every run a tick shows the media time of the played frame |
| `Pcm.PcmChannel.NextPcm` | player/player.cpp:36-64 | the chunked copying loop refines the pull and leaves the rest of the buffer alone |
| `Pcm.ClockReader.DrainClock` | player/player.cpp:349-363 | the drain loop |
| `Notify.NothingSupersededIsDelivered` | app/src/player.cpp:124-147 | in every run whatever the worker's values deliver is about the revision and source requested at that moment, nothing delivered is of an earlier epoch, and each pending value has exactly one token on its way; epoch and revision agree |
| `Notify.CacheValueOfAnotherSource` | app/src/player.cpp:36-45 | a cache value carries no identity: one for an earlier source is delivered if its epoch is read after the next request |
| `Notify.QuietShowsNewest` | app/src/player.cpp:69-92 | when the consumer is done the last value delivered is the newest one accepted in the current epoch |
| `Notify.ConsumerFinishes` | app/src/player.cpp:124-147 | left to itself, the consumer empties the queue and shows the newest position |
| `Notify.OthersKeepOrder` | app/src/player.cpp:36-147 | values that are not coalesced arrive in the order in which they were sent, and none of the current epoch is lost or made up |
| `Notify.SentIsNewest` | player/player.cpp:125-128 | a position that the worker sends while it works for the newest request becomes the newest one, behind exactly one token |
| `Notify.CancelledIff` | player/player.cpp:118-123 | a worker that took a command is cancelled if and only if a source, stop or seek was submitted since, or the player was closed |
| `Notify.StepKeepsNewest` | app/src/player.cpp:36-92 | no step loses the newest accepted value, except a late cache value that hides it |
| `Notify.LateCacheValueHidesNewest` | app/src/player.cpp:36-45 | a cache value enqueued over the pending newest one keeps it on its way if and only if it is of the current epoch, or the same value is shown already |
| `Notify.LateValueIsDropped` | app/src/player.cpp:58-92 | then the consumer drops what it finds, and nothing is delivered |
| `Notify.NewestCacheValueLost` | app/src/player.cpp:36-45 | a run in which this happens, with one seek between two reporters |
| `Notify.SupersededIff` | player/player.cpp:299-304 | a submitted command is superseded by later ones if and only if a source or stop follows it, or a seek follows it and it is no source |
| `Notify.Player.Submit` | player/player.cpp:87-106 | revision, source and epoch advance together, and only for source, stop and seek as the code says; nothing after close |
| `Notify.Player.Close` | player/player.cpp:108-116 | closes once, and outdates everything |
| `Notify.Player.Send` | player/player.cpp:118-128 | sends in the current epoch, and only for the newest request |
| `Notify.Player.Begin` | player/player.cpp:299-311 | takes exactly the commands that are not superseded; from then on the worker works for the newest request |
| `Notify.NotifyChannel.Send` | app/src/player.cpp:36-45 | the coalescing send, also when the queue is closed |
| `Notify.NotifyChannel.EnqueueLatest` | app/src/player.cpp:69-83 | replaces the pending value and queues a token only if none is on its way |
| `Notify.NotifyChannel.AdvanceEpoch` | app/src/player.cpp:47-52 | drops what is pending and counts up |
| `Notify.NotifyChannel.Resolve` | app/src/player.cpp:58-66 | a token stands for whatever is pending when it is taken |
| `IdQueue.InsertKeepsInvIff` | app/src/model/id_queue.cpp:74-94 | inserting keeps ids unique and the index exact if and only if the new ids of the argument are pairwise distinct |
| `IdQueue.InsertKeepsCurrentIff` | app/src/model/id_queue.cpp:74-94 | inserting keeps the current id if and only if nothing is inserted at or before its row |
| `IdQueue.InsertPutsNewIds` | app/src/model/id_queue.cpp:74-94 | exactly the ids that the list does not have are inserted, in the argument's order, between rows that keep theirs |
| `IdQueue.RemoveKeepsInv` | app/src/model/id_queue.cpp:128-150 | removing rows in range keeps ids unique and the index exact |
| `IdQueue.RemoveKeepsCurrent` | app/src/model/id_queue.cpp:143-148 | the current id stays unless its row is removed; then the current row is -1 |
| `IdQueue.RotationIsCutAndPaste` | app/src/model/id_queue.cpp:161-170 | the two rotations are cut and paste of the block |
| `IdQueue.MovedRow` | app/src/model/id_queue.cpp:161-170 | where each row is after a move |
| `IdQueue.MoveKeepsInv` | app/src/model/id_queue.cpp:151-173 | an accepted move keeps the ids, each once |
| `IdQueue.MoveKeepsCurrentIff` | app/src/model/id_queue.cpp:151-173 | a move keeps the current id if and only if its row is outside the rows that change place |
| `IdQueue.RunKeepsInv` | app/src/model/id_queue.cpp:69-173 | every run keeps ids unique and the index equal to them |
| `IdQueue.TrimKeepsCurrent` | app/src/model/id_queue.cpp:313-322 | a dynamic queue that advanced keeps its current song, at row 1 |
| `IdQueue.IdQueue.Insert` | app/src/model/id_queue.cpp:74-94 | the filtering loop and the splice |
| `IdQueue.IdQueue.RemoveRows` | app/src/model/id_queue.cpp:128-150 | the index loop, the erasure and the current row |
| `IdQueue.IdQueue.MoveRows` | app/src/model/id_queue.cpp:151-173 | accepts or refuses, and rotates |
| `IdQueue.IdQueue.SelectId` | app/src/model/id_queue.cpp:58-67 | makes the first row with the id current, or none |
| `ShuffleList.ShrinkIsPermutationIff` | app/src/model/play_queue.cpp:158-166 | shrinking gives a permutation of the remaining rows if and only if in the cut part no remaining row stands before a removed one |
| `ShuffleList.OneRowShrinks` | app/src/model/play_queue.cpp:158-166 | removing one row or all rows always works |
| `ShuffleList.TwoRowsCanFail` | app/src/model/play_queue.cpp:158-166 | with 3, 0, 1, 2 and two rows left, the list becomes 2, 0 |
| `ShuffleList.GrownIsPermutation` | app/src/model/play_queue.cpp:151-152 | growing appends exactly the new rows |
| `PlayQueue.MapsUndoEachOther` | app/src/model/play_queue.cpp:115-132 | the row maps undo each other in both directions |
| `PlayQueue.OutsideStaysOutside` | app/src/model/play_queue.cpp:115-132 | no row outside the list is mapped inside |
| `PlayQueue.PrevUndoesNext` | app/src/model/play_queue.cpp:501-566 | in the circular modes, while the cached proxy row is up to date, prev undoes next and next undoes prev |
| `PlayQueue.UndoIffUpToDate` | app/src/model/play_queue.cpp:501-566 | with three or more rows and the cached row in range, prev brings the song before next back, and next the song before prev, if and only if the cached row is up to date |
| `PlayQueue.PrevBringsBackIff` | app/src/model/play_queue.cpp:501-566 | the exact condition for any number of rows and any cached row |
| `PlayQueue.PrevUndoesNextAtEndIff` | app/src/model/play_queue.cpp:514-524 | without looping and with the cached row up to date, prev undoes next if and only if there was a next row, or only one row |
| `PlayQueue.RoundVisitsEachRowIff` | app/src/model/play_queue.cpp:525-536 | whatever the cached row is, as many next steps as rows reach every source row, and then each exactly once, if and only if the first step reaches another song or there is only one |
| `PlayQueue.RoundVisitsEachRowOnce` | app/src/model/play_queue.cpp:525-536 | from an up-to-date cached row the round visits every source row exactly once and ends where it began |
| `PlayQueue.StuckIff` | app/src/model/play_queue.cpp:525-536 | a next step does nothing if and only if the row after the cached one is the current song's; any other step brings the cached row up to date |
| `PlayQueue.TravelStopsAtEnd` | app/src/model/play_queue.cpp:514-524 | without looping and with the cached row up to date, next goes to the last row and stays there |
| `PlayQueue.WaitingAdvanceNeedsSync` | app/src/model/play_queue.cpp:621-634 | an advance that waited for rows reaches the next one if and only if the shuffle list counts it already; otherwise no row is current |
| `PlayQueue.SourceRefreshes` | app/src/model/play_queue.cpp:38-42 | another current row of the source brings the cached row up to date |
| `PlayQueue.GrowthKeepsUpToDate` | app/src/model/play_queue.cpp:151-157 | new rows keep an up-to-date cached row up to date |
| `PlayQueue.ShrinkKeepsUpToDateIff` | app/src/model/play_queue.cpp:158-166 | removed rows keep a shuffled one up to date if and only if it lies in the part of the list that stays |
| `PlayQueue.SwitchKeepsUpToDateIff` | app/src/model/play_queue.cpp:134-145 | after shuffling is switched on, the cached row is up to date if and only if the current song did not move |
| `PlayQueue.OtherStepsKeepUpToDate` | app/src/model/play_queue.cpp:38-42 | every other step keeps it up to date |
| `PlayQueue.NextCanBeStuck` | app/src/model/play_queue.cpp:158-166 | after the list 0, 3, 1, 2 lost row 3 while row 2 was current, no number of next steps leaves row 2 |
| `PlayQueue.StaleRowCanBreakGrowth` | app/src/model/play_queue.cpp:151-157 | two rows go and one comes: the part to shuffle would begin behind the end |
| `PlayQueue.SwitchCanBeStale` | app/src/model/play_queue.cpp:134-145 | a shuffle after which the cached row is not the current song's |
| `PlayQueue.PlayQueue.GoNext` | app/src/model/play_queue.cpp:491-541 | the next button in every loop mode, on the cached row, and when a dynamic source leaves the advance waiting |
| `PlayQueue.PlayQueue.GoPrev` | app/src/model/play_queue.cpp:496-566 | the previous button in every loop mode, on the cached row |
| `PlayQueue.PlayIdProxyQueue.ShuffleSync` | app/src/model/play_queue.cpp:147-173 | growth shuffles what follows the cached row, shrinking is exact, the inverse follows, and the cached row stays |
| `PlayQueue.PlayIdProxyQueue.ReShuffle` | app/src/model/play_queue.cpp:134-145 | a permutation again, with the first source row first |
| `PlayQueue.PlayIdProxyQueue.RefreshFromSource` | app/src/model/play_queue.cpp:175-182 | the loop rebuilds the inverse |
| `PlayQueue.PlayIdProxyQueue.SetShuffle` | app/src/model/play_queue.cpp:76-79 | the switch re-evaluates the cached row before the list is shuffled |
| `PlayQueue.PlayIdProxyQueue.Shuffle` | app/src/model/play_queue.cpp:154-155 | shuffling rearranges the part from a position on, whatever is drawn |
| `PlayQueue.PlayIdProxyQueue.Replace` | app/src/model/play_queue.cpp:158-165 | the in-place replacement loop |
| `Projection.FullIsExact` | app/src/model/item_source_projection.hpp:81-105 | reset if and only if the length or the key at some index differs; otherwise the runs are sorted, disjoint, maximal and cover exactly the dirty or differing rows, which get the next revision while the others keep theirs |
| `Projection.RunsAreExact` | app/src/model/item_source_projection.hpp:94-100 | the runs cover exactly the marked indices, with gaps between them |
| `Projection.FullShowsSource` | app/src/model/item_source_projection.hpp:81-105 | applied to the old rows, a full outcome gives the source, if old rows with the same key are shown as the same row |
| `Projection.FullShowsSourceIff` | app/src/model/item_source_projection.hpp:81-105 | every full outcome, for every source and range, gives its source if and only if old rows with the same key are the same |
| `Projection.ValuesShowSourceIff` | app/src/model/item_source_projection.hpp:60-66 | applied to the old rows, a values-only outcome gives the source if and only if nothing changed outside the range; keys stay |
| `Projection.ResetKeepsRevisions` | app/src/model/item_source_projection.hpp:86-91 | an equal row keeps its revision wherever it moved |
| `Projection.NewKeyInRangeResets` | app/src/model/item_source_projection.hpp:47-66 | a partial request ends values-only or in a reset |
| `Projection.RepeatedKeyHidesChange` | app/src/model/item_source_projection.hpp:86-89 | with a repeated key a change can go unnoticed |
| `Projection.ProjectItemSource` | app/src/model/item_source_projection.hpp:43-106 | the loops compute the projection, or nothing if and only if the request stopped being current before the needed rows were read |
| `Projection.Compare` | app/src/model/item_source_projection.hpp:81-105 | the comparing loop with versions, reset and runs |
| `Projection.BuildIndex` | app/src/model/item_source_projection.hpp:14-25 | the key index, where the last row of a key wins |
| `Mix.EveryRunIsOrdered` | backend/core/src/model/mix.rs:98-148 | from an empty mix, every sequence of appends and removals keeps the orders distinct and positive and the track count equal to the number of rows |
| `Mix.AppendGoesToTheEnd` | backend/core/src/model/mix.rs:72-134 | an append leaves existing positions and puts new songs after all of them, in the order of their last occurrence |
| `Mix.ReorderedFollowOn` | backend/core/src/model/mix.rs:72-96 | the new orders are the numbers that follow the largest one |
| `Mix.AppendIsCorrectIff` | backend/core/src/model/mix.rs:104-128 | existing songs stay in place, and the count stays true, if and only if no song of the mix has the order zero |
| `Mix.AppendAfterSync` | backend/core/src/db/sync_batch.rs:882-895 | after a synchronization the first append moves the first song behind all others and counts it twice |
| `Mix.RemoveKeepsInv` | backend/core/src/model/mix.rs:136-148 | a removal takes exactly the named songs |
| `Mix.StoredMix.AppendSongs` | backend/core/src/model/mix.rs:98-134 | insert, count, renumber, add to the track count |
| `Mix.StoredMix.ReorderAppend` | backend/core/src/model/mix.rs:72-96 | numbers the waiting songs after the largest order |
| `Mix.StoredMix.RemoveSongs` | backend/core/src/model/mix.rs:136-148 | deletes and subtracts what was deleted |

## Left out

- SQL, sea_orm, migrations and search triggers: tables are maps and sets, a transaction is all or nothing, and only the foreign-key cascades are kept.
- HTTP, WebSocket, protobuf, Qt signals, QML, MPRIS, files and logging: input and output around the modelled state.
- Providers, decoders, the audio device and base64 or TLS code: what they answer is a parameter.
- Memory order: every atomic operation is one sequentially consistent step. Counters are unbounded, so the exhaustion errors of the 64-bit counters do not occur.
- Floating-point time: positions count frames of 1/48000 s; volume, fades and the rounding to milliseconds are not modelled.
- The caller of a commit that goes away between the commit and the clearing of the token (backend/core/src/db/sync_run.rs:541-542).
- Modification timestamps, surrogate row ids and the byte budget of a batch (backend/core/src/db/sync_batch.rs:425-437).
- Database errors for rows that the schema lets be missing, and the finiteness check of a song's popularity.
- The scope epochs (backend/core/src/db/sync_run.rs:201-214) and the revision counter of the projection.
- The opening of a radio from the state of a previous session, and the renewal of its item lease on each page.
- The 180 s limit of a radio operation and callers that go away during a release: radio bodies and releases run to their end.
- The two clocks of a radio operation, wall clock and monotonic clock, are one clock read once per call.
- Playback routes, redirects, heartbeats and the awaiting of cleanup tasks: only who refers to a session is modelled.
- Another source model for the proxy while it is in use, and the signal that replaces the binding of the current row on one platform (app/src/model/play_queue.cpp:27-48): one source throughout, with the binding.
- A batch outside a run is a local write like any other: `FavoriteSync` counts it as a local setting of the marks it changes.
- `randomIndex`, whose termination is probabilistic, and how the random generator draws: a shuffle is any sequence of its swaps.
- The rows of a play list carry no extra data, and the hash of an id is taken to be injective.
- `TaskManager`, `QueueWithSize`, converters and setters: nothing beyond single bodies.
- IdQueue.IdQueue.RemoveRows: requires rows of the list, because beyond its end the program leaves its vector and what it then does is undefined.
- PlayQueue.PlayIdProxyQueue.ShuffleSync: requires, when rows come, that the cached row lies before the new end, because otherwise the program's iterator leaves the list.
- SyncRun.SyncRun.ObserveLibraries: reports in a ghost result how many libraries were added; errors of the database itself are left out.
- Mix.StoredMix.ReorderAppend: models the single UPDATE statement as reading the table as it was before the statement, because the order in which the database evaluates it is not stated in the repository.
- Mix.StoredMix.AppendSongs: takes the key of a row that is inserted again to be a new one, as the conflict clause asks, because the generated key is the database's choice.
- Notify.NotifyChannel.Send: takes the note with the revision and source it was produced for, which the code does not carry, so that the lemmas can speak of them.
- Pcm.PcmChannel.NextPcm: is given the blocks it will see and the number of spans the clock queue will accept, because producer and consumer run beside it.
- RadioSession.RadioSession.Continue: is given whether the session is valid at each of its three looks.
- SyncRun.SyncRun.ObserveItems: takes resolved items, because resolving references is modelled in Registry.
