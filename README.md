# GeoQuest in Dafny

GeoQuest is an Android app for logging places, with a small Node/Express
backend over Firestore. This project models its core and proves what that core
promises.

**The offline-first location store.**
- `LocationStore` models the Room table `locations` and its DAO. The table is a map from id to row, and each query is a filter with an order.
- `LocationEntities` models the row type and its two conversions.
- `Sync` models `SyncManager`:
  - the three-phase reconciliation pass `syncAll` (upload, tombstone deletion, cleanup);
  - the two download merges.
- `LocationViewModels` models `LocationViewModel`: the stricter merge of its list loads, online and offline add, delete and force delete, and the sync status text.
- `LocationRepository` models `LocationRepo`. The server is an oracle (`Api`) that answers each call with a success or a failure.

**The backend.**
- `Firestore` models the Firestore service layer.
- `LocationRoutes` and `NotificationRoutes` model the Express handlers.
  - `Express` supplies first-match route dispatch.
  - `Js` supplies JavaScript truthiness, `||` and `parseInt`.
- `Auth` models the Bearer-token middleware.

**Accounts and settings.**
- `UserRepository` models `UserRepo`: offline login, the auto sign-in guard chain, guest login, logout, the first Google profile and the password change.
- `UserViewModels` models `UserViewModel`. This includes the guest-upgrade prompt, as a step function and a class.
- `Preferences` models the three preference stores as key-value maps with defaults.
- `Locale` models the language helpers.
- `Messaging` models the push-message type parser.
- `Screens` models the form checks behind the Save, Register and Login buttons.

Shared helpers live in `Wrappers` (Option, Result), `Text` (ASCII trim, case, search, decimal text) and `Seqs` (filter, descending sort, distinct-by).

Stateful source code is modelled as classes whose methods change fields under `modifies` clauses:
- the DAO, `SyncManager` and the two view models;
- the preference stores;
- the Express request that the middleware writes to.

Each method's `ensures` ties the new state to a specification function, and lemmas prove the promised properties of that function. Pure code is modelled as functions and lemmas.

Source paths below are relative to the repository root. `app/.../geoquest` stands for `app/src/main/java/com/prog7314/geoquest`.

## Model

| member | source | states |
|---|---|---|
| LocationEntities.NewEntity | app/src/main/java/com/prog7314/geoquest/data/local/LocationEntity.kt:8-22 | a newly constructed row is neither synced nor deleted, and is stamped with the clock reading |
| LocationEntities.ToLocationData | app/src/main/java/com/prog7314/geoquest/data/local/LocationEntity.kt:25-37 | the data carries every field of the row except the three sync fields |
| LocationEntities.ToLocationEntity | app/src/main/java/com/prog7314/geoquest/data/local/LocationEntity.kt:39-54 | the row is never deleted, its sync flag is the argument, and it carries every field of the data |
| LocationEntities.DataRoundTrip | app/src/main/java/com/prog7314/geoquest/data/local/LocationEntity.kt:25-54 | converting data to a row and back returns the data, whatever the sync flag and the clock |
| LocationEntities.EntityRoundTrip | app/src/main/java/com/prog7314/geoquest/data/local/LocationEntity.kt:25-54 | rebuilding a row from its data gives the same row with the deletion flag cleared and the given sync flag and time |
| LocationEntities.ToLocationDataForgetsOnlyBookkeeping | app/src/main/java/com/prog7314/geoquest/data/local/LocationEntity.kt:25-37 | two rows map to the same data iff they agree on every field except the three sync fields |
| LocationStore.SelectionIdsDistinct | app/src/main/java/com/prog7314/geoquest/data/local/LocationDao.kt:10-14 | a query answer on a table keyed by id never holds two rows with the same id |
| LocationStore.NoDuplicatesCard | app/src/main/java/com/prog7314/geoquest/data/local/LocationDao.kt:88-89 | a duplicate-free answer has as many rows as its set of rows |
| LocationStore.SelectionSize | app/src/main/java/com/prog7314/geoquest/data/local/LocationDao.kt:31-36 | a query answer is as long as the number of table rows the query selects |
| LocationStore.SyncQueriesDisjoint | app/src/main/java/com/prog7314/geoquest/data/local/LocationDao.kt:31-36 | no row is both an upload candidate and an unsynced tombstone |
| LocationStore.Insert | app/src/main/java/com/prog7314/geoquest/data/local/LocationDao.kt:10-11 | insert-or-replace: the row for the id becomes the new row, and every other row is unchanged; the table stays keyed |
| LocationStore.InsertAll | app/src/main/java/com/prog7314/geoquest/data/local/LocationDao.kt:13-14 | a batch insert keeps the table keyed and only adds the batch's ids |
| LocationStore.InsertAllAt | app/src/main/java/com/prog7314/geoquest/data/local/LocationDao.kt:13-14 | after a batch insert, an id holds the batch's last row with that id, or else its old row |
| LocationStore.MarkSynced | app/src/main/java/com/prog7314/geoquest/data/local/LocationDao.kt:72-73 | only the sync flag of the named row becomes true; a missing id leaves the table as it was |
| LocationStore.SoftDelete | app/src/main/java/com/prog7314/geoquest/data/local/LocationDao.kt:76-77 | the named row becomes deleted and unsynced at the timestamp; every other row is unchanged |
| LocationStore.Delete | app/src/main/java/com/prog7314/geoquest/data/local/LocationDao.kt:80-81 | the row for the id is removed and nothing else changes |
| LocationStore.CleanupSyncedDeleted | app/src/main/java/com/prog7314/geoquest/data/local/LocationDao.kt:84-85 | exactly the rows that are both deleted and synced are removed |
| LocationStore.UnsyncedCountSplit | app/src/main/java/com/prog7314/geoquest/data/local/LocationDao.kt:88-89 | the unsynced count equals the unsynced live rows plus the unsynced tombstones |
| LocationStore.LiveIds | app/src/main/java/com/prog7314/geoquest/data/local/LocationDao.kt:64-65 | an id is live iff the table has a row for it that is not deleted |
| LocationStore.SoftDeletedRowHidden | app/src/main/java/com/prog7314/geoquest/data/local/LocationDao.kt:68-77 | after a soft delete, the row leaves every query that excludes deleted rows and the upload query, and is seen by the tombstone check and the deletion-sync query |
| LocationStore.LocationDao.constructor | app/src/main/java/com/prog7314/geoquest/data/local/LocationDao.kt:6-7 | a new DAO has an empty, keyed table |
| LocationStore.LocationDao.InsertLocation | app/src/main/java/com/prog7314/geoquest/data/local/LocationDao.kt:10-11 | the table becomes the insert-or-replace of the row |
| LocationStore.LocationDao.InsertLocations | app/src/main/java/com/prog7314/geoquest/data/local/LocationDao.kt:13-14 | the table becomes the rows inserted one by one in list order |
| LocationStore.LocationDao.Select | app/src/main/java/com/prog7314/geoquest/data/local/LocationDao.kt:20-53 | the answer holds exactly the matching rows, each once, newest first when the query orders |
| LocationStore.LocationDao.GetUserLocationsOnce | app/src/main/java/com/prog7314/geoquest/data/local/LocationDao.kt:20-21 | exactly the user's live rows, each once, ordered by date added, newest first |
| LocationStore.LocationDao.GetAllPublicLocationsOnce | app/src/main/java/com/prog7314/geoquest/data/local/LocationDao.kt:27-28 | exactly the live public rows, each once, newest first |
| LocationStore.LocationDao.GetUnsyncedLocations | app/src/main/java/com/prog7314/geoquest/data/local/LocationDao.kt:31-32 | exactly the rows neither synced nor deleted |
| LocationStore.LocationDao.GetDeletedUnsyncedLocations | app/src/main/java/com/prog7314/geoquest/data/local/LocationDao.kt:35-36 | exactly the deleted rows not yet synced |
| LocationStore.LocationDao.GetFilteredLocations | app/src/main/java/com/prog7314/geoquest/data/local/LocationDao.kt:39-53 | the user's live rows under each given filter, with inclusive date bounds; a missing filter constrains nothing; newest first |
| LocationStore.LocationDao.GetLocationById | app/src/main/java/com/prog7314/geoquest/data/local/LocationDao.kt:56-57 | the row for the id when it exists and is not deleted, otherwise none |
| LocationStore.LocationDao.GetLocationByIdIncludingDeleted | app/src/main/java/com/prog7314/geoquest/data/local/LocationDao.kt:60-61 | the row for the id when it exists, tombstone or not |
| LocationStore.LocationDao.GetAllLocationIds | app/src/main/java/com/prog7314/geoquest/data/local/LocationDao.kt:64-65 | exactly the ids of the live rows, each appearing once and no two entries equal |
| LocationStore.LocationDao.IsLocationDeleted | app/src/main/java/com/prog7314/geoquest/data/local/LocationDao.kt:68-69 | true iff the id has a deleted row |
| LocationStore.LocationDao.MarkAsSynced | app/src/main/java/com/prog7314/geoquest/data/local/LocationDao.kt:72-73 | the table becomes `MarkSynced` of the old table |
| LocationStore.LocationDao.SoftDeleteLocation | app/src/main/java/com/prog7314/geoquest/data/local/LocationDao.kt:76-77 | the table becomes `SoftDelete` of the old table at the timestamp |
| LocationStore.LocationDao.DeleteLocation | app/src/main/java/com/prog7314/geoquest/data/local/LocationDao.kt:80-81 | the table loses exactly that id |
| LocationStore.LocationDao.CleanupSyncedDeletedLocations | app/src/main/java/com/prog7314/geoquest/data/local/LocationDao.kt:84-85 | the table loses exactly its synced tombstones |
| LocationStore.LocationDao.GetUnsyncedCount | app/src/main/java/com/prog7314/geoquest/data/local/LocationDao.kt:88-89 | the number of rows not synced, tombstones included |
| LocationStore.LocationDao.ClearAllLocations | app/src/main/java/com/prog7314/geoquest/data/local/LocationDao.kt:92-93 | the table becomes empty |
| Sync.UploadAllEffect | app/src/main/java/com/prog7314/geoquest/data/sync/SyncManager.kt:56-81 | the upload loop marks a row synced exactly when a snapshot row with its id uploaded without a fault, and changes nothing else; each row counts once as uploaded or failed; the first error is kept |
| Sync.DeleteAllEffect | app/src/main/java/com/prog7314/geoquest/data/sync/SyncManager.kt:92-117 | the deletion loop hard-deletes a row exactly when its remote and local deletes both succeed, and keeps every other row; each row counts once; the first error is kept |
| Sync.Verdict | app/src/main/java/com/prog7314/geoquest/data/sync/SyncManager.kt:136-146 | a pass fails iff a snapshot read failed and nothing was uploaded or deleted; otherwise it succeeds with the counts, and carries the first error iff some row failed |
| Sync.HasErrorOnlyFromReads | app/src/main/java/com/prog7314/geoquest/data/sync/SyncManager.kt:82-88 | only a failed snapshot read, in either phase, sets the flag that can fail the pass |
| Sync.FirstErrorWins | app/src/main/java/com/prog7314/geoquest/data/sync/SyncManager.kt:70-123 | once the upload phase has recorded an error, the deletion phase never replaces it |
| Sync.PendingCount | app/src/main/java/com/prog7314/geoquest/data/sync/SyncManager.kt:231-233 | the unsynced count is the size of the set of rows waiting for the server |
| Sync.UploadAllShrinksPending | app/src/main/java/com/prog7314/geoquest/data/sync/SyncManager.kt:56-81 | the upload loop never adds a row to the pending set |
| Sync.DeleteAllShrinksPending | app/src/main/java/com/prog7314/geoquest/data/sync/SyncManager.kt:92-117 | the deletion loop never adds a row to the pending set |
| Sync.PassNeverAddsPending | app/src/main/java/com/prog7314/geoquest/data/sync/SyncManager.kt:38-152 | whatever the server and the storage do, a pass never increases the number of unsynced rows |
| Sync.CleanPassDrains | app/src/main/java/com/prog7314/geoquest/data/sync/SyncManager.kt:38-152 | a pass with no fault leaves exactly the old live rows, all synced, and reports every snapshot row as uploaded or deleted, with no failure |
| Sync.CleanUploadMarksLive | app/src/main/java/com/prog7314/geoquest/data/sync/SyncManager.kt:56-66 | a fault-free upload over the full snapshot marks every live row synced and leaves the tombstones alone |
| Sync.CleanDeleteRemovesTombstones | app/src/main/java/com/prog7314/geoquest/data/sync/SyncManager.kt:92-101 | a fault-free deletion phase over the full snapshot removes every unsynced tombstone and keeps every other row |
| Sync.UploadedIdInSnapshot | app/src/main/java/com/prog7314/geoquest/data/sync/SyncManager.kt:59-63 | a row the upload loop marks synced names a row of its snapshot |
| Sync.DeletedIdInSnapshot | app/src/main/java/com/prog7314/geoquest/data/sync/SyncManager.kt:95-100 | a row the deletion loop removes names a tombstone of its snapshot |
| Sync.PublicOnly | app/src/main/java/com/prog7314/geoquest/data/sync/SyncManager.kt:204 | keeps exactly the server records whose visibility is "public", in order |
| Sync.DownloadKeepsTombstones | app/src/main/java/com/prog7314/geoquest/data/sync/SyncManager.kt:170-178 | a download never touches a locally tombstoned id |
| Sync.DownloadOverwritesUnsynced | app/src/main/java/com/prog7314/geoquest/data/sync/SyncManager.kt:170-181 | a download replaces a live local row that was never uploaded with a synced copy of the server record, so the local edit is lost |
| Sync.DownloadKeepsUnlisted | app/src/main/java/com/prog7314/geoquest/data/sync/SyncManager.kt:170-181 | ids the server does not list keep their local rows |
| Sync.UploadedRowReturnsUnderServerId | app/src/main/java/com/prog7314/geoquest/data/sync/SyncManager.kt:61-63 | the server stores an upload under its own id while the pass marks the local id synced, so any later listing that holds the server's record leaves the location twice under two live ids |
| Sync.SyncManager.constructor | app/src/main/java/com/prog7314/geoquest/data/sync/SyncManager.kt:15-19 | the manager holds the given DAO and repository |
| Sync.SyncManager.SyncAll | app/src/main/java/com/prog7314/geoquest/data/sync/SyncManager.kt:38-152 | offline or signed out, it fails at once and changes nothing; otherwise the table and the result are those of the upload, deletion and cleanup phases over the DAO's snapshots, followed by the verdict |
| Sync.SyncManager.DownloadLocations | app/src/main/java/com/prog7314/geoquest/data/sync/SyncManager.kt:157-189 | offline it fails; a remote failure is passed on with the table unchanged; otherwise the records without a local tombstone are inserted as synced rows and their number is returned |
| Sync.SyncManager.DownloadAllPublicLocations | app/src/main/java/com/prog7314/geoquest/data/sync/SyncManager.kt:194-226 | the same over the public records of the whole listing |
| Sync.SyncManager.GetUnsyncedCount | app/src/main/java/com/prog7314/geoquest/data/sync/SyncManager.kt:231-233 | the DAO's count of rows not synced |
| LocationRepository.AddLocation | app/src/main/java/com/prog7314/geoquest/data/repo/LocationRepo.kt:18-30 | without a context it fails with the missing-context message; otherwise it succeeds iff the server accepts, with the id the server assigned |
| LocationRepository.DeleteLocation | app/src/main/java/com/prog7314/geoquest/data/repo/LocationRepo.kt:32-43 | without a context it fails with the missing-context message; otherwise it is the server's answer |
| LocationRepository.GetAllLocations | app/src/main/java/com/prog7314/geoquest/data/repo/LocationRepo.kt:45-56 | without a context it fails with the missing-context message; otherwise it is the server's listing |
| LocationRepository.GetUserLocations | app/src/main/java/com/prog7314/geoquest/data/repo/LocationRepo.kt:58-69 | without a context it fails with the missing-context message; otherwise it is the server's answer for the caller's token |
| LocationRepository.GetUserLocationsIgnoresUserId | app/src/main/java/com/prog7314/geoquest/data/repo/LocationRepo.kt:58-62 | the answer does not depend on the user id argument |
| LocationRepository.GetLocationById | app/src/main/java/com/prog7314/geoquest/data/repo/LocationRepo.kt:71-82 | without a context it fails with the missing-context message; otherwise it is the server's answer |
| LocationRepository.GetUserLocationsByDateRange | app/src/main/java/com/prog7314/geoquest/data/repo/LocationRepo.kt:85-104 | the server's filtered query with both dates and no visibility |
| LocationRepository.GetFilteredUserLocations | app/src/main/java/com/prog7314/geoquest/data/repo/LocationRepo.kt:107-127 | the server's filtered query with the given filters |
| LocationRepository.GetPublicLocationsByDateRange | app/src/main/java/com/prog7314/geoquest/data/repo/LocationRepo.kt:130-151 | fails iff there is no context; otherwise exactly the public records dated inside the inclusive range, each as often as the server lists it, newest first, or the empty list when the server fails |
| Seqs.SortDescStable | app/src/main/java/com/prog7314/geoquest/data/repo/LocationRepo.kt:143 | `sortedByDescending` is stable: the locations with any one date keep the order they had before sorting |
| LocationRepository.DayWindow | app/src/main/java/com/prog7314/geoquest/data/repo/LocationRepo.kt:158-160 | a day window starts at the start of the day and spans one day less one millisecond |
| LocationRepository.DayWindowsTile | app/src/main/java/com/prog7314/geoquest/data/repo/LocationRepo.kt:158-160 | every instant of two consecutive days falls in exactly one of their two windows |
| LocationRepository.GetUserLocationsByDate | app/src/main/java/com/prog7314/geoquest/data/repo/LocationRepo.kt:154-174 | without a context it fails; text that is not a date fails with the parser's message; otherwise it asks the server for that one day, both ends inclusive |
| LocationRepository.DateStringToTimestamp | app/src/main/java/com/prog7314/geoquest/data/repo/LocationRepo.kt:177-184 | the parsed time, or 0 when the text is not a date |
| LocationRepository.NoContextFailsEveryCall | app/src/main/java/com/prog7314/geoquest/data/repo/LocationRepo.kt:10-30 | without a context every API-backed call fails with "Context not available for API calls" |
| LocationViewModels.FiltersKeepAccepted | app/src/main/java/com/prog7314/geoquest/data/model/LocationViewModel.kt:139-156 | the two merge filters keep exactly the server records whose id is accepted: not tombstoned, not deleted in this session, and either new or held by a synced row |
| LocationViewModels.MergeBatchDistinct | app/src/main/java/com/prog7314/geoquest/data/model/LocationViewModel.kt:158-162 | the batch a merge inserts has one row per id |
| LocationViewModels.MergeBatchFrom | app/src/main/java/com/prog7314/geoquest/data/model/LocationViewModel.kt:139-162 | every row of the batch is a synced copy of a server record with an accepted id |
| LocationViewModels.MergeBatchCovers | app/src/main/java/com/prog7314/geoquest/data/model/LocationViewModel.kt:139-162 | every listed, accepted id has a row in the batch |
| LocationViewModels.MergeAt | app/src/main/java/com/prog7314/geoquest/data/model/LocationViewModel.kt:135-167 | a listed, accepted id becomes a synced live copy of a server record with that id; every other id keeps its row, or its absence |
| LocationViewModels.MergeStricterThanDownload | app/src/main/java/com/prog7314/geoquest/data/model/LocationViewModel.kt:145-156 | the view-model merge keeps a live row with an edit waiting for upload, while the sync manager's download replaces it |
| LocationViewModels.MergeKeepsUnsyncedCount | app/src/main/java/com/prog7314/geoquest/data/model/LocationViewModel.kt:145-162 | a merge leaves the unsynced count unchanged |
| LocationViewModels.DeletedIdStaysGone | app/src/main/java/com/prog7314/geoquest/data/model/LocationViewModel.kt:139-156 | an id deleted in this session and gone from the live rows stays gone, whatever the server answers |
| LocationViewModels.PublishShows | app/src/main/java/com/prog7314/geoquest/data/model/LocationViewModel.kt:170-177 | the published list is exactly the data of the query's rows minus the ids deleted in this session, each id once, in the query's order |
| LocationViewModels.WithId | app/src/main/java/com/prog7314/geoquest/data/model/LocationViewModel.kt:73-77 | a location without an id gets the fresh one; any other keeps its id |
| LocationViewModels.AddOutcomeOf | app/src/main/java/com/prog7314/geoquest/data/model/LocationViewModel.kt:79-119 | the add is stored iff it is offline or the server accepts; then the row carries exactly the location, is live, is marked synced iff the add was online, is stamped with the clock reading, and no other row changes; otherwise the server's message is reported |
| LocationViewModels.ContextlessViewModelLosesOnlineAdds | app/src/main/java/com/prog7314/geoquest/data/model/LocationViewModel.kt:22 | with the repository built without a context, an online add always fails and stores nothing, and no list load ever merges a server answer |
| LocationViewModels.OnlineAddWithContextStored | app/src/main/java/com/prog7314/geoquest/data/model/LocationViewModel.kt:81-95 | with a context, an online add the server accepts is kept as a synced row carrying the location |
| LocationViewModels.NothingToSyncIff | app/src/main/java/com/prog7314/geoquest/data/model/LocationViewModel.kt:387-388 | the status says there is nothing to sync iff all three counts are zero |
| LocationViewModels.SyncStatusShape | app/src/main/java/com/prog7314/geoquest/data/model/LocationViewModel.kt:389-399 | otherwise the status is the prefix, the non-zero counts joined by commas, then the error in parentheses when a row failed |
| LocationViewModels.SyncStatusReportsCounts | app/src/main/java/com/prog7314/geoquest/data/model/LocationViewModel.kt:387-399 | a status of a pass that did something names every non-zero count, and the first error when a row failed |
| LocationViewModels.LocationViewModel.constructor | app/src/main/java/com/prog7314/geoquest/data/model/LocationViewModel.kt:21-53 | the view model as built: a repository without a context, empty lists, and the pending count of the table |
| LocationViewModels.LocationViewModel.WithContext | app/src/main/java/com/prog7314/geoquest/data/model/LocationViewModel.kt:21-53 | the same view model with a repository that reaches the server |
| LocationViewModels.LocationViewModel.UpdateUnsyncedCount | app/src/main/java/com/prog7314/geoquest/data/model/LocationViewModel.kt:59-65 | the pending count becomes the pending uploads plus the pending deletions; nothing else changes |
| LocationViewModels.LocationViewModel.AddLocation | app/src/main/java/com/prog7314/geoquest/data/model/LocationViewModel.kt:68-124 | a stored add writes the outcome's table, status and count; a failed one leaves the table and sets the error message |
| LocationViewModels.LocationViewModel.MergeRemote | app/src/main/java/com/prog7314/geoquest/data/model/LocationViewModel.kt:134-167 | the table becomes the merge of the server's answer; a failed answer leaves it as it was |
| LocationViewModels.LocationViewModel.Load | app/src/main/java/com/prog7314/geoquest/data/model/LocationViewModel.kt:126-184 | online, the server's answer is merged; then the published list shows the local answer to the query |
| LocationViewModels.LocationViewModel.ShowQuery | app/src/main/java/com/prog7314/geoquest/data/model/LocationViewModel.kt:170-177 | the published list shows the query's rows minus the ids deleted in this session |
| LocationViewModels.LocationViewModel.LoadAllLocations | app/src/main/java/com/prog7314/geoquest/data/model/LocationViewModel.kt:126-184 | the merge of the whole listing when online, then the live public rows |
| LocationViewModels.LocationViewModel.LoadUserLocations | app/src/main/java/com/prog7314/geoquest/data/model/LocationViewModel.kt:186-244 | the merge of the caller's locations when online, then the user's live rows |
| LocationViewModels.LocationViewModel.LoadUserLocationsByDateRange | app/src/main/java/com/prog7314/geoquest/data/model/LocationViewModel.kt:246-302 | the merge of the date-range answer when online, then the user's rows in the range |
| LocationViewModels.LocationViewModel.LoadFilteredUserLocations | app/src/main/java/com/prog7314/geoquest/data/model/LocationViewModel.kt:304-365 | the merge of the filtered answer when online, then the user's rows under the same filters |
| LocationViewModels.LocationViewModel.SyncNow | app/src/main/java/com/prog7314/geoquest/data/model/LocationViewModel.kt:367-414 | offline, it reports "Cannot sync" and changes nothing; online, the table is what the sync pass leaves, and the status is the pass's status text or "Sync failed: " with its message |
| LocationViewModels.LocationViewModel.DeleteLocation | app/src/main/java/com/prog7314/geoquest/data/model/LocationViewModel.kt:420-455 | the id joins the session's deleted set and leaves the list; the row is hard-deleted only when online and the server confirms, and soft-deleted otherwise; the id is no longer live |
| LocationViewModels.LocationViewModel.ForceDeleteLocation | app/src/main/java/com/prog7314/geoquest/data/model/LocationViewModel.kt:469-489 | the row is removed whatever the server answers, the id leaves the list, and the pending count is not refreshed |
| LocationViewModels.LocationViewModel.CleanupDeletedLocations | app/src/main/java/com/prog7314/geoquest/data/model/LocationViewModel.kt:494-503 | the table loses its synced tombstones, and the status says so |
| LocationViewModels.LocationViewModel.GetDeletedLocations | app/src/main/java/com/prog7314/geoquest/data/model/LocationViewModel.kt:508-515 | exactly the data of the unsynced tombstones, one entry per tombstone row |
| LocationViewModels.ForceDeleteLowersPendingCount | app/src/main/java/com/prog7314/geoquest/data/model/LocationViewModel.kt:469-484 | a hard delete of an unsynced row lowers the true pending count by one, which the screen then overstates |
| LocationViewModels.LocationViewModel.ForceDeleteLocationCorrected | app/src/main/java/com/prog7314/geoquest/data/model/LocationViewModel.kt:469-489 | a hard delete followed by a recount: the row is gone, the shown pending count equals the true count and drops by one for an unsynced row, the location leaves the list, and the status reads permanently deleted |
| Firestore.View | backend/services/firestoreService.js:19-22 | a returned document holds the stored fields plus `id`, and the stored `id` wins when the data has one |
| Firestore.GetDocument | backend/services/firestoreService.js:69-85 | null iff the document is missing; otherwise its view |
| Firestore.CreateLocation | backend/services/firestoreService.js:90-105 | the new document id replaces any supplied id, a falsy `dateAdded` becomes now, and every other field is kept |
| Firestore.CreateLocationIgnoresClientId | backend/services/firestoreService.js:93-96 | the id a client sends has no effect on what is stored |
| Firestore.CreatedDocumentReadsBack | backend/services/firestoreService.js:90-100 | a created location, stored under its new id, reads back unchanged |
| Firestore.CreateNotification | backend/services/firestoreService.js:194-210 | a new id; a falsy `timestamp` becomes now and a falsy `isRead` becomes false; every other field is kept |
| Firestore.GetAllLocations | backend/services/firestoreService.js:32-64 | the loop's result is the user's locations, then the public ones whose ids the user's lack, sorted newest first |
| Firestore.AllLocationsSpec | backend/services/firestoreService.js:48-59 | the listing holds exactly the user's locations and the public ones not among them; it is newest first, and no id repeats when neither query repeats one |
| Firestore.GetFilteredUserLocations | backend/services/firestoreService.js:142-168 | exactly the user's documents under each truthy filter, with inclusive bounds, newest first |
| Firestore.ZeroStartDateIgnored | backend/services/firestoreService.js:150-152 | a start date of 0 is falsy and filters nothing |
| Firestore.UpdateDocument | backend/services/firestoreService.js:110-124 | `update()` throws for a missing document and for an empty or malformed update (an empty segment, a reserved character, or two keys where one path is a prefix of the other); otherwise a plain key replaces or adds that field, a dotted key writes into the nested map its path names, and no other field or document changes |
| Firestore.UpdatePlainField | backend/services/firestoreService.js:110-124 | an update of one plain field name of an existing document is accepted, sets exactly that field and changes no other field or document |
| Firestore.OwnerFieldAfterUpdate | backend/services/firestoreService.js:110-124 | an update without a `userId` key leaves the owner field as it was or turns it into a map; it stays as it was unless some key is a path into `userId` |
| Firestore.DeleteDocument | backend/services/firestoreService.js:129-137 | exactly that document is removed |
| Firestore.MarkAllNotificationsAsRead | backend/services/firestoreService.js:247-265 | exactly the user's unread notifications become read, and their number is returned |
| Firestore.MarkAllReadTwice | backend/services/firestoreService.js:247-265 | marking all read a second time changes nothing and returns 0 |
| Firestore.DeleteAllUserNotifications | backend/services/firestoreService.js:270-287 | exactly the user's notifications are removed, and their number is returned |
| Firestore.DeleteAllCount | backend/services/firestoreService.js:270-287 | the count returned plus the notifications left is the number there were |
| LocationRoutes.NamedPathsNotCaptured | backend/routes/locations.js:23-59 | `/user` and `/filtered`, in any letter case, reach their own handlers, and every other single segment reaches `/:id` |
| LocationRoutes.ReadLocation | backend/routes/locations.js:59-87 | 404 iff the location is missing, 403 iff the caller neither owns it nor is it public, and otherwise 200 with the location |
| LocationRoutes.OwnerOrPublicReadable | backend/routes/locations.js:73-83 | an owner reads their own location, and anyone reads a public one |
| LocationRoutes.CreateLocationRoute | backend/routes/locations.js:93-117 | 400 with the collection unchanged when a required field is falsy; otherwise 201, and exactly one new document |
| LocationRoutes.CreatedLocationFields | backend/routes/locations.js:96-100 | the new location belongs to the caller whatever the body says, carries its new id, dates from the body or now, and keeps the other fields |
| LocationRoutes.EquatorRejected | backend/routes/locations.js:103-110 | a latitude of exactly 0 is refused with 400 |
| LocationRoutes.UpdateLocationRoute | backend/routes/locations.js:123-157 | 404 for a missing location and 403 for a non-owner, with no write; for the owner, an update the store refuses (empty once `userId` is removed, or malformed) goes to the error handler with no write, and any other is written and answered with 200 |
| LocationRoutes.EmptyUpdateForwarded | backend/routes/locations.js:148-152 | a body holding nothing but `userId` leaves an empty update, which the store refuses, so the owner gets the error handler's reply and nothing is written |
| LocationRoutes.FieldPathOrphansLocation | backend/routes/locations.js:148-152 | the body key `userId.x` passes the `userId` removal and is a field path, so the update answers 200 and leaves the location owned by nobody |
| LocationRoutes.UpdateKeepsOwners | backend/routes/locations.js:148-152 | an update changes only that location and never gives it to another user; its owner field is kept unless a body key is a dotted path into `userId`; on 200 each plain body field other than `userId` is stored as sent |
| LocationRoutes.DeleteLocationRoute | backend/routes/locations.js:163-193 | 404 for a missing location and 403 for a non-owner, with no write; otherwise the document is deleted with a success message |
| LocationRoutes.OnlyOwnersWrite | backend/routes/locations.js:129-188 | any PUT or DELETE that changes the collection was made by the owner of the location it names |
| LocationRoutes.BuildFilters | backend/routes/locations.js:41-46 | a filter is set only from a truthy query parameter, and the dates are parsed with `parseInt` |
| LocationRoutes.StartDateParsed | backend/routes/locations.js:45 | a start date written in decimal is parsed to its value |
| LocationRoutes.MalformedStartDateIgnored | backend/routes/locations.js:45-48 | a start date that does not parse is NaN, which is falsy, so it filters nothing |
| LocationRoutes.GetsDoNotWrite | backend/routes/locations.js:9-87 | no GET request changes the collection |
| LocationRoutes.ServeOnlyOwnersChange | backend/routes/locations.js:93-193 | whatever route a request reaches, an existing location its caller does not own keeps its document |
| LocationRoutes.HandleOnlyOwnersChange | backend/routes/locations.js:93-193 | no handler changes a location its caller does not own |
| NotificationRoutes.LimitOf | backend/routes/notifications.js:13 | the limit is never 0, and a missing one is 50 |
| NotificationRoutes.HexLimit | backend/routes/notifications.js:13 | a limit written in hexadecimal with a `0x` prefix is read as that hexadecimal number |
| NotificationRoutes.LimitRoundTrip | backend/routes/notifications.js:13 | a positive limit written in decimal is the limit used |
| NotificationRoutes.LimitDefaults | backend/routes/notifications.js:13 | a limit of 0, or one that does not parse, gives 50 |
| NotificationRoutes.ListNotifications | backend/routes/notifications.js:10-20 | the first `limit` of the caller's notifications; a negative limit is an error passed to `next` |
| NotificationRoutes.CreateNotificationRoute | backend/routes/notifications.js:26-51 | 400 with nothing stored when the title or the message is falsy; otherwise 201, and exactly one new document |
| NotificationRoutes.CreatedNotificationFields | backend/routes/notifications.js:29-34 | the new notification belongs to the caller, carries its new id, is unread unless the body says otherwise, dates from the body or now, and keeps the other fields |
| NotificationRoutes.UpdateNotificationRoute | backend/routes/notifications.js:57-84 | 404 unless the id is among the caller's first 1000 notifications; otherwise a missing document or an update the store refuses goes to the error handler with no write, and any other update is written and answered with 200 |
| NotificationRoutes.EmptyUpdateForwarded | backend/routes/notifications.js:75-79 | a body holding nothing but `userId` leaves an empty update, which the store refuses, so the caller gets the error handler's reply and nothing is written |
| NotificationRoutes.UpdateKeepsOwners | backend/routes/notifications.js:75-79 | an update changes only that notification and never gives it to another user; its owner field is kept unless a body key is a dotted path into `userId`; on 200 each plain body field other than `userId` is stored as sent |
| NotificationRoutes.DeleteNotificationRoute | backend/routes/notifications.js:104-127 | 404 unless the id is among the caller's first 1000 notifications; otherwise it is deleted with a success message |
| NotificationRoutes.PlainFieldPut | backend/routes/notifications.js:57-84 | a PUT on an id among the caller's notifications with a one-field body other than `userId` answers 200 and sets exactly that field |
| NotificationRoutes.ForeignNotificationDeletedAsWritten | backend/routes/notifications.js:57-127 | the ownership check compares the views' `id`, which a stored `id` field overrides: a PUT `{"id": victim}` on the caller's own notification answers 200, the caller's list is still views of their own documents, and a DELETE of the victim's id then answers 200 and removes another user's notification |
| NotificationRoutes.UpdateOwnNotificationRoute | backend/routes/notifications.js:57-84 | the per-id PUT with ownership checked on document ids: 404 unless the id is among the caller's first 1000 ids, the error handler with no write when the store refuses, otherwise the update is written and answered with 200 |
| NotificationRoutes.DeleteOwnNotificationRoute | backend/routes/notifications.js:104-127 | the per-id DELETE with ownership checked on document ids: 404 unless the id is among the caller's first 1000 ids, otherwise the document is deleted with a success message |
| NotificationRoutes.CorrectedWritesOnlyOwn | backend/routes/notifications.js:57-127 | with the check on document ids, no PUT or DELETE of any id with any body changes or removes a notification the caller does not own |
| NotificationRoutes.OnlyRecentWritten | backend/routes/notifications.js:63-73 | a notification outside the caller's recent list is never changed by a per-id request |
| NotificationRoutes.MarkAllReadRoute | backend/routes/notifications.js:90-98 | marks the caller's unread notifications read and reports their number in the message and in `count` |
| NotificationRoutes.DeleteAllRoute | backend/routes/notifications.js:133-141 | deletes the caller's notifications and reports their number in the message and in `count` |
| NotificationRoutes.BulkCountInMessage | backend/routes/notifications.js:94 | the count a bulk reply reports is the number its message spells out |
| NotificationRoutes.MarkAllReadShadowed | backend/routes/notifications.js:57-90 | as registered, PUT `/mark-all-read`, in any letter case, is dispatched to PUT `/:id`, and the mark-all-read route is never reached |
| NotificationRoutes.MarkAllReadAsWritten | backend/routes/notifications.js:57-90 | so, as registered, a request to mark everything read (in any letter case) answers 404 and marks nothing |
| NotificationRoutes.MarkAllReadReachable | backend/routes/notifications.js:57-98 | with `/mark-all-read` registered first, it reaches its handler in any letter case, and every other id still reaches the per-id handler |
| NotificationRoutes.OrdersAgreeElsewhere | backend/routes/notifications.js:10-141 | both registration orders send every request other than PUT `/mark-all-read` (in any letter case) to the same handler |
| Js.ParseIntValue | backend/routes/notifications.js:13 | `parseInt` is NaN exactly when neither a `0x` hexadecimal number nor decimal digits parse, and otherwise the parsed number |
| Js.ParseIntOfNatToString | backend/routes/locations.js:45-46 | `parseInt` reads back the decimal text of any counter |
| Js.ParseIntNaN | backend/routes/notifications.js:13 | text that does not start with a digit, a sign or whitespace parses to NaN |
| Js.ParseIntHex | backend/routes/notifications.js:13 | `parseInt` reads text starting `0x` (or `-0x`) as the hexadecimal number after the prefix, and a bare `0x` as NaN |
| Auth.BearerToken | backend/middleware/auth.js:14-23 | a token exists iff the header is present and starts with "Bearer "; it is the text after the prefix, up to the next occurrence of the prefix |
| Auth.BearerRoundTrip | backend/middleware/auth.js:23 | a token without the prefix in it is read back from its header |
| Auth.AuthRequest.constructor | backend/middleware/auth.js:10-12 | an incoming request with its header and no user yet |
| Auth.VerifyToken | backend/middleware/auth.js:10-42 | 401 "No authorization token provided" without a Bearer header; 401 "Invalid or expired token" when verification throws; otherwise the user id and email come from the decoded token and `next` is called exactly once |
| UserRepository.NewGoogleUser | app/src/main/java/com/prog7314/geoquest/data/repo/UserRepo.kt:47-52 | the profile's id is the uid, its name is the display name or "N/A", and its email is the email or "" |
| UserRepository.GoogleUsername | app/src/main/java/com/prog7314/geoquest/data/repo/UserRepo.kt:50 | with an email, the username is the email's prefix and holds no `@`; without one, it is "user_" followed by at most six characters that begin the uid |
| UserRepository.UpdatePassword | app/src/main/java/com/prog7314/geoquest/data/repo/UserRepo.kt:226-241 | succeeds iff a user with an email is signed in, re-authentication accepts the current password and Firebase accepts the new password, and then the account holds the new password; otherwise it fails with "No user logged in", "Email not found", the re-authentication refusal or the update's own failure message |
| UserRepository.UserRepo.constructor | app/src/main/java/com/prog7314/geoquest/data/repo/UserRepo.kt:14 | a repository with the preferences its context reaches |
| UserRepository.UserRepo.LoginOffline | app/src/main/java/com/prog7314/geoquest/data/repo/UserRepo.kt:134-157 | succeeds iff there is a context, a cached profile whose email equals the given one ignoring case, and a cached password equal to the given one; each failure has its message |
| UserRepository.UserRepo.CachedCredentialsLogIn | app/src/main/java/com/prog7314/geoquest/data/repo/UserRepo.kt:147-151 | the cached credentials always log in offline, in any letter case of the email |
| UserRepository.UserRepo.LoginUser | app/src/main/java/com/prog7314/geoquest/data/repo/UserRepo.kt:91-129 | offline, the offline login decides; an online failure falls back to it when there is a context; an online success caches the profile and password |
| UserRepository.UserRepo.LoginAsGuest | app/src/main/java/com/prog7314/geoquest/data/repo/UserRepo.kt:162-178 | without a context it fails; otherwise guest mode is on, and the placeholder profile it wrote is returned |
| UserRepository.UserRepo.AutoSignIn | app/src/main/java/com/prog7314/geoquest/data/repo/UserRepo.kt:183-207 | the guards in order: no context, guest mode, auto sign-in off, no cached user, no cached password; then the login with the cached credentials |
| UserRepository.UserRepo.LogoutUser | app/src/main/java/com/prog7314/geoquest/data/repo/UserRepo.kt:275-281 | the cached profile and password are gone, guest mode is off and auto sign-in is back to its default |
| Preferences.ReadUser | app/src/main/java/com/prog7314/geoquest/data/preferences/UserPreferences.kt:69-82 | a profile is read iff all four profile keys hold text |
| Preferences.ReadAfterWrite | app/src/main/java/com/prog7314/geoquest/data/preferences/UserPreferences.kt:47-81 | a stored profile reads back field for field |
| Preferences.ReadIgnoresOtherKeys | app/src/main/java/com/prog7314/geoquest/data/preferences/UserPreferences.kt:69-82 | writing any other key leaves the cached profile as it was |
| Preferences.UserPreferences.constructor | app/src/main/java/com/prog7314/geoquest/data/preferences/UserPreferences.kt:12-42 | both files start empty |
| Preferences.UserPreferences.CachedPassword | app/src/main/java/com/prog7314/geoquest/data/preferences/UserPreferences.kt:87-93 | no password when the encrypted file cannot be opened |
| Preferences.UserPreferences.SaveUserData | app/src/main/java/com/prog7314/geoquest/data/preferences/UserPreferences.kt:47-64 | the profile reads back, guest mode is off, and a given password is stored when the encrypted file opens (reporting a fault when it does not) |
| Preferences.UserPreferences.SetGuestMode | app/src/main/java/com/prog7314/geoquest/data/preferences/UserPreferences.kt:107-118 | on, it writes the guest placeholder profile; off, it only clears the flag |
| Preferences.UserPreferences.SetAutoSignIn | app/src/main/java/com/prog7314/geoquest/data/preferences/UserPreferences.kt:130-135 | the flag reads back, and the profile and guest mode are unchanged |
| Preferences.UserPreferences.ClearAll | app/src/main/java/com/prog7314/geoquest/data/preferences/UserPreferences.kt:147-154 | both files are emptied, and every getter is back to its default |
| Preferences.UserPreferences.ClearPassword | app/src/main/java/com/prog7314/geoquest/data/preferences/UserPreferences.kt:159-168 | only the password key goes; the profile is unchanged |
| Preferences.BiometricPreferences.constructor | app/src/main/java/com/prog7314/geoquest/data/preferences/BiometricPreferences.kt:9-17 | the store starts empty |
| Preferences.BiometricPreferences.EnableBiometric | app/src/main/java/com/prog7314/geoquest/data/preferences/BiometricPreferences.kt:22-28 | enabled, with the email saved |
| Preferences.BiometricPreferences.DisableBiometric | app/src/main/java/com/prog7314/geoquest/data/preferences/BiometricPreferences.kt:33-39 | disabled, with the email removed |
| Preferences.BiometricPreferences.ClearAll | app/src/main/java/com/prog7314/geoquest/data/preferences/BiometricPreferences.kt:58-60 | both defaults return: disabled, and no email |
| Preferences.LanguagePreferences.constructor | app/src/main/java/com/prog7314/geoquest/data/preferences/LanguagePreferences.kt:10-18 | the store starts empty |
| Preferences.LanguagePreferences.Language | app/src/main/java/com/prog7314/geoquest/data/preferences/LanguagePreferences.kt:33-35 | "en" when nothing is stored |
| Preferences.LanguagePreferences.CurrentLanguageName | app/src/main/java/com/prog7314/geoquest/data/preferences/LanguagePreferences.kt:40-43 | the display name of the stored language, and "English" when nothing is stored |
| Preferences.LanguagePreferences.SetLanguage | app/src/main/java/com/prog7314/geoquest/data/preferences/LanguagePreferences.kt:23-28 | the code reads back |
| Preferences.LanguagePreferences.ClearLanguage | app/src/main/java/com/prog7314/geoquest/data/preferences/LanguagePreferences.kt:48-53 | the language reads as the default again |
| Locale.LanguageDisplayName | app/src/main/java/com/prog7314/geoquest/utils/LocaleHelper.kt:68-74 | "Afrikaans" iff the lower-cased code is "af", and "English" for every other code |
| Locale.SelectLocale | app/src/main/java/com/prog7314/geoquest/utils/LocaleHelper.kt:20-25 | af-ZA iff the lower-cased code is "af", en-US iff it is "en", and the default locale otherwise |
| Locale.SupportedListsAligned | app/src/main/java/com/prog7314/geoquest/utils/LocaleHelper.kt:79-88 | the lists are equally long, each code shows as the name at its index, and each selects a locale of its own |
| Locale.CaseInsensitive | app/src/main/java/com/prog7314/geoquest/utils/LocaleHelper.kt:21-72 | neither the display name nor the locale depends on letter case |
| Locale.UnknownCodeShownAsEnglish | app/src/main/java/com/prog7314/geoquest/utils/LocaleHelper.kt:24-72 | a code that falls back to the system locale is shown as English |
| Messaging.ParseNotificationType | app/src/main/java/com/prog7314/geoquest/services/GeoQuestMessagingService.kt:166-176 | a missing type is GENERAL, and any other result is the type whose name is the upper-cased text |
| Messaging.ParseByUpper | app/src/main/java/com/prog7314/geoquest/services/GeoQuestMessagingService.kt:167-174 | any text whose upper case is a type's name parses to that type |
| Messaging.ParseName | app/src/main/java/com/prog7314/geoquest/services/GeoQuestMessagingService.kt:166-176 | every type parses back from its name |
| Messaging.ParseLowerName | app/src/main/java/com/prog7314/geoquest/services/GeoQuestMessagingService.kt:166-176 | matching ignores case: the lower-case name parses to the same type |
| Messaging.HandleDataMessage | app/src/main/java/com/prog7314/geoquest/services/GeoQuestMessagingService.kt:67-100 | nothing happens without a signed-in user; otherwise the record is saved with title "Notification" and message "" by default, and shown with title "GeoQuest" by default |
| Messaging.SavedAndShownTitles | app/src/main/java/com/prog7314/geoquest/services/GeoQuestMessagingService.kt:76-97 | the saved and shown titles agree iff the message has a title; the texts always agree |
| UserViewModels.ConnectivityStep | app/src/main/java/com/prog7314/geoquest/data/model/UserViewModel.kt:60-75 | online as a guest with no dismissal shows the prompt; offline hides it and keeps the dismissal; an offline-to-online change clears the dismissal and shows the prompt to a guest |
| UserViewModels.ConnectivityKeepsPrompt | app/src/main/java/com/prog7314/geoquest/data/model/UserViewModel.kt:60-75 | every event keeps the prompt limited to an online guest |
| UserViewModels.RepeatedEventIgnored | app/src/main/java/com/prog7314/geoquest/data/model/UserViewModel.kt:59-75 | a repeated event changes nothing, so dropping repeats does not change the result |
| UserViewModels.ObserveKeeps | app/src/main/java/com/prog7314/geoquest/data/model/UserViewModel.kt:55-78 | a run of events never changes guest mode, and keeps the prompt limited to an online guest |
| UserViewModels.ReconnectShowsPrompt | app/src/main/java/com/prog7314/geoquest/data/model/UserViewModel.kt:66-75 | whatever came before, a guest who goes offline and comes back sees the prompt |
| UserViewModels.StayingOnlineKeepsDismissal | app/src/main/java/com/prog7314/geoquest/data/model/UserViewModel.kt:63-75 | while the device stays online, a dismissed prompt stays hidden |
| UserViewModels.UpdateErrorText | app/src/main/java/com/prog7314/geoquest/data/model/UserViewModel.kt:221-226 | a message mentioning "password" in any case reads as a wrong current password; otherwise one mentioning "network" reads as a network error; anything else is shown after "Error: " |
| UserViewModels.UserViewModel.constructor | app/src/main/java/com/prog7314/geoquest/data/model/UserViewModel.kt:46-53 | guest mode as the preferences say, and the prompt hidden |
| UserViewModels.UserViewModel.OnConnectivity | app/src/main/java/com/prog7314/geoquest/data/model/UserViewModel.kt:60-75 | the prompt state becomes one step of the collector |
| UserViewModels.UserViewModel.ObserveConnectivity | app/src/main/java/com/prog7314/geoquest/data/model/UserViewModel.kt:55-78 | the prompt state becomes the collector run over the events |
| UserViewModels.UserViewModel.DismissGuestUpgradePrompt | app/src/main/java/com/prog7314/geoquest/data/model/UserViewModel.kt:80-86 | the prompt is hidden and dismissed for the session |
| UserViewModels.UserViewModel.LoginUser | app/src/main/java/com/prog7314/geoquest/data/model/UserViewModel.kt:151-168 | a success sets the user, clears guest mode and the error, and hides the prompt; a failure shows the message and clears `loginSuccess` |
| UserViewModels.UserViewModel.LoginAsGuest | app/src/main/java/com/prog7314/geoquest/data/model/UserViewModel.kt:173-199 | guest mode is on with the placeholder profile, the dismissal is reset, and the prompt is shown iff online |
| UserViewModels.UserViewModel.LogoutUser | app/src/main/java/com/prog7314/geoquest/data/model/UserViewModel.kt:233-240 | the preferences are cleared; the user is none; `loginSuccess`, guest mode, the prompt and the dismissal are all false |
| UserViewModels.UserViewModel.UpdateUser | app/src/main/java/com/prog7314/geoquest/data/model/UserViewModel.kt:201-231 | the password changes only when both passwords are non-blank, and its failure skips the profile update; a success shows "Profile updated successfully"; a failure shows its mapped text |
| Screens.SaveClick | app/src/main/java/com/prog7314/geoquest/screens/SettingsScreen.kt:639-660 | in order: a blank current password, a short new password, then no change are each refused with their message; otherwise the call carries the profile with only the username replaced |
| Screens.SaveCallsOnlyValid | app/src/main/java/com/prog7314/geoquest/screens/SettingsScreen.kt:639-660 | a call is made iff all three checks pass |
| Screens.OnUpdateUserAsWritten | app/src/main/java/com/prog7314/geoquest/screens/SettingsScreen.kt:131-133 | as written, the lambda passes the new password as `updateUser`'s current password, and the current password as the new one |
| Screens.OnUpdateUser | app/src/main/java/com/prog7314/geoquest/data/model/UserViewModel.kt:201 | each password goes to the parameter of its own name |
| Screens.PasswordNeverChangesAsWritten | app/src/main/java/com/prog7314/geoquest/screens/SettingsScreen.kt:131-133 | as written, the right current password with a different new one is refused, and the password never changes |
| Screens.PasswordChangesCorrected | app/src/main/java/com/prog7314/geoquest/data/model/UserViewModel.kt:206-210 | with the arguments in place, the account ends with the new password iff it is not blank and Firebase accepts it; otherwise the password is unchanged |
| Screens.LambdasAgreeOnProfile | app/src/main/java/com/prog7314/geoquest/screens/SettingsScreen.kt:131-133 | both versions hand over the same profile |
| Screens.RegisterError | app/src/main/java/com/prog7314/geoquest/screens/RegisterScreen.kt:174-194 | the register checks in order: blank name, blank username, blank email, bad email, blank password, short password, mismatched confirmation; each error holds iff the earlier checks pass and its own fails |
| Screens.RegisterClickAsWritten | app/src/main/java/com/prog7314/geoquest/screens/RegisterScreen.kt:174-202 | as written, the checks look at the password as typed, but the trimmed password is registered |
| Screens.PaddedPasswordPasses | app/src/main/java/com/prog7314/geoquest/screens/RegisterScreen.kt:186-194 | "abc" padded with three blanks passes every check as written |
| Screens.ShortPasswordRegisteredAsWritten | app/src/main/java/com/prog7314/geoquest/screens/RegisterScreen.kt:186-201 | as written, the padded password passes the screen's checks and its trimmed three-character form is what is sent to `registerUser` |
| Screens.ShortPasswordRejected | app/src/main/java/com/prog7314/geoquest/screens/RegisterScreen.kt:186-189 | the corrected check refuses the same input for its length |
| Text.Utf16Length | app/src/main/java/com/prog7314/geoquest/screens/RegisterScreen.kt:189 | `password.length` counts UTF-16 code units: at least one and at most two per character |
| Text.Utf16LengthOfBmp | app/src/main/java/com/prog7314/geoquest/screens/RegisterScreen.kt:189 | for text without characters outside the Basic Multilingual Plane, the UTF-16 length that `password.length` reads is its number of characters |
| Screens.RegisterClick | app/src/main/java/com/prog7314/geoquest/screens/RegisterScreen.kt:174-202 | a call is made iff every check passes on the registered password; it then has at least six UTF-16 code units, as Kotlin's `length` counts them, and the name, username and email are normalised |
| Screens.RegisterAgreesWithoutPadding | app/src/main/java/com/prog7314/geoquest/screens/RegisterScreen.kt:174-202 | for a password typed without surrounding blanks, both versions agree |
| Screens.RegisteredNamesTrimmed | app/src/main/java/com/prog7314/geoquest/screens/RegisterScreen.kt:196-200 | the registered name and username are non-empty and neither start nor end with a blank |
| Screens.LoginClick | app/src/main/java/com/prog7314/geoquest/screens/LoginScreen.kt:233-245 | in order: blank email, blank password, then the pattern on the text as typed; the call gets the trimmed lower-case email and the password unchanged |
| Screens.BiometricEmail | app/src/main/java/com/prog7314/geoquest/screens/LoginScreen.kt:121-123 | an email is saved iff biometrics are available and the field is not blank |
| Screens.BiometricEmailIsLoginEmail | app/src/main/java/com/prog7314/geoquest/screens/LoginScreen.kt:121-123 | the email saved for biometrics is the one the login was made with |
| Screens.LoginFindsRegisteredEmail | app/src/main/java/com/prog7314/geoquest/screens/LoginScreen.kt:243-245 | login and register normalise an email alike, so an account logs in with its email in any case or padding |

## Left out

- Coroutines, `StateFlow` and `isLoading`: each view-model method is one sequential step. Connectivity is a sequence of already-debounced, de-duplicated booleans.
- Clocks, UUIDs and the `yyyy-MM-dd` calendar parser: each is a parameter (`now`, `freshId`, `parse`).
- The server, Firebase Auth and Firestore: each is an oracle that answers a call with a success or a failure.
  - An exception that a repository catches is the same case as a failed answer.
  - In the backend, a store exception is `Forwarded`, the reply the application's error handler sends.
- Storage faults are modelled only where `syncAll` catches them: per-row writes, the two snapshot reads, and cleanup. Elsewhere Room is assumed not to throw.
- `LocationViewModel.notifyLocationAdded`, `clearSyncStatus`, `clearError` and `clearLocations`: the notification goes to `NotificationRepo`, and the other three only reset a field.
- `UserViewModel.autoSignIn`, `signInWithGoogle`, `registerUser` and `clearError`: only the repository side of auto sign-in and the Google profile defaults are modelled. As a consequence, the view-model class does not show that `registerUser` (app/src/main/java/com/prog7314/geoquest/data/model/UserViewModel.kt:142) leaves guest mode without hiding the login prompt; the class invariant that the prompt is shown only to a connected guest holds in this model only because `registerUser` is not part of it.
- `UserRepo.registerUser`, `signInWithGoogle` (beyond the new profile), `updateUserProfile`, `getUserProfile` and `deleteUser`: their behaviour is Firebase calls. The profile update's outcome is the parameter `profile` of `UpdateUser`.
- `UserData.kt`, `LocationData.kt` and `NotificationData.kt` are not part of this model. Their records appear here with the fields the modelled code reads.
- The register call is modelled by the fields it passes, not by a `UserData` with a generated id.
- Android's email pattern is the parameter `emailMatches`.
- Trimming and case mapping cover ASCII only.
- Latitude and longitude are JavaScript numbers compared with 0 for truthiness; no floating-point arithmetic is modelled.
- EncryptedSharedPreferences is a plain map whose file may fail to open. The cipher is not modelled.
- The Android configuration update in `setLocale` and `getLanguageCode` is not modelled. Only the locale that is selected is.
- The FCM token upload and the system-tray display are not modelled. `handleDataMessage` is modelled by the record it saves and the text it shows.
- `getUserNotifications` and `getUserLocations` in the backend are the oracle lists of a `Store`.
  - The per-id notification routes receive the caller's first 1000 notifications.
  - The Firestore ordering of those two queries is taken as given.
- `getUserProfile` and `updateUserProfile` in the backend are store calls of the users router, which is not part of this model. `GetDocument` covers the missing-document null.
- `UserRepository.UserRepo.LoginAsGuest`: the view model's branch for a failed guest login is not modelled. Its repository always has preferences, so that branch cannot be taken.
- `UserRepository.UserRepo.AutoSignIn`: when cached credentials exist and the device is online, the contract leaves the answer to `LoginUser`'s own contract rather than restating it.
- `LocationViewModels.LocationViewModel.SyncNow`: a `syncAll` that throws past its own handler becomes a failed result. The separate catch around it is not modelled.
- `Express.Dispatch`, `Express.QueryParam`, the `Js` helpers, `Text` and `Seqs` model the parts of Express, JavaScript and the Kotlin standard library that the core uses, within the limits below. Those without a row above are helpers.
- Express routing: literal segments match without regard to letter case for ASCII letters only; trailing slashes, URL decoding and the other router options are not modelled.
- JavaScript numbers are exact reals: the rounding of large `parseInt` results to doubles is not modelled.
- Firestore update values: restrictions on the values themselves (`undefined`, sentinels such as `FieldValue.delete()`) are not modelled; only the keys are checked.
- Screens.SaveClick, Screens.SaveCallsOnlyValid, Screens.RegisterError, Screens.RegisterClickAsWritten, Screens.RegisterClick, Screens.ShortPasswordRegisteredAsWritten, Screens.ShortPasswordRejected: password lengths are Kotlin's UTF-16 code-unit counts (`Text.Utf16Length`), but whitespace in `trim()` and `isBlank()` covers ASCII blanks only.

## Findings

| source | as written | input that shows it | evidently intended | confidence | as-written member | corrected member |
|---|---|---|---|---|---|---|
| app/src/main/java/com/prog7314/geoquest/screens/SettingsScreen.kt:131-133 | the Save lambda passes the new password as `updateUser`'s `currentPassword` and the current password as `newPassword` | current password "secret1" (correct), new password "secret2": re-authentication is tried with "secret2", refused, and the password stays "secret1" | each password goes to the parameter of its name, so the account ends with "secret2" | high, not executed | Screens.PasswordNeverChangesAsWritten | Screens.PasswordChangesCorrected |
| backend/routes/notifications.js:57-90 | PUT `/:id` is registered before PUT `/mark-all-read`, so Express dispatches `/mark-all-read` to the per-id handler | PUT `/api/notifications/mark-all-read` by a user with unread notifications answers 404 "Notification not found" and marks nothing | `/mark-all-read` registered first, so it marks every unread notification read | high, not executed | NotificationRoutes.MarkAllReadAsWritten | NotificationRoutes.MarkAllReadReachable |
| app/src/main/java/com/prog7314/geoquest/data/model/LocationViewModel.kt:22 | the view model builds `LocationRepo()` without a context, so every API call fails with "Context not available for API calls" | any online `addLocation`: the location is stored nowhere and the error is shown; every list load merges nothing | the repository gets the application context, so online adds reach the server and are stored as synced | high, not executed | LocationViewModels.ContextlessViewModelLosesOnlineAdds | LocationViewModels.OnlineAddWithContextStored |
| app/src/main/java/com/prog7314/geoquest/screens/RegisterScreen.kt:186-201 | the six-character and match checks look at the password as typed, but the trimmed password is passed on | password and confirmation "abc   " (abc plus three blanks): every check passes and the three-character "abc" is sent to `registerUser`, so the user sees Firebase's weak-password error (app/src/main/java/com/prog7314/geoquest/data/repo/UserRepo.kt:67, shown by app/src/main/java/com/prog7314/geoquest/data/model/UserViewModel.kt:144-146) instead of the screen's own length message | the length check applies to the password that is passed on | medium, not executed | Screens.ShortPasswordRegisteredAsWritten | Screens.ShortPasswordRejected |
| backend/routes/notifications.js:57-127 | ownership is checked by finding `id` among the `id` fields of the caller's notification views, where a stored `id` field overrides the document id (backend/services/firestoreService.js:181-184), and PUT strips only `userId` from the body | a user PUTs `{"id": "<victim's notification id>"}` to their own notification (200); their list now shows that id, so DELETE `/api/notifications/<victim's id>` answers 200 and removes another user's notification | the check compares document ids, so a request only reaches the caller's own notifications | medium, not executed | NotificationRoutes.ForeignNotificationDeletedAsWritten | NotificationRoutes.CorrectedWritesOnlyOwn |
| app/src/main/java/com/prog7314/geoquest/data/model/LocationViewModel.kt:469-484 | `forceDeleteLocation` removes the row but does not recount `unsyncedCount`, unlike the other writes | force-deleting a location that was added offline and never synced: the row is gone but the screen still counts it as pending | the pending count is recomputed after the delete, so it drops by one | medium, not executed | LocationViewModels.ForceDeleteLowersPendingCount | LocationViewModels.LocationViewModel.ForceDeleteLocationCorrected |
