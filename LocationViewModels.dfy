/** `LocationViewModel`: the screen-facing state of the location screens. It
    keeps the list on screen, the ids the user deleted in this session, the
    pending-upload count and two status texts, and drives the DAO, the
    repository and the sync manager. Connectivity, the clock and fresh UUIDs
    are parameters of the operations that read them.

    The list loads share one merge: the server's answer is written into the
    table only for ids that are neither deleted in this session, nor
    tombstoned, nor holding a local edit that has not been uploaded. */
module LocationViewModels {
  import opened Wrappers
  import opened Seqs
  import opened Text
  import opened LocationEntities
  import opened LocationStore
  import opened LocationRepository
  import opened Sync

  function DataId(d: LocationData): string { d.id }

  // ---- The merge of a server answer into the table ----

  /** The first filter: no local tombstone and not deleted in this session. */
  function FirstFilter(t: Table, deletedIds: set<string>): LocationData -> bool {
    (d: LocationData) => !IsDeleted(t, d.id) && d.id !in deletedIds
  }

  /** The second filter: an id the table holds live may be replaced only when
      its row is synced; a new id only when not deleted in this session. */
  function SecondFilter(t: Table, existingIds: set<string>, deletedIds: set<string>): LocationData -> bool {
    (d: LocationData) =>
      if d.id in existingIds then
        var existing := if d.id in t then Some(t[d.id]) else None;
        (existing.Some? && existing.value.isSynced) || existing.None?
      else
        d.id !in deletedIds
  }

  /** A server record as the synced row that replaces the local one. */
  function SyncedRow(now: int): LocationData -> LocationEntity {
    (d: LocationData) => ToLocationEntity(d, true, now)
  }

  /** The records that pass both filters, one per id. */
  function MergeCandidates(t: Table, deletedIds: set<string>, remote: seq<LocationData>): seq<LocationData> {
    DistinctBy(Filter(Filter(remote, FirstFilter(t, deletedIds)), SecondFilter(t, LiveIds(t), deletedIds)), DataId)
  }

  function MergeBatch(t: Table, deletedIds: set<string>, remote: seq<LocationData>, now: int): seq<LocationEntity> {
    Map(MergeCandidates(t, deletedIds, remote), SyncedRow(now))
  }

  /** The table after the merge; an empty batch writes nothing. */
  function MergeTable(t: Table, deletedIds: set<string>, remote: seq<LocationData>, now: int): Table {
    if MergeCandidates(t, deletedIds, remote) != [] then InsertAll(t, MergeBatch(t, deletedIds, remote, now)) else t
  }

  /** A failed server call leaves the table as it was. */
  function MergeResult(t: Table, deletedIds: set<string>, remote: Result<seq<LocationData>>, now: int): Table {
    if remote.Success? then MergeTable(t, deletedIds, remote.value, now) else t
  }

  /** The ids the merge may write: not deleted in this session, and either
      unknown locally or held by a live, synced row. */
  predicate Accepted(t: Table, deletedIds: set<string>, id: string) {
    id !in deletedIds && (id !in t || (t[id].isSynced && !t[id].isDeleted))
  }

  /** The server lists some record with this id. */
  predicate Listed(remote: seq<LocationData>, id: string) {
    exists d :: d in remote && d.id == id
  }

  /** The two filters together keep exactly the records of accepted ids. */
  lemma FiltersKeepAccepted(t: Table, deletedIds: set<string>, remote: seq<LocationData>)
    ensures forall d :: d in Filter(Filter(remote, FirstFilter(t, deletedIds)), SecondFilter(t, LiveIds(t), deletedIds))
                        <==> d in remote && Accepted(t, deletedIds, d.id)
  {
    var first := Filter(remote, FirstFilter(t, deletedIds));
    forall d ensures (FirstFilter(t, deletedIds)(d) && SecondFilter(t, LiveIds(t), deletedIds)(d))
                     <==> Accepted(t, deletedIds, d.id) {
    }
  }

  /** The batch has one row per id. */
  lemma MergeBatchDistinct(t: Table, deletedIds: set<string>, remote: seq<LocationData>, now: int)
    ensures DistinctKeys(MergeBatch(t, deletedIds, remote, now), IdOf)
  {
    MapDistinct(MergeCandidates(t, deletedIds, remote), SyncedRow(now), DataId, IdOf);
  }

  /** The batch's last row for an id is a synced copy of a server record of
      an accepted id. */
  lemma MergeBatchFrom(t: Table, deletedIds: set<string>, remote: seq<LocationData>, now: int, id: string)
    ensures LastWithId(MergeBatch(t, deletedIds, remote, now), id).Some? ==>
      Accepted(t, deletedIds, id)
      && exists d :: d in remote && d.id == id
                     && LastWithId(MergeBatch(t, deletedIds, remote, now), id).value == ToLocationEntity(d, true, now)
  {
    var u := MergeCandidates(t, deletedIds, remote);
    var b := MergeBatch(t, deletedIds, remote, now);
    LastWithIdIn(b, id);
    if LastWithId(b, id).Some? {
      var i :| 0 <= i < |b| && b[i] == LastWithId(b, id).value;
      assert u[i] in u;
      FiltersKeepAccepted(t, deletedIds, remote);
    }
  }

  /** Every listed, accepted id has a row in the batch. */
  lemma MergeBatchCovers(t: Table, deletedIds: set<string>, remote: seq<LocationData>, now: int, id: string)
    requires Accepted(t, deletedIds, id) && Listed(remote, id)
    ensures LastWithId(MergeBatch(t, deletedIds, remote, now), id).Some?
  {
    var u := MergeCandidates(t, deletedIds, remote);
    var b := MergeBatch(t, deletedIds, remote, now);
    CandidatesCover(t, deletedIds, remote, id);
    var j :| 0 <= j < |u| && DataId(u[j]) == id;
    assert b[j].id == id;
    LastWithIdSome(b, j, id);
  }

  /** Every listed, accepted id has a candidate. */
  lemma CandidatesCover(t: Table, deletedIds: set<string>, remote: seq<LocationData>, id: string)
    requires Accepted(t, deletedIds, id) && Listed(remote, id)
    ensures HasKey(MergeCandidates(t, deletedIds, remote), DataId, id)
  {
    var kept := Filter(Filter(remote, FirstFilter(t, deletedIds)), SecondFilter(t, LiveIds(t), deletedIds));
    FiltersKeepAccepted(t, deletedIds, remote);
    var d :| d in remote && d.id == id;
    assert d in kept;
    var k :| 0 <= k < |kept| && kept[k] == d;
    assert DataId(kept[k]) == id;
  }

  /** What the merge does to one id: a listed, accepted id becomes a synced,
      live copy of a server record with that id; every other id keeps its row
      (or its absence). */
  lemma MergeAt(t: Table, deletedIds: set<string>, remote: seq<LocationData>, now: int, id: string)
    ensures var t' := MergeTable(t, deletedIds, remote, now);
      && (!(Accepted(t, deletedIds, id) && Listed(remote, id)) ==>
            (id in t' <==> id in t) && (id in t ==> t'[id] == t[id]))
      && (Accepted(t, deletedIds, id) && Listed(remote, id) ==>
            id in t' && t'[id].isSynced && !t'[id].isDeleted
            && exists d :: d in remote && d.id == id && t'[id] == ToLocationEntity(d, true, now))
  {
    var b := MergeBatch(t, deletedIds, remote, now);
    assert MergeTable(t, deletedIds, remote, now) == InsertAll(t, b);
    MergeBatchFrom(t, deletedIds, remote, now, id);
    if Accepted(t, deletedIds, id) && Listed(remote, id) {
      MergeBatchCovers(t, deletedIds, remote, now, id);
    }
    InsertAllAt(t, b, id);
  }

  /** The view-model merge never touches a row with an edit waiting for
      upload, where the sync manager's download replaces it with the
      server's copy. */
  lemma MergeStricterThanDownload(t: Table, deletedIds: set<string>, remote: seq<LocationData>, now: int, id: string)
    requires id in t && !t[id].isSynced && !t[id].isDeleted && Listed(remote, id)
    ensures id in MergeTable(t, deletedIds, remote, now) && MergeTable(t, deletedIds, remote, now)[id] == t[id]
    ensures id in InsertAll(t, DownloadBatch(t, remote, now))
         && InsertAll(t, DownloadBatch(t, remote, now))[id] != t[id]
  {
    MergeAt(t, deletedIds, remote, now, id);
    DownloadOverwritesUnsynced(t, remote, now, id);
  }

  /** A merge only writes synced rows over synced rows, so the pending count
      on screen stays right across every list load. */
  lemma MergeKeepsUnsyncedCount(t: Table, deletedIds: set<string>, remote: seq<LocationData>, now: int)
    ensures UnsyncedCount(MergeTable(t, deletedIds, remote, now)) == UnsyncedCount(t)
  {
    var t' := MergeTable(t, deletedIds, remote, now);
    forall e ensures (e in t'.Values && !e.isSynced) <==> (e in t.Values && !e.isSynced) {
      if e in t'.Values && !e.isSynced {
        var k :| k in t' && t'[k] == e;
        MergeAt(t, deletedIds, remote, now, k);
      }
      if e in t.Values && !e.isSynced {
        var k :| k in t && t[k] == e;
        MergeAt(t, deletedIds, remote, now, k);
      }
    }
    assert (set e | e in t'.Values && !e.isSynced) == (set e | e in t.Values && !e.isSynced);
  }

  /** An id deleted in this session, gone from the live rows, stays gone
      whatever the server answers to later loads. */
  lemma DeletedIdStaysGone(t: Table, deletedIds: set<string>, remote: seq<LocationData>, now: int, id: string)
    requires id in deletedIds && id !in LiveIds(t)
    ensures id !in LiveIds(MergeTable(t, deletedIds, remote, now))
  {
    MergeAt(t, deletedIds, remote, now, id);
  }

  // ---- Publishing a local query to the screen ----

  function NotHidden(deletedIds: set<string>): LocationData -> bool {
    (d: LocationData) => d.id !in deletedIds
  }

  /** The list shown: the rows as data, without ids deleted in this session,
      one per id. */
  function Publish(es: seq<LocationEntity>, deletedIds: set<string>): seq<LocationData> {
    DistinctBy(Filter(Map(es, ToLocationData), NotHidden(deletedIds)), DataId)
  }

  /** `locs` is what the screen should show for query `q` on table `t`: the
      data of every matching row whose id was not deleted in this session,
      one per id, newest first when the query orders. */
  ghost predicate Shows(t: Table, q: Query, deletedIds: set<string>, locs: seq<LocationData>) {
    && (forall d :: d in locs <==>
          d.id !in deletedIds && exists e :: e in t.Values && Matches(q, e) && ToLocationData(e) == d)
    && DistinctKeys(locs, DataId)
    && (Ordered(q) ==> SortedDesc(locs, DataDateAdded))
  }

  /** Publishing a correct query answer shows exactly what it should; on a
      keyed table the `distinctBy` never drops anything. */
  lemma PublishShows(t: Table, q: Query, deletedIds: set<string>, es: seq<LocationEntity>)
    requires Keyed(t) && IsSelection(t, q, es)
    ensures Shows(t, q, deletedIds, Publish(es, deletedIds))
    ensures Publish(es, deletedIds) == Filter(Map(es, ToLocationData), NotHidden(deletedIds))
  {
    var m := Map(es, ToLocationData);
    var f := Filter(m, NotHidden(deletedIds));
    SelectionIdsDistinct(t, q, es);
    MapDistinct(es, ToLocationData, IdOf, DataId);
    FilterDistinct(m, NotHidden(deletedIds), DataId);
    DistinctByOfDistinct(f, DataId);
    if Ordered(q) {
      MapSorted(es, ToLocationData, DateAdded, DataDateAdded);
      FilterSorted(m, NotHidden(deletedIds), DataDateAdded);
    }
    forall d ensures d in f <==>
        d.id !in deletedIds && exists e :: e in t.Values && Matches(q, e) && ToLocationData(e) == d {
      if d in m {
        var i :| 0 <= i < |m| && m[i] == d;
        assert es[i] in es;
      }
      if exists e :: e in t.Values && Matches(q, e) && ToLocationData(e) == d {
        var e :| e in t.Values && Matches(q, e) && ToLocationData(e) == d;
        assert e in es;
        var i :| 0 <= i < |es| && es[i] == e;
        assert m[i] == d;
      }
    }
  }

  // ---- Adding a location ----

  const SavedOnline: string := "Location saved online"
  const SavedOffline: string := "Location saved offline (will sync when online)"

  /** A location without an id gets the fresh one; others keep theirs. */
  function WithId(d: LocationData, freshId: string): (r: LocationData)
    ensures d.id != [] ==> r == d
    ensures d.id == [] ==> r == d.(id := freshId)
  {
    if d.id == [] then d.(id := freshId) else d
  }

  datatype AddOutcome = Saved(rows: Table, status: string) | Failed(message: Message)

  /** `addLocation` on table `t`: online, the server is asked first and the
      location is stored as synced only when it accepts it, a refusal keeping
      the table as it was; offline it is stored at once as pending. */
  function AddOutcomeOf(repo: LocationRepo, t: Table, loc: LocationData, online: bool, now: int): (o: AddOutcome)
    ensures o.Saved? <==> !online || AddLocation(repo, loc).Success?
    ensures o.Saved? ==>
      && loc.id in o.rows && ToLocationData(o.rows[loc.id]) == loc
      && !o.rows[loc.id].isDeleted && (o.rows[loc.id].isSynced <==> online) && o.rows[loc.id].lastModified == now
      && (Matches(Unsynced, o.rows[loc.id]) <==> !online)
      && o.rows.Keys == t.Keys + {loc.id}
      && (forall k :: k in t && k != loc.id ==> o.rows[k] == t[k])
      && o.status == (if online then SavedOnline else SavedOffline)
    ensures o.Failed? ==> o.message == AddLocation(repo, loc).message
  {
    if online then
      var result := AddLocation(repo, loc);
      if result.Success? then Saved(Insert(t, ToLocationEntity(loc, true, now)), SavedOnline)
      else Failed(result.message)
    else
      Saved(Insert(t, ToLocationEntity(loc, false, now)), SavedOffline)
  }

  /** As written, the view model's repository has no context: an online add
      always fails with the missing-context message and the location is
      stored nowhere, and no list load ever merges a server answer. */
  lemma ContextlessViewModelLosesOnlineAdds(t: Table, loc: LocationData, now: int, deletedIds: set<string>,
                                            userId: string, s: int, e: int, os: Option<int>, oe: Option<int>,
                                            v: Option<string>)
    ensures AddOutcomeOf(LocationRepo(None), t, loc, true, now) == Failed(Some(NoContext))
    ensures MergeResult(t, deletedIds, GetAllLocations(LocationRepo(None)), now) == t
    ensures MergeResult(t, deletedIds, GetUserLocations(LocationRepo(None), userId), now) == t
    ensures MergeResult(t, deletedIds, GetUserLocationsByDateRange(LocationRepo(None), userId, s, e), now) == t
    ensures MergeResult(t, deletedIds, GetFilteredUserLocations(LocationRepo(None), userId, os, oe, v), now) == t
  {
    NoContextFailsEveryCall(loc, "", userId, s, e, os, oe, v, "", (x: string) => None);
  }

  /** With a context, an online add the server accepts is kept as a synced
      row carrying exactly the location. */
  lemma OnlineAddWithContextStored(api: Api, t: Table, loc: LocationData, now: int)
    requires api.createLocation(loc).Success?
    ensures var o := AddOutcomeOf(LocationRepo(Some(api)), t, loc, true, now);
      o.Saved? && o.rows[loc.id] == ToLocationEntity(loc, true, now) && o.status == SavedOnline
  {
    var o := AddOutcomeOf(LocationRepo(Some(api)), t, loc, true, now);
    assert o.rows == Insert(t, ToLocationEntity(loc, true, now));
  }

  // ---- Sync status text ----

  const NothingToSync: string := "Nothing to sync - all items are up to date"
  const SyncComplete: string := "Sync complete: "

  /** The non-zero counts, each with its word. */
  function StatusParts(s: SyncResult): seq<string> {
    (if s.uploadedCount > 0 then [NatToString(s.uploadedCount) + " uploaded"] else [])
    + (if s.deletedCount > 0 then [NatToString(s.deletedCount) + " deleted"] else [])
    + (if s.failedCount > 0 then [NatToString(s.failedCount) + " failed"] else [])
  }

  /** The status `syncNow` shows for a successful pass. */
  function SyncStatusMessage(s: SyncResult): string {
    if s.uploadedCount == 0 && s.deletedCount == 0 && s.failedCount == 0 then NothingToSync
    else
      SyncComplete + Join(StatusParts(s), ", ") + StatusTail(s)
  }

  /** "Nothing to sync" is shown exactly when the pass did nothing. */
  lemma NothingToSyncIff(s: SyncResult)
    ensures SyncStatusMessage(s) == NothingToSync <==>
            s.uploadedCount == 0 && s.deletedCount == 0 && s.failedCount == 0
  {
    if !(s.uploadedCount == 0 && s.deletedCount == 0 && s.failedCount == 0) {
      assert SyncStatusMessage(s)[0] == 'S';
    }
  }

  /** The status of a pass that did something: the prefix, the joined
      parts, then the error in parentheses when something failed. */
  lemma SyncStatusShape(s: SyncResult)
    requires !(s.uploadedCount == 0 && s.deletedCount == 0 && s.failedCount == 0)
    ensures SyncStatusMessage(s) == SyncComplete + Join(StatusParts(s), ", ") + StatusTail(s)
  {
  }

  function StatusTail(s: SyncResult): string {
    if s.errorMessage.Some? && s.failedCount > 0 then " (" + s.errorMessage.value + ")" else ""
  }

  /** Each part appears in the status of a pass that did something. */
  lemma PartInStatus(s: SyncResult, i: int)
    requires !(s.uploadedCount == 0 && s.deletedCount == 0 && s.failedCount == 0)
    requires 0 <= i < |StatusParts(s)|
    ensures Contains(SyncStatusMessage(s), StatusParts(s)[i])
  {
    SyncStatusShape(s);
    JoinContainsParts(StatusParts(s), ", ", i);
    ContainsWithin(SyncComplete, Join(StatusParts(s), ", "), StatusTail(s), StatusParts(s)[i]);
  }

  /** Otherwise the status reports every non-zero count, and the first error
      when something failed. */
  lemma SyncStatusReportsCounts(s: SyncResult)
    requires !(s.uploadedCount == 0 && s.deletedCount == 0 && s.failedCount == 0)
    ensures StartsWith(SyncStatusMessage(s), SyncComplete)
    ensures s.uploadedCount > 0 ==> Contains(SyncStatusMessage(s), NatToString(s.uploadedCount) + " uploaded")
    ensures s.deletedCount > 0 ==> Contains(SyncStatusMessage(s), NatToString(s.deletedCount) + " deleted")
    ensures s.failedCount > 0 ==> Contains(SyncStatusMessage(s), NatToString(s.failedCount) + " failed")
    ensures s.failedCount > 0 && s.errorMessage.Some? ==>
      Contains(SyncStatusMessage(s), "(" + s.errorMessage.value + ")")
  {
    var m := SyncStatusMessage(s);
    assert StartsWith(m, SyncComplete) by {
      SyncStatusShape(s);
      assert m[..|SyncComplete|] == SyncComplete;
    }
    if s.uploadedCount > 0 {
      assert Contains(m, NatToString(s.uploadedCount) + " uploaded") by {
        PartInStatus(s, 0);
      }
    }
    if s.deletedCount > 0 {
      assert Contains(m, NatToString(s.deletedCount) + " deleted") by {
        PartInStatus(s, if s.uploadedCount > 0 then 1 else 0);
      }
    }
    if s.failedCount > 0 {
      assert Contains(m, NatToString(s.failedCount) + " failed") by {
        PartInStatus(s, |StatusParts(s)| - 1);
      }
    }
    if s.failedCount > 0 && s.errorMessage.Some? {
      ErrorInStatus(s);
    }
  }

  /** The error of a pass with failures closes its status, in parentheses. */
  lemma ErrorInStatus(s: SyncResult)
    requires s.failedCount > 0 && s.errorMessage.Some?
    ensures Contains(SyncStatusMessage(s), "(" + s.errorMessage.value + ")")
  {
    var joined := Join(StatusParts(s), ", ");
    var inner := "(" + s.errorMessage.value + ")";
    SyncStatusShape(s);
    ContainsMiddle(SyncComplete + joined + " ", inner, "");
    assert SyncComplete + joined + " " + inner + "" == SyncComplete + joined + StatusTail(s);
  }

  // ---- The view model ----

  const Syncing: string := "Syncing..."
  const CannotSync: string := "Cannot sync: No internet connection"
  const LocationDeleted: string := "Location deleted"
  const MarkedForDeletion: string := "Location marked for deletion (will retry sync)"
  const DeletedLocally: string := "Location deleted locally (will sync when online)"
  const PermanentlyDeleted: string := "Location permanently deleted"
  const CleanedUp: string := "Cleaned up deleted locations"

  class LocationViewModel {
    const dao: LocationDao
    const repo: LocationRepo
    const syncManager: SyncManager
    var locations: seq<LocationData>
    var errorMessage: Message
    var isOnline: bool
    var unsyncedCount: int
    var syncStatus: Option<string>
    /** Ids deleted in this session, kept out of every later merge and list. */
    var deletedIds: set<string>

    /** The view model and its sync manager share one DAO. */
    ghost predicate Valid()
      reads this, dao
    {
      dao.Valid() && syncManager.dao == dao
    }

    /** The view model as the app builds it: its own repository is made
        without a context, so it has no API client. */
    constructor (dao: LocationDao, syncManager: SyncManager, online: bool)
      requires dao.Valid() && syncManager.dao == dao
      ensures Valid() && this.dao == dao && this.syncManager == syncManager
      ensures repo == LocationRepo(None)
      ensures locations == [] && deletedIds == {} && errorMessage == None && syncStatus == None
      ensures isOnline == online && unsyncedCount == UnsyncedCount(dao.rows)
    {
      this.dao := dao;
      this.syncManager := syncManager;
      repo := LocationRepo(None);
      locations := [];
      errorMessage := None;
      isOnline := online;
      unsyncedCount := 0;
      syncStatus := None;
      deletedIds := {};
      new;
      UpdateUnsyncedCount();
    }

    /** The view model with a repository that can reach the server. */
    constructor WithContext(dao: LocationDao, syncManager: SyncManager, api: Api, online: bool)
      requires dao.Valid() && syncManager.dao == dao
      ensures Valid() && this.dao == dao && this.syncManager == syncManager
      ensures repo == LocationRepo(Some(api))
      ensures locations == [] && deletedIds == {} && errorMessage == None && syncStatus == None
      ensures isOnline == online && unsyncedCount == UnsyncedCount(dao.rows)
    {
      this.dao := dao;
      this.syncManager := syncManager;
      repo := LocationRepo(Some(api));
      locations := [];
      errorMessage := None;
      isOnline := online;
      unsyncedCount := 0;
      syncStatus := None;
      deletedIds := {};
      new;
      UpdateUnsyncedCount();
    }

    /** `updateUnsyncedCount`: pending uploads plus pending deletions. */
    method UpdateUnsyncedCount()
      requires Valid()
      modifies this
      ensures Valid() && unsyncedCount == UnsyncedCount(dao.rows)
      ensures locations == old(locations) && errorMessage == old(errorMessage) && isOnline == old(isOnline)
      ensures syncStatus == old(syncStatus) && deletedIds == old(deletedIds)
    {
      var unsyncedLocations := dao.GetUnsyncedLocations();
      var unsyncedDeletions := dao.GetDeletedUnsyncedLocations();
      SelectionSize(dao.rows, Unsynced, unsyncedLocations);
      SelectionSize(dao.rows, DeletedUnsynced, unsyncedDeletions);
      UnsyncedCountSplit(dao.rows);
      unsyncedCount := |unsyncedLocations| + |unsyncedDeletions|;
    }

    /** `addLocation`. `online` is the connectivity reading, `freshId` the
        UUID for a location without an id, `now` the clock. */
    method AddLocation(locationData: LocationData, online: bool, freshId: string, now: int)
      requires Valid()
      modifies this, dao
      ensures Valid() && isOnline == online
      ensures var o := AddOutcomeOf(repo, old(dao.rows), WithId(locationData, freshId), online, now);
        && (o.Saved? ==> dao.rows == o.rows && syncStatus == Some(o.status)
                         && unsyncedCount == UnsyncedCount(dao.rows) && errorMessage == old(errorMessage))
        && (o.Failed? ==> dao.rows == old(dao.rows) && errorMessage == o.message
                          && syncStatus == old(syncStatus) && unsyncedCount == old(unsyncedCount))
      ensures locations == old(locations) && deletedIds == old(deletedIds)
    {
      var location := WithId(locationData, freshId);
      isOnline := online;
      if isOnline {
        var result := LocationRepository.AddLocation(repo, location);
        if result.Success? {
          dao.InsertLocation(ToLocationEntity(location, true, now));
          syncStatus := Some(SavedOnline);
        } else {
          errorMessage := result.message;
          return;
        }
      } else {
        dao.InsertLocation(ToLocationEntity(location, false, now));
        syncStatus := Some(SavedOffline);
      }
      UpdateUnsyncedCount();
    }

    /** The merge step shared by the list loads. */
    method MergeRemote(remote: Result<seq<LocationData>>, now: int)
      requires Valid()
      modifies dao
      ensures Valid() && dao.rows == MergeResult(old(dao.rows), deletedIds, remote, now)
    {
      if remote.Success? {
        var locationsToInsert := Filter(remote.value, FirstFilter(dao.rows, deletedIds));
        var ids := dao.GetAllLocationIds();
        var existingIds := set id | id in ids;
        assert existingIds == LiveIds(dao.rows);
        var locationsToUpdate := Filter(locationsToInsert, SecondFilter(dao.rows, existingIds, deletedIds));
        var unique := DistinctBy(locationsToUpdate, DataId);
        if unique != [] {
          dao.InsertLocations(Map(unique, SyncedRow(now)));
        }
      }
    }

    /** One list load: merge the server's answer when online, then show the
        local answer to `q`. */
    method Load(remote: Result<seq<LocationData>>, q: Query, online: bool, now: int)
      requires Valid()
      modifies this, dao
      ensures Valid() && isOnline == online
      ensures dao.rows == if online then MergeResult(old(dao.rows), deletedIds, remote, now) else old(dao.rows)
      ensures Shows(dao.rows, q, deletedIds, locations)
      ensures deletedIds == old(deletedIds) && errorMessage == old(errorMessage)
      ensures syncStatus == old(syncStatus) && unsyncedCount == old(unsyncedCount)
    {
      isOnline := online;
      if isOnline {
        MergeRemote(remote, now);
      }
      ShowQuery(q);
    }

    /** Shows the local answer to `q`, without the ids deleted in this session. */
    method ShowQuery(q: Query)
      requires Valid()
      modifies this
      ensures Valid() && Shows(dao.rows, q, deletedIds, locations)
      ensures isOnline == old(isOnline) && deletedIds == old(deletedIds) && errorMessage == old(errorMessage)
      ensures syncStatus == old(syncStatus) && unsyncedCount == old(unsyncedCount)
    {
      var entities := dao.Select(q);
      PublishShows(dao.rows, q, deletedIds, entities);
      locations := Publish(entities, deletedIds);
    }

    /** `loadAllLocations`: the server's whole listing; the public rows shown. */
    method LoadAllLocations(online: bool, now: int)
      requires Valid()
      modifies this, dao
      ensures Valid() && isOnline == online
      ensures dao.rows == if online then MergeResult(old(dao.rows), deletedIds, GetAllLocations(repo), now)
                          else old(dao.rows)
      ensures Shows(dao.rows, PublicLive, deletedIds, locations)
      ensures deletedIds == old(deletedIds) && errorMessage == old(errorMessage)
      ensures syncStatus == old(syncStatus) && unsyncedCount == old(unsyncedCount)
    {
      Load(GetAllLocations(repo), PublicLive, online, now);
    }

    /** `loadUserLocations`: the caller's server locations; the user's rows shown. */
    method LoadUserLocations(userId: string, online: bool, now: int)
      requires Valid()
      modifies this, dao
      ensures Valid() && isOnline == online
      ensures dao.rows == if online then MergeResult(old(dao.rows), deletedIds, GetUserLocations(repo, userId), now)
                          else old(dao.rows)
      ensures Shows(dao.rows, UserLive(userId), deletedIds, locations)
      ensures deletedIds == old(deletedIds) && errorMessage == old(errorMessage)
      ensures syncStatus == old(syncStatus) && unsyncedCount == old(unsyncedCount)
    {
      Load(GetUserLocations(repo, userId), UserLive(userId), online, now);
    }

    /** `loadUserLocationsByDateRange`: the user's rows added in the range. */
    method LoadUserLocationsByDateRange(userId: string, startDate: int, endDate: int, online: bool, now: int)
      requires Valid()
      modifies this, dao
      ensures Valid() && isOnline == online
      ensures dao.rows == if online
                          then MergeResult(old(dao.rows), deletedIds,
                                           GetUserLocationsByDateRange(repo, userId, startDate, endDate), now)
                          else old(dao.rows)
      ensures Shows(dao.rows, Filtered(userId, None, Some(startDate), Some(endDate)), deletedIds, locations)
      ensures deletedIds == old(deletedIds) && errorMessage == old(errorMessage)
      ensures syncStatus == old(syncStatus) && unsyncedCount == old(unsyncedCount)
    {
      Load(GetUserLocationsByDateRange(repo, userId, startDate, endDate),
           Filtered(userId, None, Some(startDate), Some(endDate)), online, now);
    }

    /** `loadFilteredUserLocations`: the user's rows under the optional filters. */
    method LoadFilteredUserLocations(userId: string, startDate: Option<int>, endDate: Option<int>,
                                     visibility: Option<string>, online: bool, now: int)
      requires Valid()
      modifies this, dao
      ensures Valid() && isOnline == online
      ensures dao.rows == if online
                          then MergeResult(old(dao.rows), deletedIds,
                                           GetFilteredUserLocations(repo, userId, startDate, endDate, visibility), now)
                          else old(dao.rows)
      ensures Shows(dao.rows, Filtered(userId, visibility, startDate, endDate), deletedIds, locations)
      ensures deletedIds == old(deletedIds) && errorMessage == old(errorMessage)
      ensures syncStatus == old(syncStatus) && unsyncedCount == old(unsyncedCount)
    {
      Load(GetFilteredUserLocations(repo, userId, startDate, endDate, visibility),
           Filtered(userId, visibility, startDate, endDate), online, now);
    }

    /** `syncNow`. The ghost results are the sync manager's answer and the
        snapshots its pass read. */
    method SyncNow(online: bool, env: SyncEnv)
      returns (ghost result: Result<SyncResult>, ghost ups: seq<LocationEntity>, ghost dels: seq<LocationEntity>)
      requires Valid()
      modifies this, dao
      ensures Valid() && isOnline == online
      ensures !online ==> syncStatus == Some(CannotSync) && dao.rows == old(dao.rows)
                          && errorMessage == old(errorMessage) && unsyncedCount == old(unsyncedCount)
      ensures online ==> SyncedBy(old(dao.rows), env, syncManager.repo, ups, dels, dao.rows, result)
      ensures online && result.Success? ==>
        syncStatus == Some(SyncStatusMessage(result.value)) && unsyncedCount == UnsyncedCount(dao.rows)
        && errorMessage == old(errorMessage)
      ensures online && result.Failure? ==>
        syncStatus == Some("Sync failed: " + result.message.GetOr("Unknown error"))
        && errorMessage == Some(result.message.GetOr("Unknown error")) && unsyncedCount == old(unsyncedCount)
      ensures locations == old(locations) && deletedIds == old(deletedIds)
    {
      result, ups, dels := Failure(None), [], [];
      syncStatus := Some(Syncing);
      isOnline := online;
      if !isOnline {
        syncStatus := Some(CannotSync);
        return;
      }
      var r;
      r, ups, dels := syncManager.SyncAll(env);
      result := r;
      if r.Success? {
        syncStatus := Some(SyncStatusMessage(r.value));
        UpdateUnsyncedCount();
      } else {
        var errMsg := r.message.GetOr("Unknown error");
        syncStatus := Some("Sync failed: " + errMsg);
        errorMessage := Some(errMsg);
      }
    }

    /** `deleteLocation`: the id is hidden for the rest of the session; the
        row is removed when the server confirms, and tombstoned for a later
        sync otherwise. */
    method DeleteLocation(locationId: string, online: bool, now: int)
      requires Valid()
      modifies this, dao
      ensures Valid() && isOnline == online
      ensures deletedIds == old(deletedIds) + {locationId}
      ensures online && LocationRepository.DeleteLocation(repo, locationId).Success? ==>
        dao.rows == Delete(old(dao.rows), locationId) && syncStatus == Some(LocationDeleted)
      ensures online && LocationRepository.DeleteLocation(repo, locationId).Failure? ==>
        dao.rows == SoftDelete(old(dao.rows), locationId, now) && syncStatus == Some(MarkedForDeletion)
      ensures !online ==> dao.rows == SoftDelete(old(dao.rows), locationId, now) && syncStatus == Some(DeletedLocally)
      ensures locationId !in LiveIds(dao.rows)
      ensures forall d :: d in locations <==> d in old(locations) && d.id != locationId
      ensures unsyncedCount == UnsyncedCount(dao.rows) && errorMessage == old(errorMessage)
    {
      isOnline := online;
      deletedIds := deletedIds + {locationId};
      if isOnline {
        var result := LocationRepository.DeleteLocation(repo, locationId);
        if result.Success? {
          dao.DeleteLocation(locationId);
          syncStatus := Some(LocationDeleted);
        } else {
          dao.SoftDeleteLocation(locationId, now);
          syncStatus := Some(MarkedForDeletion);
        }
      } else {
        dao.SoftDeleteLocation(locationId, now);
        syncStatus := Some(DeletedLocally);
      }
      locations := Filter(locations, (d: LocationData) => d.id != locationId);
      UpdateUnsyncedCount();
    }

    /** `forceDeleteLocation`: removes the row outright and asks the server
        to delete it when last seen online, ignoring the answer. The pending
        count is not refreshed. */
    method ForceDeleteLocation(locationId: string)
      requires Valid()
      modifies this, dao
      ensures Valid() && dao.rows == Delete(old(dao.rows), locationId)
      ensures forall d :: d in locations <==> d in old(locations) && d.id != locationId
      ensures syncStatus == Some(PermanentlyDeleted)
      ensures unsyncedCount == old(unsyncedCount) && isOnline == old(isOnline)
      ensures deletedIds == old(deletedIds) && errorMessage == old(errorMessage)
    {
      dao.DeleteLocation(locationId);
      if isOnline {
        var ignored := LocationRepository.DeleteLocation(repo, locationId);
      }
      locations := Filter(locations, (d: LocationData) => d.id != locationId);
      syncStatus := Some(PermanentlyDeleted);
    }

    /** `forceDeleteLocation` ending with `updateUnsyncedCount`, as
        `deleteLocation` does: the count shown is the table's, so removing a
        pending row lowers it by one. */
    method ForceDeleteLocationCorrected(locationId: string)
      requires Valid()
      modifies this, dao
      ensures Valid() && dao.rows == Delete(old(dao.rows), locationId)
      ensures unsyncedCount == UnsyncedCount(dao.rows)
      ensures locationId in old(dao.rows) && !old(dao.rows)[locationId].isSynced ==>
        unsyncedCount == UnsyncedCount(old(dao.rows)) - 1
      ensures forall d :: d in locations <==> d in old(locations) && d.id != locationId
      ensures syncStatus == Some(PermanentlyDeleted) && isOnline == old(isOnline)
      ensures deletedIds == old(deletedIds) && errorMessage == old(errorMessage)
    {
      ghost var before := dao.rows;
      ForceDeleteLocation(locationId);
      UpdateUnsyncedCount();
      if locationId in before && !before[locationId].isSynced {
        ForceDeleteLowersPendingCount(before, locationId);
      }
    }

    /** `cleanupDeletedLocations`. */
    method CleanupDeletedLocations()
      requires Valid()
      modifies this, dao
      ensures Valid() && dao.rows == CleanupSyncedDeleted(old(dao.rows))
      ensures syncStatus == Some(CleanedUp)
      ensures locations == old(locations) && unsyncedCount == old(unsyncedCount) && isOnline == old(isOnline)
      ensures deletedIds == old(deletedIds) && errorMessage == old(errorMessage)
    {
      dao.CleanupSyncedDeletedLocations();
      syncStatus := Some(CleanedUp);
    }

    /** `getDeletedLocations`: the data of the tombstones not yet synced. */
    method GetDeletedLocations() returns (r: seq<LocationData>)
      requires Valid()
      ensures forall d :: d in r <==>
        exists e :: e in dao.rows.Values && e.isDeleted && !e.isSynced && ToLocationData(e) == d
      ensures |r| == |Selected(dao.rows, DeletedUnsynced)|
    {
      var deletedEntities := dao.GetDeletedUnsyncedLocations();
      SelectionSize(dao.rows, DeletedUnsynced, deletedEntities);
      r := Map(deletedEntities, ToLocationData);
      forall d ensures d in r <==>
          exists e :: e in dao.rows.Values && e.isDeleted && !e.isSynced && ToLocationData(e) == d {
        if d in r {
          var i :| 0 <= i < |r| && r[i] == d;
          assert deletedEntities[i] in deletedEntities;
        }
        if exists e :: e in dao.rows.Values && e.isDeleted && !e.isSynced && ToLocationData(e) == d {
          var e :| e in dao.rows.Values && e.isDeleted && !e.isSynced && ToLocationData(e) == d;
          assert e in deletedEntities;
          var i :| 0 <= i < |deletedEntities| && deletedEntities[i] == e;
          assert r[i] == d;
        }
      }
    }
  }

  /** A hard delete of a row still waiting for upload lowers the true pending
      count, which `forceDeleteLocation` leaves on screen unchanged. */
  lemma ForceDeleteLowersPendingCount(t: Table, id: string)
    requires Keyed(t) && id in t && !t[id].isSynced
    ensures UnsyncedCount(Delete(t, id)) == UnsyncedCount(t) - 1
  {
    var before := set e | e in t.Values && !e.isSynced;
    var after := set e | e in Delete(t, id).Values && !e.isSynced;
    forall e ensures e in before <==> e in after || e == t[id] {
      if e in before && e != t[id] {
        var k :| k in t && t[k] == e;
        assert k != id;
        assert k in Delete(t, id);
      }
    }
    assert t[id] !in after;
    assert before == after + {t[id]};
  }
}
