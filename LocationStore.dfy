/** The Room table `locations` behind `LocationDao`: a map from primary key to
    row. The pure functions state what each statement does to a table; the
    class `LocationDao` holds the table and runs the statements in place. */
module LocationStore {
  import opened Wrappers
  import opened Seqs
  import opened LocationEntities

  type Table = map<string, LocationEntity>

  /** Every row is stored under its own primary key, so the table holds at
      most one row per id. */
  predicate Keyed(t: Table) {
    forall id :: id in t ==> t[id].id == id
  }

  function IdOf(e: LocationEntity): string { e.id }
  function DateAdded(e: LocationEntity): int { e.dateAdded }

  /** The row-selecting queries of the DAO. */
  datatype Query =
    | UserLive(userId: string)
    | PublicLive
    | Unsynced
    | DeletedUnsynced
    | Filtered(userId: string, visibility: Option<string>, startDate: Option<int>, endDate: Option<int>)

  /** The WHERE clause of each query. A null filter of `Filtered` leaves its
      column unconstrained; both date bounds are inclusive. */
  predicate Matches(q: Query, e: LocationEntity) {
    match q
    case UserLive(u) => e.userId == u && !e.isDeleted
    case PublicLive => e.visibility == "public" && !e.isDeleted
    case Unsynced => !e.isSynced && !e.isDeleted
    case DeletedUnsynced => e.isDeleted && !e.isSynced
    case Filtered(u, v, from, to) =>
      e.userId == u && !e.isDeleted
      && (v.None? || e.visibility == v.value)
      && (from.None? || e.dateAdded >= from.value)
      && (to.None? || e.dateAdded <= to.value)
  }

  /** The queries with `ORDER BY dateAdded DESC`; the two sync queries have no order. */
  predicate Ordered(q: Query) {
    !q.Unsynced? && !q.DeletedUnsynced?
  }

  /** Each element of `r` occurs in it exactly once. */
  predicate NoDuplicates(r: seq<LocationEntity>) {
    forall e :: e in r ==> multiset(r)[e] == 1
  }

  /** `r` is a correct answer to `q` on `t`: exactly the matching rows, each
      once, newest first when the query orders. */
  ghost predicate IsSelection(t: Table, q: Query, r: seq<LocationEntity>) {
    (forall e :: e in r <==> e in t.Values && Matches(q, e))
    && NoDuplicates(r)
    && (Ordered(q) ==> SortedDesc(r, DateAdded))
  }

  /** The rows `q` selects. */
  function Selected(t: Table, q: Query): set<LocationEntity> {
    set e | e in t.Values && Matches(q, e)
  }

  /** In a duplicate-free sequence, two positions hold two different elements. */
  lemma NoDuplicatesPositions(r: seq<LocationEntity>, i: int, j: int)
    requires NoDuplicates(r) && 0 <= i < j < |r|
    ensures r[i] != r[j]
  {
    assert r == r[..j] + [r[j]] + r[j + 1..];
    assert r[..j][i] == r[i];
    assert r[j] in r;
    assert multiset(r[..j])[r[i]] >= 1;
  }

  /** A correct answer never holds two rows with the same id. */
  lemma SelectionIdsDistinct(t: Table, q: Query, r: seq<LocationEntity>)
    requires Keyed(t) && IsSelection(t, q, r)
    ensures DistinctKeys(r, IdOf)
  {
    forall i, j | 0 <= i < j < |r| ensures r[i].id != r[j].id {
      NoDuplicatesPositions(r, i, j);
      assert r[i] in r && r[j] in r;
      assert r[i] == t[r[i].id] && r[j] == t[r[j].id];
    }
  }

  /** A duplicate-free sequence has as many elements as its set of elements. */
  lemma {:induction false} NoDuplicatesCard(r: seq<LocationEntity>)
    requires NoDuplicates(r)
    ensures |r| == |set e | e in r|
  {
    if r != [] {
      var init, last := r[..|r| - 1], r[|r| - 1];
      assert r == init + [last];
      assert last in r;
      assert multiset(r)[last] == multiset(init)[last] + 1;
      assert last !in init;
      forall e | e in init ensures multiset(init)[e] == 1 {
        assert multiset(r)[e] == multiset(init)[e] + (if e == last then 1 else 0);
      }
      NoDuplicatesCard(init);
      assert (set e | e in r) == (set e | e in init) + {last};
    }
  }

  /** A correct answer is as long as the number of rows it selects. */
  lemma SelectionSize(t: Table, q: Query, r: seq<LocationEntity>)
    requires IsSelection(t, q, r)
    ensures |r| == |Selected(t, q)|
  {
    NoDuplicatesCard(r);
    assert (set e | e in r) == Selected(t, q);
  }

  /** `getUnsyncedLocations` and `getDeletedUnsyncedLocations` never share a row. */
  lemma SyncQueriesDisjoint(t: Table)
    ensures Selected(t, Unsynced) * Selected(t, DeletedUnsynced) == {}
  {
  }

  // ---- The statements, as functions on tables ----

  /** `INSERT OR REPLACE` of one row: the row for `e.id` becomes `e`, every
      other row stays as it was. */
  function Insert(t: Table, e: LocationEntity): (t': Table)
    ensures e.id in t' && t'[e.id] == e
    ensures t'.Keys == t.Keys + {e.id}
    ensures forall id :: id in t && id != e.id ==> t'[id] == t[id]
    ensures Keyed(t) ==> Keyed(t')
  {
    t[e.id := e]
  }

  /** `INSERT OR REPLACE` of a list, row by row in list order. */
  function InsertAll(t: Table, es: seq<LocationEntity>): (t': Table)
    ensures Keyed(t) ==> Keyed(t')
  {
    if es == [] then t else Insert(InsertAll(t, es[..|es| - 1]), es[|es| - 1])
  }

  /** The last row of `es` with the given id, if any. */
  function LastWithId(es: seq<LocationEntity>, id: string): Option<LocationEntity> {
    if es == [] then None
    else if es[|es| - 1].id == id then Some(es[|es| - 1])
    else LastWithId(es[..|es| - 1], id)
  }

  /** After a batch insert, the row for each id is the last inserted row with
      that id, or the old row when the batch had none. */
  lemma {:induction false} InsertAllAt(t: Table, es: seq<LocationEntity>, id: string)
    ensures id in InsertAll(t, es) <==> LastWithId(es, id).Some? || id in t
    ensures LastWithId(es, id).Some? ==> InsertAll(t, es)[id] == LastWithId(es, id).value
    ensures LastWithId(es, id).None? && id in t ==> InsertAll(t, es)[id] == t[id]
  {
    if es != [] {
      InsertAllAt(t, es[..|es| - 1], id);
    }
  }

  /** `markAsSynced`: sets `isSynced` of the named row only; a missing id is a no-op. */
  function MarkSynced(t: Table, id: string): (t': Table)
    ensures t'.Keys == t.Keys
    ensures id in t ==> t'[id] == t[id].(isSynced := true)
    ensures forall k :: k in t && k != id ==> t'[k] == t[k]
    ensures Keyed(t) ==> Keyed(t')
  {
    if id in t then t[id := t[id].(isSynced := true)] else t
  }

  /** `softDeleteLocation`: marks the named row deleted and unsynced at `timestamp`. */
  function SoftDelete(t: Table, id: string, timestamp: int): (t': Table)
    ensures t'.Keys == t.Keys
    ensures id in t ==> t'[id] == t[id].(isDeleted := true, isSynced := false, lastModified := timestamp)
    ensures forall k :: k in t && k != id ==> t'[k] == t[k]
    ensures Keyed(t) ==> Keyed(t')
  {
    if id in t then t[id := t[id].(isDeleted := true, isSynced := false, lastModified := timestamp)] else t
  }

  /** `deleteLocation`: removes the row for `id`, and nothing else. */
  function Delete(t: Table, id: string): (t': Table)
    ensures t'.Keys == t.Keys - {id}
    ensures forall k :: k in t' ==> t'[k] == t[k]
    ensures Keyed(t) ==> Keyed(t')
  {
    t - {id}
  }

  /** A row that is both deleted and synced: its deletion reached the server. */
  predicate SyncedTombstone(e: LocationEntity) {
    e.isDeleted && e.isSynced
  }

  /** `cleanupSyncedDeletedLocations`: removes exactly the synced tombstones. */
  function CleanupSyncedDeleted(t: Table): (t': Table)
    ensures forall id :: id in t' <==> id in t && !SyncedTombstone(t[id])
    ensures forall id :: id in t' ==> t'[id] == t[id]
    ensures Keyed(t) ==> Keyed(t')
  {
    map id | id in t && !SyncedTombstone(t[id]) :: t[id]
  }

  /** `getUnsyncedCount`: the rows not yet synced, tombstones included. */
  function UnsyncedCount(t: Table): nat {
    |set e | e in t.Values && !e.isSynced|
  }

  /** The unsynced count is the unsynced live rows plus the unsynced tombstones. */
  lemma UnsyncedCountSplit(t: Table)
    ensures UnsyncedCount(t) == |Selected(t, Unsynced)| + |Selected(t, DeletedUnsynced)|
  {
    var all := set e | e in t.Values && !e.isSynced;
    assert all == Selected(t, Unsynced) + Selected(t, DeletedUnsynced);
    SyncQueriesDisjoint(t);
  }

  /** `isLocationDeleted`: the id has a tombstone. */
  predicate IsDeleted(t: Table, id: string) {
    id in t && t[id].isDeleted
  }

  /** The ids of the live rows (`getAllLocationIds`). */
  function LiveIds(t: Table): (ids: set<string>)
    ensures forall id :: id in ids <==> id in t && !t[id].isDeleted
  {
    set id | id in t && !t[id].isDeleted
  }

  /** A soft-deleted row leaves every query that excludes deleted rows and the
      unsynced-upload query, and is now what `isLocationDeleted` and the
      deletion-sync query see. */
  lemma SoftDeletedRowHidden(t: Table, id: string, timestamp: int, q: Query)
    requires Keyed(t) && id in t && !q.DeletedUnsynced?
    ensures !Matches(q, SoftDelete(t, id, timestamp)[id])
    ensures Matches(DeletedUnsynced, SoftDelete(t, id, timestamp)[id])
    ensures IsDeleted(SoftDelete(t, id, timestamp), id)
    ensures id !in LiveIds(SoftDelete(t, id, timestamp))
  {
  }

  /** The DAO over one table. */
  class LocationDao {
    var rows: Table

    ghost predicate Valid()
      reads this
    {
      Keyed(rows)
    }

    constructor ()
      ensures Valid() && rows == map[]
    {
      rows := map[];
    }

    method InsertLocation(e: LocationEntity)
      requires Valid()
      modifies this
      ensures Valid() && rows == Insert(old(rows), e)
    {
      rows := Insert(rows, e);
    }

    method InsertLocations(es: seq<LocationEntity>)
      requires Valid()
      modifies this
      ensures Valid() && rows == InsertAll(old(rows), es)
    {
      for i := 0 to |es|
        invariant Keyed(rows)
        invariant rows == InsertAll(old(rows), es[..i])
      {
        assert es[..i + 1][..i] == es[..i];
        rows := Insert(rows, es[i]);
      }
      assert es[..|es|] == es;
    }

    /** Runs a query: scans the rows, keeps the matching ones, and orders them
        newest first when the query asks for it. */
    method Select(q: Query) returns (r: seq<LocationEntity>)
      requires Valid()
      ensures IsSelection(rows, q, r)
    {
      r := [];
      var rest := rows.Keys;
      while rest != {}
        invariant rest <= rows.Keys
        invariant forall e :: e in r <==> e in rows.Values && e.id !in rest && Matches(q, e)
        invariant NoDuplicates(r)
        decreases |rest|
      {
        var id :| id in rest;
        var e := rows[id];
        if Matches(q, e) {
          assert e !in r;
          r := r + [e];
        }
        rest := rest - {id};
      }
      if Ordered(q) {
        var sorted := SortDesc(r, DateAdded);
        SortDescMembers(r, DateAdded);
        r := sorted;
      }
    }

    method GetUserLocationsOnce(userId: string) returns (r: seq<LocationEntity>)
      requires Valid()
      ensures IsSelection(rows, UserLive(userId), r)
    {
      r := Select(UserLive(userId));
    }

    method GetAllPublicLocationsOnce() returns (r: seq<LocationEntity>)
      requires Valid()
      ensures IsSelection(rows, PublicLive, r)
    {
      r := Select(PublicLive);
    }

    method GetUnsyncedLocations() returns (r: seq<LocationEntity>)
      requires Valid()
      ensures IsSelection(rows, Unsynced, r)
    {
      r := Select(Unsynced);
    }

    method GetDeletedUnsyncedLocations() returns (r: seq<LocationEntity>)
      requires Valid()
      ensures IsSelection(rows, DeletedUnsynced, r)
    {
      r := Select(DeletedUnsynced);
    }

    method GetFilteredLocations(userId: string, visibility: Option<string>,
                                startDate: Option<int>, endDate: Option<int>)
      returns (r: seq<LocationEntity>)
      requires Valid()
      ensures IsSelection(rows, Filtered(userId, visibility, startDate, endDate), r)
    {
      r := Select(Filtered(userId, visibility, startDate, endDate));
    }

    /** `getLocationById`: the live row for `id`. */
    function GetLocationById(id: string): (r: Option<LocationEntity>)
      reads this
      ensures r.Some? <==> id in rows && !rows[id].isDeleted
      ensures r.Some? ==> r.value == rows[id]
    {
      if id in rows && !rows[id].isDeleted then Some(rows[id]) else None
    }

    /** `getLocationByIdIncludingDeleted`: the row for `id`, tombstone or not. */
    function GetLocationByIdIncludingDeleted(id: string): (r: Option<LocationEntity>)
      reads this
      ensures r.Some? <==> id in rows
      ensures r.Some? ==> r.value == rows[id]
    {
      if id in rows then Some(rows[id]) else None
    }

    /** `getAllLocationIds`: the ids of the live rows, each once. */
    method GetAllLocationIds() returns (ids: seq<string>)
      requires Valid()
      ensures forall id :: id in ids <==> id in LiveIds(rows)
      ensures forall i, j :: 0 <= i < j < |ids| ==> ids[i] != ids[j]
    {
      ids := [];
      var rest := rows.Keys;
      while rest != {}
        invariant rest <= rows.Keys
        invariant forall id :: id in ids <==> id in LiveIds(rows) && id !in rest
        invariant forall i, j :: 0 <= i < j < |ids| ==> ids[i] != ids[j]
        decreases |rest|
      {
        var id :| id in rest;
        if !rows[id].isDeleted {
          ids := ids + [id];
        }
        rest := rest - {id};
      }
    }

    function IsLocationDeleted(id: string): (b: bool)
      reads this
      ensures b <==> id in rows && rows[id].isDeleted
    {
      IsDeleted(rows, id)
    }

    method MarkAsSynced(id: string)
      requires Valid()
      modifies this
      ensures Valid() && rows == MarkSynced(old(rows), id)
    {
      rows := MarkSynced(rows, id);
    }

    method SoftDeleteLocation(id: string, timestamp: int)
      requires Valid()
      modifies this
      ensures Valid() && rows == SoftDelete(old(rows), id, timestamp)
    {
      rows := SoftDelete(rows, id, timestamp);
    }

    method DeleteLocation(id: string)
      requires Valid()
      modifies this
      ensures Valid() && rows == Delete(old(rows), id)
    {
      rows := Delete(rows, id);
    }

    method CleanupSyncedDeletedLocations()
      requires Valid()
      modifies this
      ensures Valid() && rows == CleanupSyncedDeleted(old(rows))
    {
      rows := CleanupSyncedDeleted(rows);
    }

    function GetUnsyncedCount(): (n: nat)
      reads this
      ensures n == |set e | e in rows.Values && !e.isSynced|
    {
      UnsyncedCount(rows)
    }

    method ClearAllLocations()
      modifies this
      ensures Valid() && rows == map[]
    {
      rows := map[];
    }
  }
}
