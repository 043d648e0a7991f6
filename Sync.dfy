/** `SyncManager`: pushes local changes to the server and pulls server rows
    into the local table.

    `syncAll` runs three phases over one table: it uploads every unsynced live
    row and marks it synced, then deletes every unsynced tombstone on the
    server and removes it locally, then removes the synced tombstones. It
    counts successes and failures and keeps the first error message. The
    functions `UploadAll` and `DeleteAll` state the phases as folds over the
    snapshot lists the DAO returned; the method `SyncManager.SyncAll` is
    proved to compute exactly them. */
module Sync {
  import opened Wrappers
  import opened Seqs
  import opened LocationEntities
  import opened LocationStore
  import opened LocationRepository

  /** The summary `syncAll` returns. */
  datatype SyncResult = SyncResult(uploadedCount: nat, deletedCount: nat, failedCount: nat,
                                   errorMessage: Option<string>)

  /** What the device and the storage do during one pass: connectivity, the
      signed-in user, a failure of either snapshot read (with the exception's
      message), a failure of the local write for a row id, and a failure of
      the cleanup statement. */
  datatype SyncEnv = SyncEnv(
    online: bool,
    signedIn: bool,
    unsyncedReadFault: Option<Message>,
    deletedReadFault: Option<Message>,
    writeFault: string -> Option<Message>,
    cleanupFault: bool)

  const NoInternet: string := "No internet connection"
  const NotLoggedIn: string := "User not logged in. Please log in to sync."

  /** The state of a pass: the table, the counters, the first error and
      whether a snapshot read failed. */
  datatype Pass = Pass(rows: Table, uploaded: nat, deleted: nat, failed: nat,
                       error: Option<string>, hasError: bool)

  function Start(t: Table): Pass {
    Pass(t, 0, 0, 0, None, false)
  }

  /** Records `msg` only when no error was recorded before. */
  function KeepFirst(error: Option<string>, msg: string): (r: Option<string>)
    ensures r.Some?
    ensures error.Some? ==> r == error
    ensures error.None? ==> r == Some(msg)
  {
    if error.None? then Some(msg) else error
  }

  // ---- Upload phase ----

  /** The remote add of `e` succeeded and marking it synced did not fail. */
  predicate UploadOk(e: LocationEntity, repo: LocationRepo, writeFault: string -> Option<Message>) {
    AddLocation(repo, ToLocationData(e)).Success? && writeFault(e.id).None?
  }

  /** One iteration of the upload loop. */
  function UploadStep(p: Pass, e: LocationEntity, repo: LocationRepo,
                      writeFault: string -> Option<Message>): Pass
  {
    match AddLocation(repo, ToLocationData(e))
    case Success(_) =>
      (match writeFault(e.id)
       case None => p.(rows := MarkSynced(p.rows, e.id), uploaded := p.uploaded + 1)
       case Some(m) =>
         p.(failed := p.failed + 1, error := KeepFirst(p.error, "Error uploading: " + Render(m))))
    case Failure(m) =>
      p.(failed := p.failed + 1, error := KeepFirst(p.error, "Failed to upload: " + m.GetOr("Unknown error")))
  }

  /** The upload loop over a snapshot, in list order. */
  function UploadAll(p: Pass, es: seq<LocationEntity>, repo: LocationRepo,
                     writeFault: string -> Option<Message>): Pass
  {
    if es == [] then p
    else UploadStep(UploadAll(p, es[..|es| - 1], repo, writeFault), es[|es| - 1], repo, writeFault)
  }

  /** How many rows of `es` upload without a fault. */
  function CountUploadOk(es: seq<LocationEntity>, repo: LocationRepo,
                         writeFault: string -> Option<Message>): (n: nat)
    ensures n <= |es|
  {
    if es == [] then 0
    else CountUploadOk(es[..|es| - 1], repo, writeFault)
         + (if UploadOk(es[|es| - 1], repo, writeFault) then 1 else 0)
  }

  /** Some row of `es` with this id uploads without a fault. */
  predicate SomeUploadOk(es: seq<LocationEntity>, id: string, repo: LocationRepo,
                         writeFault: string -> Option<Message>)
  {
    es != [] &&
    ((es[|es| - 1].id == id && UploadOk(es[|es| - 1], repo, writeFault))
     || SomeUploadOk(es[..|es| - 1], id, repo, writeFault))
  }

  /** The upload phase marks a row synced exactly when a snapshot row with its
      id uploaded without a fault, and changes nothing else in the table; each
      row counts once as uploaded or failed; the deletion counters and the read
      flag are untouched; the first error is kept, and an error is recorded
      iff some row failed or one was recorded before. */
  lemma {:induction false} UploadAllEffect(p: Pass, es: seq<LocationEntity>, repo: LocationRepo,
                                           writeFault: string -> Option<Message>)
    ensures var q := UploadAll(p, es, repo, writeFault);
      && q.rows.Keys == p.rows.Keys
      && (forall id :: id in p.rows ==>
            q.rows[id] == if SomeUploadOk(es, id, repo, writeFault) then p.rows[id].(isSynced := true) else p.rows[id])
      && q.uploaded == p.uploaded + CountUploadOk(es, repo, writeFault)
      && q.uploaded + q.failed == p.uploaded + p.failed + |es|
      && q.deleted == p.deleted && q.hasError == p.hasError
      && (p.error.Some? ==> q.error == p.error)
      && (q.error.Some? <==> p.error.Some? || CountUploadOk(es, repo, writeFault) < |es|)
  {
    if es != [] {
      UploadAllEffect(p, es[..|es| - 1], repo, writeFault);
      UploadStepEffect(UploadAll(p, es[..|es| - 1], repo, writeFault), es[|es| - 1], repo, writeFault);
    }
  }

  /** One iteration of the upload loop, as `UploadAllEffect` states it for the
      whole snapshot. */
  lemma UploadStepEffect(p: Pass, e: LocationEntity, repo: LocationRepo, writeFault: string -> Option<Message>)
    ensures var q := UploadStep(p, e, repo, writeFault);
      && q.rows.Keys == p.rows.Keys
      && (forall id :: id in p.rows ==>
            q.rows[id] == if e.id == id && UploadOk(e, repo, writeFault) then p.rows[id].(isSynced := true) else p.rows[id])
      && q.uploaded == p.uploaded + (if UploadOk(e, repo, writeFault) then 1 else 0)
      && q.uploaded + q.failed == p.uploaded + p.failed + 1
      && q.deleted == p.deleted && q.hasError == p.hasError
      && (p.error.Some? ==> q.error == p.error)
      && (q.error.Some? <==> p.error.Some? || !UploadOk(e, repo, writeFault))
  {
  }

  // ---- Deletion phase ----

  /** The remote delete of `e` succeeded and removing the row did not fail. */
  predicate DeleteOk(e: LocationEntity, repo: LocationRepo, writeFault: string -> Option<Message>) {
    DeleteLocation(repo, e.id).Success? && writeFault(e.id).None?
  }

  /** One iteration of the deletion loop: a success is a hard delete. */
  function DeleteStep(p: Pass, e: LocationEntity, repo: LocationRepo,
                      writeFault: string -> Option<Message>): Pass
  {
    match DeleteLocation(repo, e.id)
    case Success(_) =>
      (match writeFault(e.id)
       case None => p.(rows := Delete(p.rows, e.id), deleted := p.deleted + 1)
       case Some(m) =>
         p.(failed := p.failed + 1, error := KeepFirst(p.error, "Error deleting: " + Render(m))))
    case Failure(m) =>
      p.(failed := p.failed + 1, error := KeepFirst(p.error, "Failed to delete: " + m.GetOr("Unknown error")))
  }

  function DeleteAll(p: Pass, es: seq<LocationEntity>, repo: LocationRepo,
                     writeFault: string -> Option<Message>): Pass
  {
    if es == [] then p
    else DeleteStep(DeleteAll(p, es[..|es| - 1], repo, writeFault), es[|es| - 1], repo, writeFault)
  }

  function CountDeleteOk(es: seq<LocationEntity>, repo: LocationRepo,
                         writeFault: string -> Option<Message>): (n: nat)
    ensures n <= |es|
  {
    if es == [] then 0
    else CountDeleteOk(es[..|es| - 1], repo, writeFault)
         + (if DeleteOk(es[|es| - 1], repo, writeFault) then 1 else 0)
  }

  predicate SomeDeleteOk(es: seq<LocationEntity>, id: string, repo: LocationRepo,
                         writeFault: string -> Option<Message>)
  {
    es != [] &&
    ((es[|es| - 1].id == id && DeleteOk(es[|es| - 1], repo, writeFault))
     || SomeDeleteOk(es[..|es| - 1], id, repo, writeFault))
  }

  /** The deletion phase removes a row exactly when a snapshot row with its id
      was deleted on the server and locally (a hard delete, not a flag), keeps
      every other row as it was, counts each snapshot row once, and keeps the
      first error. */
  lemma {:induction false} DeleteAllEffect(p: Pass, es: seq<LocationEntity>, repo: LocationRepo,
                                           writeFault: string -> Option<Message>)
    ensures var q := DeleteAll(p, es, repo, writeFault);
      && (forall id :: id in q.rows <==> id in p.rows && !SomeDeleteOk(es, id, repo, writeFault))
      && (forall id :: id in q.rows ==> q.rows[id] == p.rows[id])
      && q.deleted == p.deleted + CountDeleteOk(es, repo, writeFault)
      && q.deleted + q.failed == p.deleted + p.failed + |es|
      && q.uploaded == p.uploaded && q.hasError == p.hasError
      && (p.error.Some? ==> q.error == p.error)
      && (q.error.Some? <==> p.error.Some? || CountDeleteOk(es, repo, writeFault) < |es|)
  {
    if es != [] {
      DeleteAllEffect(p, es[..|es| - 1], repo, writeFault);
    }
  }

  // ---- The three phases and the verdict ----

  /** Phase 1: a failed snapshot read skips the loop and sets the read flag. */
  function UploadPhase(p: Pass, env: SyncEnv, snapshot: seq<LocationEntity>, repo: LocationRepo): Pass {
    match env.unsyncedReadFault
    case Some(m) => p.(hasError := true, error := KeepFirst(p.error, "Error reading locations: " + Render(m)))
    case None => UploadAll(p, snapshot, repo, env.writeFault)
  }

  /** Phase 2. */
  function DeletePhase(p: Pass, env: SyncEnv, snapshot: seq<LocationEntity>, repo: LocationRepo): Pass {
    match env.deletedReadFault
    case Some(m) => p.(hasError := true, error := KeepFirst(p.error, "Error reading deletions: " + Render(m)))
    case None => DeleteAll(p, snapshot, repo, env.writeFault)
  }

  /** Phase 3: a failed cleanup is ignored. */
  function CleanupPhase(t: Table, env: SyncEnv): Table {
    if env.cleanupFault then t else CleanupSyncedDeleted(t)
  }

  /** The result of a pass: failure only when a snapshot read failed and
      nothing was uploaded or deleted; otherwise success, carrying the first
      error only when some row failed. */
  function Verdict(p: Pass): (r: Result<SyncResult>)
    ensures r.Failure? <==> p.hasError && p.uploaded == 0 && p.deleted == 0
    ensures r.Failure? ==> r.message == Some(if p.error.Some? then p.error.value else "Sync failed")
    ensures r.Success? ==>
      r.value.uploadedCount == p.uploaded && r.value.deletedCount == p.deleted && r.value.failedCount == p.failed
    ensures r.Success? ==> (r.value.errorMessage.Some? <==> p.error.Some? && p.failed > 0)
    ensures r.Success? && r.value.errorMessage.Some? ==> r.value.errorMessage == p.error
  {
    if p.hasError && p.uploaded == 0 && p.deleted == 0 then
      Failure(Some(p.error.GetOr("Sync failed")))
    else
      Success(SyncResult(p.uploaded, p.deleted, p.failed,
                         if p.error.Some? && p.failed > 0 then p.error else None))
  }

  /** Only a failed snapshot read sets the flag that can turn a pass into a failure. */
  lemma HasErrorOnlyFromReads(t: Table, env: SyncEnv, ups: seq<LocationEntity>,
                              dels: seq<LocationEntity>, repo: LocationRepo)
    ensures var p1 := UploadPhase(Start(t), env, ups, repo);
            DeletePhase(p1, env, dels, repo).hasError
              == (env.unsyncedReadFault.Some? || env.deletedReadFault.Some?)
  {
    UploadAllEffect(Start(t), ups, repo, env.writeFault);
    var p1 := UploadPhase(Start(t), env, ups, repo);
    DeleteAllEffect(p1, dels, repo, env.writeFault);
  }

  /** The first error of the whole pass is the first error of the upload
      phase whenever that phase recorded one: later errors never replace it. */
  lemma FirstErrorWins(t: Table, env: SyncEnv, ups: seq<LocationEntity>,
                       dels: seq<LocationEntity>, repo: LocationRepo)
    ensures var p1 := UploadPhase(Start(t), env, ups, repo);
            p1.error.Some? ==> DeletePhase(p1, env, dels, repo).error == p1.error
  {
    var p1 := UploadPhase(Start(t), env, ups, repo);
    DeleteAllEffect(p1, dels, repo, env.writeFault);
  }

  // ---- What a pass does to the pending work ----

  /** The rows still waiting to reach the server. */
  function Pending(t: Table): set<LocationEntity> {
    set e | e in t.Values && !e.isSynced
  }

  lemma PendingCount(t: Table)
    ensures UnsyncedCount(t) == |Pending(t)|
  {
  }

  lemma {:induction false} UploadAllShrinksPending(p: Pass, es: seq<LocationEntity>, repo: LocationRepo,
                                                   writeFault: string -> Option<Message>)
    ensures Pending(UploadAll(p, es, repo, writeFault).rows) <= Pending(p.rows)
  {
    if es != [] {
      var q := UploadAll(p, es[..|es| - 1], repo, writeFault);
      UploadAllShrinksPending(p, es[..|es| - 1], repo, writeFault);
      var q' := UploadStep(q, es[|es| - 1], repo, writeFault);
      forall e | e in Pending(q'.rows) ensures e in Pending(q.rows) {
        var k :| k in q'.rows && q'.rows[k] == e;
      }
    }
  }

  lemma {:induction false} DeleteAllShrinksPending(p: Pass, es: seq<LocationEntity>, repo: LocationRepo,
                                                   writeFault: string -> Option<Message>)
    ensures Pending(DeleteAll(p, es, repo, writeFault).rows) <= Pending(p.rows)
  {
    if es != [] {
      var q := DeleteAll(p, es[..|es| - 1], repo, writeFault);
      DeleteAllShrinksPending(p, es[..|es| - 1], repo, writeFault);
      var q' := DeleteStep(q, es[|es| - 1], repo, writeFault);
      forall e | e in Pending(q'.rows) ensures e in Pending(q.rows) {
        var k :| k in q'.rows && q'.rows[k] == e;
      }
    }
  }

  lemma SubsetCard<T>(a: set<T>, b: set<T>)
    requires a <= b
    ensures |a| <= |b|
  {
    assert b == a + (b - a);
  }

  /** Whatever the server and the storage do, a pass never increases the
      number of unsynced rows. */
  lemma PassNeverAddsPending(t: Table, env: SyncEnv, ups: seq<LocationEntity>,
                             dels: seq<LocationEntity>, repo: LocationRepo)
    ensures var p1 := UploadPhase(Start(t), env, ups, repo);
            var p2 := DeletePhase(p1, env, dels, repo);
            UnsyncedCount(CleanupPhase(p2.rows, env)) <= UnsyncedCount(t)
  {
    var p1 := UploadPhase(Start(t), env, ups, repo);
    UploadAllShrinksPending(Start(t), ups, repo, env.writeFault);
    var p2 := DeletePhase(p1, env, dels, repo);
    DeleteAllShrinksPending(p1, dels, repo, env.writeFault);
    var t3 := CleanupPhase(p2.rows, env);
    forall e | e in Pending(t3) ensures e in Pending(p2.rows) {
      var k :| k in t3 && t3[k] == e;
    }
    SubsetCard(Pending(t3), Pending(t));
  }

  /** A pass in which every remote call and every local write succeeds leaves
      only live, synced rows: the live rows of the table before it. It reports
      every snapshot row as uploaded or deleted and no failure. */
  lemma CleanPassDrains(t: Table, env: SyncEnv, ups: seq<LocationEntity>,
                        dels: seq<LocationEntity>, repo: LocationRepo)
    requires Keyed(t)
    requires env.unsyncedReadFault.None? && env.deletedReadFault.None? && !env.cleanupFault
    requires forall id :: env.writeFault(id).None?
    requires IsSelection(t, Unsynced, ups)
    requires forall e :: e in ups ==> AddLocation(repo, ToLocationData(e)).Success?
    requires IsSelection(UploadPhase(Start(t), env, ups, repo).rows, DeletedUnsynced, dels)
    requires forall e :: e in dels ==> DeleteLocation(repo, e.id).Success?
    ensures var p1 := UploadPhase(Start(t), env, ups, repo);
            var p2 := DeletePhase(p1, env, dels, repo);
            var t3 := CleanupPhase(p2.rows, env);
            && t3.Keys == LiveIds(t)
            && (forall id :: id in t3 ==> t3[id].isSynced && !t3[id].isDeleted)
            && Verdict(p2) == Success(SyncResult(|ups|, |dels|, 0, None))
  {
    var wf := env.writeFault;
    AllUploadOk(ups, repo, wf);
    CleanUploadMarksLive(t, ups, repo, wf);
    var p1 := UploadPhase(Start(t), env, ups, repo);
    AllDeleteOk(dels, repo, wf);
    CleanDeleteRemovesTombstones(p1, dels, repo, wf);
  }

  /** A fault-free upload phase over the full snapshot marks every live row
      synced and leaves the tombstones alone. */
  lemma CleanUploadMarksLive(t: Table, ups: seq<LocationEntity>, repo: LocationRepo,
                             writeFault: string -> Option<Message>)
    requires Keyed(t) && IsSelection(t, Unsynced, ups)
    requires forall id :: writeFault(id).None?
    requires CountUploadOk(ups, repo, writeFault) == |ups|
    requires forall e :: e in ups ==> AddLocation(repo, ToLocationData(e)).Success?
    ensures var q := UploadAll(Start(t), ups, repo, writeFault);
            && Keyed(q.rows) && q.rows.Keys == t.Keys
            && (forall id :: id in t ==> q.rows[id] == if t[id].isDeleted then t[id] else t[id].(isSynced := true))
            && q.uploaded == |ups| && q.failed == 0 && q.deleted == 0 && !q.hasError && q.error.None?
  {
    UploadAllEffect(Start(t), ups, repo, writeFault);
    var q := UploadAll(Start(t), ups, repo, writeFault);
    forall id | id in t
      ensures q.rows[id] == if t[id].isDeleted then t[id] else t[id].(isSynced := true)
    {
      if SomeUploadOk(ups, id, repo, writeFault) {
        UploadedIdInSnapshot(ups, id, repo, writeFault);
        var e :| e in ups && e.id == id;
        assert e in t.Values;
      } else if !t[id].isDeleted && !t[id].isSynced {
        assert t[id] in ups;
        MemberUploads(ups, t[id], repo, writeFault);
      }
    }
  }

  /** A fault-free deletion phase over the full snapshot removes every
      unsynced tombstone and keeps every other row. */
  lemma CleanDeleteRemovesTombstones(p: Pass, dels: seq<LocationEntity>, repo: LocationRepo,
                                     writeFault: string -> Option<Message>)
    requires Keyed(p.rows) && IsSelection(p.rows, DeletedUnsynced, dels)
    requires forall id :: writeFault(id).None?
    requires CountDeleteOk(dels, repo, writeFault) == |dels|
    requires forall e :: e in dels ==> DeleteLocation(repo, e.id).Success?
    ensures var q := DeleteAll(p, dels, repo, writeFault);
            && (forall id :: id in q.rows <==> id in p.rows && !(p.rows[id].isDeleted && !p.rows[id].isSynced))
            && (forall id :: id in q.rows ==> q.rows[id] == p.rows[id])
            && q.deleted == p.deleted + |dels| && q.failed == p.failed && q.uploaded == p.uploaded
            && q.hasError == p.hasError && q.error == p.error
  {
    DeleteAllEffect(p, dels, repo, writeFault);
    forall id | id in p.rows
      ensures SomeDeleteOk(dels, id, repo, writeFault) <==> p.rows[id].isDeleted && !p.rows[id].isSynced
    {
      if SomeDeleteOk(dels, id, repo, writeFault) {
        DeletedIdInSnapshot(dels, id, repo, writeFault);
        var e :| e in dels && e.id == id;
        assert e in p.rows.Values;
      } else if p.rows[id].isDeleted && !p.rows[id].isSynced {
        assert p.rows[id] in dels;
        MemberDeletes(dels, p.rows[id], repo, writeFault);
      }
    }
  }

  /** A snapshot row whose id a successful upload names is in the snapshot. */
  lemma {:induction false} UploadedIdInSnapshot(es: seq<LocationEntity>, id: string, repo: LocationRepo,
                                                writeFault: string -> Option<Message>)
    requires SomeUploadOk(es, id, repo, writeFault)
    ensures exists e :: e in es && e.id == id
  {
    if es[|es| - 1].id != id || !UploadOk(es[|es| - 1], repo, writeFault) {
      UploadedIdInSnapshot(es[..|es| - 1], id, repo, writeFault);
      var e :| e in es[..|es| - 1] && e.id == id;
      assert e in es;
    } else {
      assert es[|es| - 1] in es;
    }
  }

  /** A snapshot row whose id a successful delete names was a tombstone of the table. */
  lemma {:induction false} DeletedIdInSnapshot(es: seq<LocationEntity>, id: string, repo: LocationRepo,
                                               writeFault: string -> Option<Message>)
    requires SomeDeleteOk(es, id, repo, writeFault)
    ensures exists e :: e in es && e.id == id
  {
    if es[|es| - 1].id != id || !DeleteOk(es[|es| - 1], repo, writeFault) {
      DeletedIdInSnapshot(es[..|es| - 1], id, repo, writeFault);
      var e :| e in es[..|es| - 1] && e.id == id;
      assert e in es;
    } else {
      assert es[|es| - 1] in es;
    }
  }

  lemma {:induction false} AllUploadOk(es: seq<LocationEntity>, repo: LocationRepo,
                                       writeFault: string -> Option<Message>)
    requires forall e :: e in es ==> UploadOk(e, repo, writeFault)
    ensures CountUploadOk(es, repo, writeFault) == |es|
  {
    if es != [] {
      assert es[|es| - 1] in es;
      assert forall e :: e in es[..|es| - 1] ==> e in es;
      AllUploadOk(es[..|es| - 1], repo, writeFault);
    }
  }

  lemma {:induction false} AllDeleteOk(es: seq<LocationEntity>, repo: LocationRepo,
                                       writeFault: string -> Option<Message>)
    requires forall e :: e in es ==> DeleteOk(e, repo, writeFault)
    ensures CountDeleteOk(es, repo, writeFault) == |es|
  {
    if es != [] {
      assert es[|es| - 1] in es;
      assert forall e :: e in es[..|es| - 1] ==> e in es;
      AllDeleteOk(es[..|es| - 1], repo, writeFault);
    }
  }

  lemma {:induction false} MemberUploads(es: seq<LocationEntity>, e: LocationEntity, repo: LocationRepo,
                                         writeFault: string -> Option<Message>)
    requires e in es && UploadOk(e, repo, writeFault)
    ensures SomeUploadOk(es, e.id, repo, writeFault)
  {
    if es[|es| - 1] != e {
      assert es == es[..|es| - 1] + [es[|es| - 1]];
      MemberUploads(es[..|es| - 1], e, repo, writeFault);
    }
  }

  lemma {:induction false} MemberDeletes(es: seq<LocationEntity>, e: LocationEntity, repo: LocationRepo,
                                         writeFault: string -> Option<Message>)
    requires e in es && DeleteOk(e, repo, writeFault)
    ensures SomeDeleteOk(es, e.id, repo, writeFault)
  {
    if es[|es| - 1] != e {
      assert es == es[..|es| - 1] + [es[|es| - 1]];
      MemberDeletes(es[..|es| - 1], e, repo, writeFault);
    }
  }

  // ---- Downloads ----

  /** The server records a download may insert: those without a local tombstone. */
  function NotTombstoned(t: Table): LocationData -> bool {
    (d: LocationData) => !IsDeleted(t, d.id)
  }

  /** The rows a download inserts: the server records whose ids have no local
      tombstone, each as a synced row stamped `now`. */
  function DownloadBatch(t: Table, remote: seq<LocationData>, now: int): seq<LocationEntity> {
    Map(Filter(remote, NotTombstoned(t)), (d: LocationData) => ToLocationEntity(d, true, now))
  }

  /** What `downloadAllPublicLocations` keeps of the server's listing. */
  function PublicOnly(remote: seq<LocationData>): (r: seq<LocationData>)
    ensures forall d :: d in r <==> d in remote && d.visibility == "public"
  {
    Filter(remote, (d: LocationData) => d.visibility == "public")
  }

  lemma {:induction false} LastWithIdOfBatch(t: Table, remote: seq<LocationData>, now: int, id: string)
    ensures LastWithId(DownloadBatch(t, remote, now), id).Some? ==>
      exists d :: d in remote && d.id == id && !IsDeleted(t, id)
             && LastWithId(DownloadBatch(t, remote, now), id).value == ToLocationEntity(d, true, now)
    ensures (exists d :: d in remote && d.id == id) && !IsDeleted(t, id) ==>
      LastWithId(DownloadBatch(t, remote, now), id).Some?
  {
    var b := DownloadBatch(t, remote, now);
    var kept := Filter(remote, NotTombstoned(t));
    LastWithIdIn(b, id);
    if LastWithId(b, id).Some? {
      var i :| 0 <= i < |b| && b[i] == LastWithId(b, id).value;
      assert kept[i] in kept;
    }
    if (exists d :: d in remote && d.id == id) && !IsDeleted(t, id) {
      var d :| d in remote && d.id == id;
      assert d in kept;
      var i :| 0 <= i < |kept| && kept[i] == d;
      assert b[i].id == id;
      LastWithIdSome(b, i, id);
    }
  }

  lemma {:induction false} LastWithIdIn(es: seq<LocationEntity>, id: string)
    ensures LastWithId(es, id).Some? ==>
      LastWithId(es, id).value.id == id && exists i :: 0 <= i < |es| && es[i] == LastWithId(es, id).value
  {
    if es != [] && es[|es| - 1].id != id {
      LastWithIdIn(es[..|es| - 1], id);
      if LastWithId(es, id).Some? {
        var i :| 0 <= i < |es| - 1 && es[..|es| - 1][i] == LastWithId(es, id).value;
        assert es[i] == LastWithId(es, id).value;
      }
    }
  }

  lemma {:induction false} LastWithIdSome(es: seq<LocationEntity>, i: int, id: string)
    requires 0 <= i < |es| && es[i].id == id
    ensures LastWithId(es, id).Some?
  {
    if es[|es| - 1].id != id {
      LastWithIdSome(es[..|es| - 1], i, id);
    }
  }

  /** A download never touches a tombstoned id. */
  lemma DownloadKeepsTombstones(t: Table, remote: seq<LocationData>, now: int, id: string)
    requires IsDeleted(t, id)
    ensures id in InsertAll(t, DownloadBatch(t, remote, now))
    ensures InsertAll(t, DownloadBatch(t, remote, now))[id] == t[id]
  {
    LastWithIdOfBatch(t, remote, now, id);
    InsertAllAt(t, DownloadBatch(t, remote, now), id);
  }

  /** A download overwrites a local row that has not been uploaded yet: the
      row for that id becomes a synced copy of a server record with the same
      id, and the local edit is gone. */
  lemma DownloadOverwritesUnsynced(t: Table, remote: seq<LocationData>, now: int, id: string)
    requires id in t && !t[id].isSynced && !t[id].isDeleted
    requires exists d :: d in remote && d.id == id
    ensures var t' := InsertAll(t, DownloadBatch(t, remote, now));
            id in t' && t'[id].isSynced
            && exists d :: d in remote && d.id == id && t'[id] == ToLocationEntity(d, true, now)
  {
    LastWithIdOfBatch(t, remote, now, id);
    InsertAllAt(t, DownloadBatch(t, remote, now), id);
  }

  /** Ids the server does not list keep their local rows. */
  lemma DownloadKeepsUnlisted(t: Table, remote: seq<LocationData>, now: int, id: string)
    requires id in t && forall d :: d in remote ==> d.id != id
    ensures var t' := InsertAll(t, DownloadBatch(t, remote, now));
            id in t' && t'[id] == t[id]
  {
    LastWithIdOfBatch(t, remote, now, id);
    InsertAllAt(t, DownloadBatch(t, remote, now), id);
  }

  /** The server stores an uploaded location under an id of its own, while
      the pass marks the local id synced. A later download of any listing
      holding the server's record (once per id, as Firestore lists
      documents) then inserts that copy beside the local row: the table
      holds the same location twice, under two live ids. */
  lemma UploadedRowReturnsUnderServerId(t: Table, e: LocationEntity, server: LocationData,
                                        remote: seq<LocationData>, now: int)
    requires Keyed(t) && e.id in t && t[e.id] == e && !e.isDeleted
    requires server.id != e.id && server.id !in t
    requires server == ToLocationData(e).(id := server.id)
    requires server in remote
    requires forall d :: d in remote && d.id == server.id ==> d == server
    requires forall d :: d in remote ==> d.id != e.id
    ensures var t' := InsertAll(MarkSynced(t, e.id), DownloadBatch(MarkSynced(t, e.id), remote, now));
            e.id in t' && server.id in t'
            && !t'[e.id].isDeleted && !t'[server.id].isDeleted
            && ToLocationData(t'[e.id]).(id := "") == ToLocationData(t'[server.id]).(id := "")
  {
    var t1 := MarkSynced(t, e.id);
    DownloadKeepsUnlisted(t1, remote, now, e.id);
    LastWithIdOfBatch(t1, remote, now, server.id);
    InsertAllAt(t1, DownloadBatch(t1, remote, now), server.id);
  }

  /** What one `syncAll` does: from table `t`, with the snapshot lists `ups`
      and `dels` the DAO returned, it leaves table `t'` and answers `r`. Offline
      or signed out it fails at once and changes nothing. */
  ghost predicate SyncedBy(t: Table, env: SyncEnv, repo: LocationRepo, ups: seq<LocationEntity>,
                           dels: seq<LocationEntity>, t': Table, r: Result<SyncResult>) {
    && (!env.online ==> r == Failure(Some(NoInternet)) && t' == t)
    && (env.online && !env.signedIn ==> r == Failure(Some(NotLoggedIn)) && t' == t)
    && (env.online && env.signedIn ==>
        && (env.unsyncedReadFault.None? ==> IsSelection(t, Unsynced, ups))
        && var p1 := UploadPhase(Start(t), env, ups, repo);
           && (env.deletedReadFault.None? ==> IsSelection(p1.rows, DeletedUnsynced, dels))
           && var p2 := DeletePhase(p1, env, dels, repo);
              t' == CleanupPhase(p2.rows, env) && r == Verdict(p2))
  }

  class SyncManager {
    const dao: LocationDao
    const repo: LocationRepo

    constructor (dao: LocationDao, repo: LocationRepo)
      ensures this.dao == dao && this.repo == repo
    {
      this.dao := dao;
      this.repo := repo;
    }

    /** `syncAll`. The ghost results are the two snapshots the DAO returned
        (empty when the pass stopped before reading them). */
    method SyncAll(env: SyncEnv)
      returns (r: Result<SyncResult>, ghost ups: seq<LocationEntity>, ghost dels: seq<LocationEntity>)
      requires dao.Valid()
      modifies dao
      ensures dao.Valid()
      ensures SyncedBy(old(dao.rows), env, repo, ups, dels, dao.rows, r)
    {
      ups, dels := [], [];
      if !env.online {
        r := Failure(Some(NoInternet));
        return;
      }
      if !env.signedIn {
        r := Failure(Some(NotLoggedIn));
        return;
      }
      ghost var t0 := dao.rows;
      var uploaded, deleted, failed := 0, 0, 0;
      var hasError := false;
      var errorMessage: Option<string> := None;

      // 1. Upload unsynced locations.
      if env.unsyncedReadFault.Some? {
        hasError := true;
        if errorMessage.None? {
          errorMessage := Some("Error reading locations: " + Render(env.unsyncedReadFault.value));
        }
      } else {
        var unsynced := dao.GetUnsyncedLocations();
        ups := unsynced;
        for i := 0 to |unsynced|
          invariant dao.Valid()
          invariant Pass(dao.rows, uploaded, deleted, failed, errorMessage, hasError)
                 == UploadAll(Start(t0), unsynced[..i], repo, env.writeFault)
        {
          assert unsynced[..i + 1][..i] == unsynced[..i];
          var e := unsynced[i];
          var result := AddLocation(repo, ToLocationData(e));
          if result.Success? {
            var fault := env.writeFault(e.id);
            if fault.None? {
              dao.MarkAsSynced(e.id);
              uploaded := uploaded + 1;
            } else {
              failed := failed + 1;
              if errorMessage.None? {
                errorMessage := Some("Error uploading: " + Render(fault.value));
              }
            }
          } else {
            failed := failed + 1;
            if errorMessage.None? {
              errorMessage := Some("Failed to upload: " + result.message.GetOr("Unknown error"));
            }
          }
        }
        assert unsynced[..|unsynced|] == unsynced;
      }
      ghost var t1 := dao.rows;
      ghost var p1 := Pass(dao.rows, uploaded, deleted, failed, errorMessage, hasError);
      assert p1 == UploadPhase(Start(t0), env, ups, repo);

      // 2. Process deleted locations.
      if env.deletedReadFault.Some? {
        hasError := true;
        if errorMessage.None? {
          errorMessage := Some("Error reading deletions: " + Render(env.deletedReadFault.value));
        }
      } else {
        var deletedRows := dao.GetDeletedUnsyncedLocations();
        dels := deletedRows;
        for i := 0 to |deletedRows|
          invariant dao.Valid()
          invariant Pass(dao.rows, uploaded, deleted, failed, errorMessage, hasError)
                 == DeleteAll(p1, deletedRows[..i], repo, env.writeFault)
        {
          assert deletedRows[..i + 1][..i] == deletedRows[..i];
          var e := deletedRows[i];
          var result := DeleteLocation(repo, e.id);
          if result.Success? {
            var fault := env.writeFault(e.id);
            if fault.None? {
              dao.DeleteLocation(e.id);
              deleted := deleted + 1;
            } else {
              failed := failed + 1;
              if errorMessage.None? {
                errorMessage := Some("Error deleting: " + Render(fault.value));
              }
            }
          } else {
            failed := failed + 1;
            if errorMessage.None? {
              errorMessage := Some("Failed to delete: " + result.message.GetOr("Unknown error"));
            }
          }
        }
        assert deletedRows[..|deletedRows|] == deletedRows;
      }
      ghost var p2 := Pass(dao.rows, uploaded, deleted, failed, errorMessage, hasError);
      assert p2 == DeletePhase(p1, env, dels, repo);

      // 3. Cleanup synced deleted locations; a failure here is ignored.
      if !env.cleanupFault {
        dao.CleanupSyncedDeletedLocations();
      }

      if hasError && uploaded == 0 && deleted == 0 {
        r := Failure(Some(if errorMessage.Some? then errorMessage.value else "Sync failed"));
      } else {
        var attached := if errorMessage.Some? && failed > 0 then errorMessage else None;
        r := Success(SyncResult(uploaded, deleted, failed, attached));
      }
    }

    /** `downloadLocations`: inserts the caller's server locations, except
        locally tombstoned ids, as synced rows; answers how many it inserted. */
    method DownloadLocations(online: bool, userId: string, now: int) returns (r: Result<int>)
      requires dao.Valid()
      modifies dao
      ensures dao.Valid()
      ensures !online ==> r == Failure(Some(NoInternet)) && dao.rows == old(dao.rows)
      ensures online && GetUserLocations(repo, userId).Failure? ==>
        r == Failure(GetUserLocations(repo, userId).message) && dao.rows == old(dao.rows)
      ensures online && GetUserLocations(repo, userId).Success? ==>
        var batch := DownloadBatch(old(dao.rows), GetUserLocations(repo, userId).value, now);
        dao.rows == InsertAll(old(dao.rows), batch) && r == Success(|batch|)
    {
      if !online {
        return Failure(Some(NoInternet));
      }
      var result := GetUserLocations(repo, userId);
      if result.Success? {
        var entities := DownloadBatch(dao.rows, result.value, now);
        dao.InsertLocations(entities);
        r := Success(|entities|);
      } else {
        r := Failure(result.message);
      }
    }

    /** `downloadAllPublicLocations`: the same over the public part of the
        server's whole listing. */
    method DownloadAllPublicLocations(online: bool, now: int) returns (r: Result<int>)
      requires dao.Valid()
      modifies dao
      ensures dao.Valid()
      ensures !online ==> r == Failure(Some(NoInternet)) && dao.rows == old(dao.rows)
      ensures online && GetAllLocations(repo).Failure? ==>
        r == Failure(GetAllLocations(repo).message) && dao.rows == old(dao.rows)
      ensures online && GetAllLocations(repo).Success? ==>
        var batch := DownloadBatch(old(dao.rows), PublicOnly(GetAllLocations(repo).value), now);
        dao.rows == InsertAll(old(dao.rows), batch) && r == Success(|batch|)
    {
      if !online {
        return Failure(Some(NoInternet));
      }
      var result := GetAllLocations(repo);
      if result.Success? {
        var entities := DownloadBatch(dao.rows, PublicOnly(result.value), now);
        dao.InsertLocations(entities);
        r := Success(|entities|);
      } else {
        r := Failure(result.message);
      }
    }

    /** `getUnsyncedCount`. */
    function GetUnsyncedCount(): (n: nat)
      reads this, dao
      ensures n == |Selected(dao.rows, Unsynced)| + |Selected(dao.rows, DeletedUnsynced)|
    {
      UnsyncedCountSplit(dao.rows);
      dao.GetUnsyncedCount()
    }
  }
}
