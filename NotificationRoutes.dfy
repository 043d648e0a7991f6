/** The `/api/notifications` router: the list limit, creation defaults and
    validation, the ownership check by the caller's recent notifications,
    the bulk operations, and the order the routes are registered in. */
module NotificationRoutes {
  import opened Wrappers
  import opened Text
  import opened Js
  import opened Firestore
  import opened Express

  datatype Handler = List | CreateOne | UpdateOne | MarkAllRead | DeleteOne | DeleteAll

  /** The routes in the order the router registers them: the per-id PUT
      comes before `/mark-all-read`. */
  const AsWrittenRoutes: seq<Route<Handler>> := [
    Route(GET, [], List),
    Route(POST, [], CreateOne),
    Route(PUT, [Param], UpdateOne),
    Route(PUT, [Lit(MarkAllReadPath)], MarkAllRead),
    Route(DELETE, [Param], DeleteOne),
    Route(DELETE, [], DeleteAll)
  ]

  /** The same routes with `/mark-all-read` registered before `/:id`. */
  const Routes: seq<Route<Handler>> := [
    Route(GET, [], List),
    Route(POST, [], CreateOne),
    Route(PUT, [Lit(MarkAllReadPath)], MarkAllRead),
    Route(PUT, [Param], UpdateOne),
    Route(DELETE, [Param], DeleteOne),
    Route(DELETE, [], DeleteAll)
  ]

  const MarkAllReadPath := "mark-all-read"
  const DefaultLimit := 50
  /** How many of the caller's notifications the ownership check looks at. */
  const OwnershipWindow := 1000
  const NotFound := "Notification not found"
  const MissingFields := "Missing required fields: title, message"
  const Deleted := "Notification deleted successfully"

  /** What the store answers that the model does not derive from the
      collection: the caller's notifications newest first, the id a new
      document gets, and the clock. */
  datatype Store = Store(recent: seq<Doc>, newId: string, now: int)

  datatype Outcome = Outcome(response: Response, db: Collection)

  // ---- GET / ----

  /** `parseInt(req.query.limit) || 50`. */
  function LimitOf(query: map<string, string>): (n: int)
    ensures n != 0
    ensures "limit" !in query ==> n == DefaultLimit
  {
    var parsed := if "limit" in query then ParseIntValue(query["limit"]) else NaN;
    var limit := Or(parsed, Num(DefaultLimit as real));
    if limit.Num? && limit.n == limit.n.Floor as real && limit.n != 0.0 then limit.n.Floor else DefaultLimit
  }

  /** A positive limit written in decimal is the limit used. */
  lemma LimitRoundTrip(n: nat)
    requires n > 0
    ensures LimitOf(map["limit" := NatToString(n)]) == n
  {
    ParseIntOfNatToString(n);
  }

  /** `parseInt` honours a `0x` prefix, so `?limit=0x10` lists sixteen. */
  lemma HexLimit(v: string)
    requires HasHexPrefix(v) && |v| > 2 && forall i :: 2 <= i < |v| ==> IsHexDigit(v[i])
    requires HexValue(v[2..]) > 0
    ensures LimitOf(map["limit" := v]) == HexValue(v[2..])
  {
    var n := HexValue(v[2..]);
    assert ParseIntValue(v) == Num(n as real) by { ParseIntHex(v); }
    assert Or(Num(n as real), Num(DefaultLimit as real)) == Num(n as real);
    assert (n as real).Floor == n;
  }

  /** A limit of 0 or one that does not parse gives the default. */
  lemma LimitDefaults(query: map<string, string>)
    requires "limit" in query
    requires ParseInt(query["limit"]) == None || ParseInt(query["limit"]) == Some(0)
    ensures LimitOf(query) == DefaultLimit
  {
  }

  /** The first `limit` of the caller's notifications; the store refuses a
      negative limit, which `next(error)` reports. */
  function ListNotifications(recent: seq<Doc>, limit: int): (r: Response)
    ensures limit < 0 <==> r.Forwarded?
    ensures limit >= 0 ==> r == Json(200, "notifications", Objects(recent[..if limit < |recent| then limit else |recent|]))
  {
    if limit < 0 then Forwarded
    else Json(200, "notifications", Objects(recent[..if limit < |recent| then limit else |recent|]))
  }

  // ---- POST / ----

  /** `{ ...req.body, userId, timestamp: req.body.timestamp || Date.now(),
      isRead: req.body.isRead || false }`. */
  function NotificationData(body: Doc, userId: string, now: int): Doc {
    body["userId" := Str(userId)]
        ["timestamp" := Or(Get(body, "timestamp"), Num(now as real))]
        ["isRead" := Or(Get(body, "isRead"), Bool(false))]
  }

  predicate HasRequiredFields(d: Doc) {
    Truthy(Get(d, "title")) && Truthy(Get(d, "message"))
  }

  function CreateNotificationRoute(db: Collection, userId: string, body: Doc, newId: string, now: int): (o: Outcome)
    ensures !HasRequiredFields(body) ==> o == Outcome(ErrorReply(MissingFields, 400), db)
    ensures HasRequiredFields(body) ==> o.response.Reply? && o.response.status == 201
    ensures HasRequiredFields(body) ==> o.db.Keys == db.Keys + {newId}
    ensures forall k :: k in db && k != newId ==> k in o.db && o.db[k] == db[k]
  {
    var data := NotificationData(body, userId, now);
    assert Get(data, "title") == Get(body, "title") && Get(data, "message") == Get(body, "message");
    if !HasRequiredFields(data) then Outcome(ErrorReply(MissingFields, 400), db)
    else
      var notification := CreateNotification(data, newId, now);
      Outcome(Json(201, "notification", Obj(notification)), db[newId := notification])
  }

  /** A created notification belongs to the caller, carries its new id, is
      unread unless the body says otherwise, dates from the body or from now,
      and keeps every other field of the body. */
  lemma CreatedNotificationFields(db: Collection, userId: string, body: Doc, newId: string, now: int)
    requires HasRequiredFields(body)
    ensures var o := CreateNotificationRoute(db, userId, body, newId, now);
      && newId in o.db
      && o.db[newId]["userId"] == Str(userId)
      && o.db[newId]["id"] == Str(newId)
      && o.db[newId]["isRead"] == Or(Get(body, "isRead"), Bool(false))
      && o.db[newId]["timestamp"] == Or(Get(body, "timestamp"), Num(now as real))
      && (forall k :: k in body && k !in {"id", "userId", "timestamp", "isRead"} ==> o.db[newId][k] == body[k])
  {
    var data := NotificationData(body, userId, now);
    assert Get(data, "isRead") == Or(Get(body, "isRead"), Bool(false));
    assert Get(data, "timestamp") == Or(Get(body, "timestamp"), Num(now as real));
  }

  // ---- PUT /:id and DELETE /:id ----

  /** `notifications.find(n => n.id === id)` over the caller's first 1000. */
  predicate AmongRecent(recent: seq<Doc>, id: string) {
    exists i :: 0 <= i < |recent| && i < OwnershipWindow && DocId(recent[i]) == Str(id)
  }

  /** Firestore's `update` throws for a missing document and for an update
      map it refuses (an empty one, as a body of `{}` or only `userId`
      leaves); the error goes to `next`. */
  function UpdateNotificationRoute(db: Collection, recent: seq<Doc>, id: string, body: Doc): (o: Outcome)
    ensures !AmongRecent(recent, id) ==> o == Outcome(ErrorReply(NotFound, 404), db)
    ensures AmongRecent(recent, id) && (id !in db || !ValidUpdate(UpdateData(body))) ==> o == Outcome(Forwarded, db)
    ensures AmongRecent(recent, id) && id in db && ValidUpdate(UpdateData(body)) ==>
      o.response.Reply? && o.response.status == 200 && o.db == UpdateDocument(db, id, UpdateData(body)).value
    ensures o.db.Keys == db.Keys
  {
    if !AmongRecent(recent, id) then Outcome(ErrorReply(NotFound, 404), db)
    else match UpdateDocument(db, id, UpdateData(body))
      case None => Outcome(Forwarded, db)
      case Some(db') => Outcome(Json(200, "notification", Obj(View(id, db'[id]))), db')
  }

  /** An update touches only the notification it names and never hands a
      notification to another user: whoever owns one afterwards owned it
      before. The owner is kept unless a key of the body is a field path
      into `userId`; a plain key the update accepts lands as its field. */
  lemma UpdateKeepsOwners(db: Collection, recent: seq<Doc>, id: string, body: Doc)
    ensures var o := UpdateNotificationRoute(db, recent, id, body);
      && (forall k :: k in db && k != id ==> o.db[k] == db[k])
      && (forall k, u :: k in db && OwnedBy(u, o.db[k]) ==> OwnedBy(u, db[k]))
      && ((forall f :: f in body && f != "userId" ==> Segments(f)[0] != "userId") ==>
            forall k :: k in db ==> Get(o.db[k], "userId") == Get(db[k], "userId"))
      && (o.response.Reply? && o.response.status == 200 ==>
            forall f :: f in body && f != "userId" && '.' !in f ==> o.db[id][f] == body[f])
  {
    if AmongRecent(recent, id) && id in db && ValidUpdate(UpdateData(body)) {
      OwnerFieldAfterUpdate(db, id, UpdateData(body));
    }
  }

  /** A body of `{}`, or one naming only `userId`, leaves nothing to update,
      so a request for one of the caller's notifications reaches the error handler. */
  lemma EmptyUpdateForwarded(db: Collection, recent: seq<Doc>, id: string, body: Doc)
    requires AmongRecent(recent, id)
    requires body.Keys <= {"userId"}
    ensures UpdateNotificationRoute(db, recent, id, body) == Outcome(Forwarded, db)
  {
    assert UpdateData(body) == map[];
  }

  /** Firestore's `delete` of a missing document succeeds. */
  function DeleteNotificationRoute(db: Collection, recent: seq<Doc>, id: string): (o: Outcome)
    ensures !AmongRecent(recent, id) ==> o == Outcome(ErrorReply(NotFound, 404), db)
    ensures AmongRecent(recent, id) ==> o == Outcome(Json(200, "message", Str(Deleted)), DeleteDocument(db, id))
  {
    if !AmongRecent(recent, id) then Outcome(ErrorReply(NotFound, 404), db)
    else Outcome(Json(200, "message", Str(Deleted)), DeleteDocument(db, id))
  }

  /** A notification outside the caller's recent list is never changed by a
      per-id request. */
  lemma OnlyRecentWritten(db: Collection, recent: seq<Doc>, id: string, body: Doc)
    requires !AmongRecent(recent, id)
    ensures UpdateNotificationRoute(db, recent, id, body).db == db
    ensures DeleteNotificationRoute(db, recent, id).db == db
  {
  }

  /** What `getUserNotifications(userId, 1000)` can answer: views of
      documents the caller owns (their order and number are the store's). */
  ghost predicate ViewsOfOwn(db: Collection, userId: string, recent: seq<Doc>) {
    forall i :: 0 <= i < |recent| ==> exists k :: k in db && OwnedBy(userId, db[k]) && recent[i] == View(k, db[k])
  }

  /** A single view of one of the caller's documents is such an answer. */
  lemma ViewsOfOwnOne(db: Collection, userId: string, k: string)
    requires k in db && OwnedBy(userId, db[k])
    ensures ViewsOfOwn(db, userId, [View(k, db[k])])
  {
    var recent := [View(k, db[k])];
    assert forall i :: 0 <= i < |recent| ==> recent[i] == View(k, db[k]);
  }

  /** A plain, non-empty field name is a valid one-segment field path. */
  lemma PlainFieldPath(f: string)
    requires f != [] && forall i :: 0 <= i < |f| ==> f[i] !in "*~/[]."
    ensures '.' !in f && ValidFieldPath(f) && Segments(f) == [f]
  {
    forall i | 0 <= i < |f| ensures f[i] != '.' && f[i] !in "*~/[]" {
      assert f[i] !in "*~/[].";
    }
    PlainKeySegments(f);
  }

  /** A PUT naming one of the caller's notifications with a body of one
      plain field other than `userId` sets that field and nothing else. */
  lemma PlainFieldPut(db: Collection, recent: seq<Doc>, id: string, f: string, v: JsValue)
    requires AmongRecent(recent, id) && id in db
    requires f != [] && f != "userId" && forall i :: 0 <= i < |f| ==> f[i] !in "*~/[]."
    ensures var put := UpdateNotificationRoute(db, recent, id, map[f := v]);
      && put.response.Reply? && put.response.status == 200
      && put.db == db[id := db[id][f := v]]
  {
    var body := map[f := v];
    PlainFieldPath(f);
    assert UpdateData(body) == body by {
      assert UpdateData(body).Keys == body.Keys;
    }
    UpdatePlainField(db, id, f, v);
  }

  /** Writing `id` into a notification's data changes the id its view shows
      and not its owner. */
  lemma IdRewrite(d: Doc, k: string, userId: string, x: string)
    ensures DocId(View(k, d["id" := Str(x)])) == Str(x)
    ensures OwnedBy(userId, d["id" := Str(x)]) <==> OwnedBy(userId, d)
  {
    assert Get(d["id" := Str(x)], "userId") == Get(d, "userId");
  }

  /** As written, ownership is checked on the views' `id`, which a stored
      `id` field overrides, and PUT strips only `userId`. So a caller first
      writes the victim's document id into one of their own notifications;
      their own list then names the victim's notification, and DELETE removes
      it. */
  lemma ForeignNotificationDeletedAsWritten(db: Collection, attacker: string, mine: string, victim: string)
    requires mine in db && victim in db && mine != victim
    requires OwnedBy(attacker, db[mine]) && !OwnedBy(attacker, db[victim])
    requires Get(db[mine], "id") == Str(mine)
    ensures ViewsOfOwn(db, attacker, [View(mine, db[mine])])
    ensures var put := UpdateNotificationRoute(db, [View(mine, db[mine])], mine, map["id" := Str(victim)]);
      && put.response.Reply? && put.response.status == 200
      && ViewsOfOwn(put.db, attacker, [View(mine, put.db[mine])])
      && var del := DeleteNotificationRoute(put.db, [View(mine, put.db[mine])], victim);
         del.response.Reply? && del.response.status == 200 && victim in db && victim !in del.db
  {
    var before := [View(mine, db[mine])];
    assert DocId(before[0]) == Str(mine);
    PlainFieldPath("id");
    PlainFieldPut(db, before, mine, "id", Str(victim));
    ViewsOfOwnOne(db, attacker, mine);
    var db' := db[mine := db[mine]["id" := Str(victim)]];
    IdRewrite(db[mine], mine, attacker, victim);
    var after := [View(mine, db'[mine])];
    assert DocId(after[0]) == Str(victim);
    ViewsOfOwnOne(db', attacker, mine);
  }

  /** The check the routes evidently intend: `find` compares the ids of the
      caller's documents, not a field of their data. */
  predicate AmongRecentIds(ids: seq<string>, id: string) {
    exists i :: 0 <= i < |ids| && i < OwnershipWindow && ids[i] == id
  }

  /** The document ids of the caller's notifications. */
  predicate OwnIds(db: Collection, userId: string, ids: seq<string>) {
    forall i :: 0 <= i < |ids| ==> ids[i] in db && OwnedBy(userId, db[ids[i]])
  }

  /** PUT `/:id` with the ownership check on document ids. */
  function UpdateOwnNotificationRoute(db: Collection, ids: seq<string>, id: string, body: Doc): (o: Outcome)
    ensures !AmongRecentIds(ids, id) ==> o == Outcome(ErrorReply(NotFound, 404), db)
    ensures AmongRecentIds(ids, id) && (id !in db || !ValidUpdate(UpdateData(body))) ==> o == Outcome(Forwarded, db)
    ensures AmongRecentIds(ids, id) && id in db && ValidUpdate(UpdateData(body)) ==>
      o.response.Reply? && o.response.status == 200 && o.db == UpdateDocument(db, id, UpdateData(body)).value
  {
    if !AmongRecentIds(ids, id) then Outcome(ErrorReply(NotFound, 404), db)
    else match UpdateDocument(db, id, UpdateData(body))
      case None => Outcome(Forwarded, db)
      case Some(db') => Outcome(Json(200, "notification", Obj(View(id, db'[id]))), db')
  }

  /** DELETE `/:id` with the ownership check on document ids. */
  function DeleteOwnNotificationRoute(db: Collection, ids: seq<string>, id: string): (o: Outcome)
    ensures !AmongRecentIds(ids, id) ==> o == Outcome(ErrorReply(NotFound, 404), db)
    ensures AmongRecentIds(ids, id) ==> o == Outcome(Json(200, "message", Str(Deleted)), DeleteDocument(db, id))
  {
    if !AmongRecentIds(ids, id) then Outcome(ErrorReply(NotFound, 404), db)
    else Outcome(Json(200, "message", Str(Deleted)), DeleteDocument(db, id))
  }

  /** With the check on document ids, a per-id request never changes or
      removes a notification the caller does not own, whatever its body. */
  lemma CorrectedWritesOnlyOwn(db: Collection, userId: string, ids: seq<string>, id: string, body: Doc)
    requires OwnIds(db, userId, ids)
    ensures var o := UpdateOwnNotificationRoute(db, ids, id, body);
      forall k :: k in db && !OwnedBy(userId, db[k]) ==> k in o.db && o.db[k] == db[k]
    ensures var o := DeleteOwnNotificationRoute(db, ids, id);
      forall k :: k in db && !OwnedBy(userId, db[k]) ==> k in o.db && o.db[k] == db[k]
  {
    if AmongRecentIds(ids, id) {
      var i :| 0 <= i < |ids| && i < OwnershipWindow && ids[i] == id;
      assert id in db && OwnedBy(userId, db[id]);
    }
  }

  // ---- PUT /mark-all-read and DELETE / ----

  function MarkAllReadRoute(db: Collection, userId: string): (o: Outcome)
    ensures o.db == MarkAllNotificationsAsRead(db, userId).0
    ensures o.response == Reply(200, Obj(map[
      "message" := Str("Marked " + NatToString(|UnreadIds(db, userId)|) + " notifications as read"),
      "count" := Num(|UnreadIds(db, userId)| as real)]))
  {
    var (db', count) := MarkAllNotificationsAsRead(db, userId);
    Outcome(Reply(200, Obj(map[
      "message" := Str("Marked " + NatToString(count) + " notifications as read"),
      "count" := Num(count as real)])), db')
  }

  function DeleteAllRoute(db: Collection, userId: string): (o: Outcome)
    ensures o.db == DeleteAllUserNotifications(db, userId).0
    ensures o.response == Reply(200, Obj(map[
      "message" := Str("Deleted " + NatToString(|OwnedIds(db, userId)|) + " notifications"),
      "count" := Num(|OwnedIds(db, userId)| as real)]))
  {
    var (db', count) := DeleteAllUserNotifications(db, userId);
    Outcome(Reply(200, Obj(map[
      "message" := Str("Deleted " + NatToString(count) + " notifications"),
      "count" := Num(count as real)])), db')
  }

  /** The count a bulk reply reports is the number its message spells out. */
  lemma BulkCountInMessage(db: Collection, userId: string)
    ensures var count := |UnreadIds(db, userId)|;
      ParseInt(NatToString(count)) == Some(count)
      && MarkAllReadRoute(db, userId).response.body.fields["count"] == Num(count as real)
  {
    ParseIntOfNatToString(|UnreadIds(db, userId)|);
  }

  // ---- The router ----

  function Handle(h: Handler, db: Collection, req: Request, store: Store): Outcome {
    var id := if |req.path| == 1 then req.path[0] else "";
    match h
    case List => Outcome(ListNotifications(store.recent, LimitOf(req.query)), db)
    case CreateOne => CreateNotificationRoute(db, req.userId, req.body, store.newId, store.now)
    case UpdateOne => UpdateNotificationRoute(db, store.recent, id, req.body)
    case MarkAllRead => MarkAllReadRoute(db, req.userId)
    case DeleteOne => DeleteNotificationRoute(db, store.recent, id)
    case DeleteAll => DeleteAllRoute(db, req.userId)
  }

  /** The first matching route of `routes` handles the request; `None` when
      none matches. */
  function Serve(routes: seq<Route<Handler>>, db: Collection, req: Request, store: Store): Option<Outcome> {
    match Dispatch(routes, req.verb, req.path)
    case None => None
    case Some(i) => Some(Handle(routes[i].handler, db, req, store))
  }

  /** A single segment that lower-cases to `mark-all-read`, the path the
      bulk route is registered under. */
  predicate IsMarkAllRead(path: seq<string>) {
    |path| == 1 && Lower(path[0]) == MarkAllReadPath
  }

  lemma MarkAllReadLiteral(path: seq<string>)
    requires |path| == 1
    ensures SegmentMatches(Lit(MarkAllReadPath), path[0]) <==> IsMarkAllRead(path)
  {
    LitMatches(MarkAllReadPath, path[0]);
  }

  /** As registered, `PUT /mark-all-read` is taken by `PUT /:id`, and the
      mark-all-read handler is reached by no request at all. */
  lemma MarkAllReadShadowed(path: seq<string>)
    ensures IsMarkAllRead(path) ==> Dispatch(AsWrittenRoutes, PUT, path) == Some(2)
    ensures Dispatch(AsWrittenRoutes, PUT, path) != Some(3)
  {
    if IsMarkAllRead(path) {
      assert path[0] != [] by { assert |Lower(path[0])| == |MarkAllReadPath|; }
      assert RouteMatches(AsWrittenRoutes[2], PUT, path);
    }
    if RouteMatches(AsWrittenRoutes[3], PUT, path) {
      MarkAllReadLiteral(path);
      assert path[0] != [] by { assert |Lower(path[0])| == |MarkAllReadPath|; }
      assert RouteMatches(AsWrittenRoutes[2], PUT, path);
    }
  }

  /** So, as registered, a request to mark everything read looks for a
      notification whose id is the path segment, answers 404 and marks nothing. */
  lemma MarkAllReadAsWritten(db: Collection, req: Request, store: Store)
    requires req.verb == PUT && IsMarkAllRead(req.path)
    requires !AmongRecent(store.recent, req.path[0])
    ensures Serve(AsWrittenRoutes, db, req, store) == Some(Outcome(ErrorReply(NotFound, 404), db))
  {
    MarkAllReadShadowed(req.path);
  }

  /** With `/mark-all-read` registered first, it reaches its handler in any
      mix of case, and every other id still reaches the per-id handler. */
  lemma MarkAllReadReachable(db: Collection, req: Request, store: Store)
    requires req.verb == PUT
    ensures IsMarkAllRead(req.path) ==>
      Serve(Routes, db, req, store) == Some(MarkAllReadRoute(db, req.userId))
    ensures |req.path| == 1 && req.path[0] != [] && !IsMarkAllRead(req.path) ==>
      Serve(Routes, db, req, store) == Some(UpdateNotificationRoute(db, store.recent, req.path[0], req.body))
  {
    if |req.path| == 1 {
      MarkAllReadLiteral(req.path);
      assert Dispatch(Routes, PUT, req.path) == if IsMarkAllRead(req.path) then Some(2)
        else if req.path[0] != [] then Some(3) else None by {
        assert !RouteMatches(Routes[0], PUT, req.path) && !RouteMatches(Routes[1], PUT, req.path);
        assert IsMarkAllRead(req.path) ==> RouteMatches(Routes[2], PUT, req.path);
        assert req.path[0] != [] && !IsMarkAllRead(req.path) ==> RouteMatches(Routes[3], PUT, req.path);
      }
    }
  }

  /** With either order, every other request reaches the same handler. */
  lemma OrdersAgreeElsewhere(verb: Verb, path: seq<string>)
    requires !(verb == PUT && IsMarkAllRead(path))
    ensures match (Dispatch(AsWrittenRoutes, verb, path), Dispatch(Routes, verb, path))
      case (None, None) => true
      case (Some(i), Some(j)) => AsWrittenRoutes[i].handler == Routes[j].handler
      case _ => false
  {
    assert forall j :: 0 <= j < 6 && j != 2 && j != 3 ==> AsWrittenRoutes[j] == Routes[j];
    assert AsWrittenRoutes[2] == Routes[3] && AsWrittenRoutes[3] == Routes[2];
    assert !RouteMatches(Routes[2], verb, path) by {
      if verb == PUT && |path| == 1 { MarkAllReadLiteral(path); }
    }
    if verb == PUT && |path| == 1 && path[0] != [] {
      assert RouteMatches(AsWrittenRoutes[2], verb, path);
      assert RouteMatches(Routes[3], verb, path);
    } else {
      assert !RouteMatches(Routes[3], verb, path);
    }
  }
}
