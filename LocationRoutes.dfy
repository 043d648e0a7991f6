/** The `/api/locations` router: request validation, the owner-or-public
    access decision and the fields a client may not change. The handlers
    are functions from the location collection and the request to the
    response and the new collection. */
module LocationRoutes {
  import opened Wrappers
  import opened Text
  import opened Js
  import opened Firestore
  import opened Express

  datatype Handler = ListAll | ListOwn | ListFiltered | ReadOne | CreateOne | UpdateOne | DeleteOne

  /** The routes in the order they are registered. */
  const Routes: seq<Route<Handler>> := [
    Route(GET, [], ListAll),
    Route(GET, [Lit("user")], ListOwn),
    Route(GET, [Lit("filtered")], ListFiltered),
    Route(GET, [Param], ReadOne),
    Route(POST, [], CreateOne),
    Route(PUT, [Param], UpdateOne),
    Route(DELETE, [Param], DeleteOne)
  ]

  /** What the store answers that the model does not derive from the
      collection: the two ordered queries of `getAllLocations` (the user's
      locations and the public ones, newest first), the collection's
      documents in the store's order for the filtered query, the id a new
      document gets, and the clock. */
  datatype Store = Store(userLocations: seq<Doc>, publicLocations: seq<Doc>, docs: seq<Doc>, newId: string, now: int)

  datatype Outcome = Outcome(response: Response, db: Collection)

  const NotFound := "Location not found"
  const AccessDenied := "Access denied"
  const NotYoursToUpdate := "Access denied. You can only update your own locations"
  const NotYoursToDelete := "Access denied. You can only delete your own locations"
  const MissingFields := "Missing required fields: name, latitude, longitude"
  const Deleted := "Location deleted successfully"

  /** `/user` and `/filtered` are registered before `/:id`, so they reach
      their own handlers in any mix of case; every other single segment is an id. */
  lemma NamedPathsNotCaptured(id: string)
    ensures Lower(id) == "user" ==> Dispatch(Routes, GET, [id]) == Some(1)
    ensures Lower(id) == "filtered" ==> Dispatch(Routes, GET, [id]) == Some(2)
    ensures id != [] && Lower(id) != "user" && Lower(id) != "filtered" ==> Dispatch(Routes, GET, [id]) == Some(3)
  {
    SingleSegmentGet(id);
    assert RouteMatches(Routes[1], GET, [id]) <==> Lower(id) == "user" by {
      RouteMatchesOne(Routes[1], GET, id);
      LitMatches("user", id);
    }
    assert RouteMatches(Routes[2], GET, [id]) <==> Lower(id) == "filtered" by {
      RouteMatchesOne(Routes[2], GET, id);
      LitMatches("filtered", id);
    }
  }

  /** Which of the three GET routes with one segment takes `[id]`. */
  lemma SingleSegmentGet(id: string)
    ensures RouteMatches(Routes[1], GET, [id]) ==> Dispatch(Routes, GET, [id]) == Some(1)
    ensures !RouteMatches(Routes[1], GET, [id]) && RouteMatches(Routes[2], GET, [id]) ==>
      Dispatch(Routes, GET, [id]) == Some(2)
    ensures !RouteMatches(Routes[1], GET, [id]) && !RouteMatches(Routes[2], GET, [id]) && id != [] ==>
      Dispatch(Routes, GET, [id]) == Some(3)
  {
    assert !RouteMatches(Routes[0], GET, [id]);
    if RouteMatches(Routes[1], GET, [id]) {
      DispatchAt(Routes, GET, [id], 1);
    } else if RouteMatches(Routes[2], GET, [id]) {
      DispatchAt(Routes, GET, [id], 2);
    } else if id != [] {
      assert RouteMatches(Routes[3], GET, [id]) by { RouteMatchesOne(Routes[3], GET, id); }
      forall j | 0 <= j < 3 ensures !RouteMatches(Routes[j], GET, [id]) {
        assert j == 0 || j == 1 || j == 2;
      }
      DispatchAt(Routes, GET, [id], 3);
    }
  }

  // ---- GET /:id ----

  /** The caller may read a location they own or a public one. */
  predicate MayRead(userId: string, data: Doc) {
    OwnedBy(userId, data) || Get(data, "visibility") == Str("public")
  }

  function ReadLocation(db: Collection, userId: string, id: string): (r: Response)
    ensures r.Reply?
    ensures r.status == 404 <==> id !in db
    ensures r.status == 403 <==> id in db && !MayRead(userId, db[id])
    ensures r.status == 200 <==> id in db && MayRead(userId, db[id])
    ensures r.status == 200 ==> r == Json(200, "location", Obj(View(id, db[id])))
    ensures r.status != 200 ==> r == ErrorReply(if id !in db then NotFound else AccessDenied, r.status)
  {
    match GetDocument(db, id)
    case None => ErrorReply(NotFound, 404)
    case Some(location) =>
      if Get(location, "userId") != Str(userId) && Get(location, "visibility") != Str("public")
      then ErrorReply(AccessDenied, 403)
      else Json(200, "location", Obj(location))
  }

  /** Owners read their own locations, and everyone reads public ones. */
  lemma OwnerOrPublicReadable(db: Collection, userId: string, id: string)
    requires id in db
    requires OwnedBy(userId, db[id]) || Get(db[id], "visibility") == Str("public")
    ensures ReadLocation(db, userId, id).status == 200
  {
  }

  // ---- POST / ----

  /** `name`, `latitude` and `longitude` must all be truthy. */
  predicate HasRequiredFields(d: Doc) {
    Truthy(Get(d, "name")) && Truthy(Get(d, "latitude")) && Truthy(Get(d, "longitude"))
  }

  /** `{ ...req.body, userId, dateAdded: req.body.dateAdded || Date.now() }`. */
  function LocationData(body: Doc, userId: string, now: int): Doc {
    body["userId" := Str(userId)]["dateAdded" := Or(Get(body, "dateAdded"), Num(now as real))]
  }

  function CreateLocationRoute(db: Collection, userId: string, body: Doc, newId: string, now: int): (o: Outcome)
    ensures !HasRequiredFields(body) ==> o == Outcome(ErrorReply(MissingFields, 400), db)
    ensures HasRequiredFields(body) ==> o.response.Reply? && o.response.status == 201
    ensures HasRequiredFields(body) ==> o.db.Keys == db.Keys + {newId}
    ensures forall k :: k in db && k != newId ==> k in o.db && o.db[k] == db[k]
  {
    var locationData := LocationData(body, userId, now);
    assert Get(locationData, "name") == Get(body, "name");
    assert Get(locationData, "latitude") == Get(body, "latitude");
    assert Get(locationData, "longitude") == Get(body, "longitude");
    if !HasRequiredFields(locationData) then Outcome(ErrorReply(MissingFields, 400), db)
    else
      var location := CreateLocation(locationData, newId, now);
      Outcome(Json(201, "location", Obj(location)), db[newId := location])
  }

  /** The stored location belongs to the caller whatever `userId` the body
      names, carries its new document id, dates from the body or from now,
      and keeps every other field of the body. */
  lemma CreatedLocationFields(db: Collection, userId: string, body: Doc, newId: string, now: int)
    requires HasRequiredFields(body)
    ensures var o := CreateLocationRoute(db, userId, body, newId, now);
      && newId in o.db
      && o.db[newId]["userId"] == Str(userId)
      && o.db[newId]["id"] == Str(newId)
      && o.db[newId]["dateAdded"] == Or(Get(body, "dateAdded"), Num(now as real))
      && (forall k :: k in body && k !in {"id", "userId", "dateAdded"} ==> o.db[newId][k] == body[k])
  {
    var locationData := LocationData(body, userId, now);
    assert Get(locationData, "dateAdded") == Or(Get(body, "dateAdded"), Num(now as real));
  }

  /** A latitude of exactly 0 is falsy, so a location on the equator is refused. */
  lemma EquatorRejected(db: Collection, userId: string, body: Doc, newId: string, now: int)
    requires Get(body, "latitude") == Num(0.0)
    ensures CreateLocationRoute(db, userId, body, newId, now) == Outcome(ErrorReply(MissingFields, 400), db)
  {
  }

  // ---- PUT /:id and DELETE /:id ----

  /** `updateLocation` throws for an update map Firestore refuses (an empty
      one, as a body of `{}` or only `userId` leaves), and `next(error)`
      reports it. */
  function UpdateLocationRoute(db: Collection, userId: string, id: string, body: Doc): (o: Outcome)
    ensures id !in db ==> o == Outcome(ErrorReply(NotFound, 404), db)
    ensures id in db && !OwnedBy(userId, db[id]) ==> o == Outcome(ErrorReply(NotYoursToUpdate, 403), db)
    ensures id in db && OwnedBy(userId, db[id]) && !ValidUpdate(UpdateData(body)) ==> o == Outcome(Forwarded, db)
    ensures id in db && OwnedBy(userId, db[id]) && ValidUpdate(UpdateData(body)) ==>
      o.response.Reply? && o.response.status == 200 && o.db == UpdateDocument(db, id, UpdateData(body)).value
    ensures o.db.Keys == db.Keys
  {
    match GetDocument(db, id)
    case None => Outcome(ErrorReply(NotFound, 404), db)
    case Some(existing) =>
      if Get(existing, "userId") != Str(userId) then Outcome(ErrorReply(NotYoursToUpdate, 403), db)
      else match UpdateDocument(db, id, UpdateData(body))
        case None => Outcome(Forwarded, db)
        case Some(db') => Outcome(Json(200, "location", Obj(View(id, db'[id]))), db')
  }

  /** A body of `{}`, or one naming only `userId`, leaves nothing to update,
      so the owner's request is answered by the error handler. */
  lemma EmptyUpdateForwarded(db: Collection, userId: string, id: string, body: Doc)
    requires id in db && OwnedBy(userId, db[id])
    requires body.Keys <= {"userId"}
    ensures UpdateLocationRoute(db, userId, id, body) == Outcome(Forwarded, db)
  {
    assert UpdateData(body) == map[];
  }

  /** An update touches only the location it names and never hands a location
      to anyone: whoever owns a location afterwards owned it before. The
      owner is kept unless a key of the body is a field path into `userId`
      (the `userId` key itself is dropped). A plain key the update accepts
      lands as its field. */
  lemma UpdateKeepsOwners(db: Collection, userId: string, id: string, body: Doc)
    ensures var o := UpdateLocationRoute(db, userId, id, body);
      && (forall k :: k in db && k != id ==> o.db[k] == db[k])
      && (forall k, u :: k in db && OwnedBy(u, o.db[k]) ==> OwnedBy(u, db[k]))
      && ((forall f :: f in body && f != "userId" ==> Segments(f)[0] != "userId") ==>
            forall k :: k in db ==> Get(o.db[k], "userId") == Get(db[k], "userId"))
      && (o.response.Reply? && o.response.status == 200 ==>
            forall f :: f in body && f != "userId" && '.' !in f ==> o.db[id][f] == body[f])
  {
    var o := UpdateLocationRoute(db, userId, id, body);
    if id in db && OwnedBy(userId, db[id]) && ValidUpdate(UpdateData(body)) {
      OwnerFieldAfterUpdate(db, id, UpdateData(body));
    }
  }

  /** A dotted key gets past the `userId` guard: the owner's body
      `{"userId.x": 1}` turns the owner field into a map, after which the
      location belongs to no one. */
  lemma FieldPathOrphansLocation(db: Collection, userId: string, id: string)
    requires id in db && OwnedBy(userId, db[id])
    ensures var o := UpdateLocationRoute(db, userId, id, map["userId.x" := Num(1.0)]);
      && o.response.Reply? && o.response.status == 200
      && forall u :: !OwnedBy(u, o.db[id])
  {
    var body := map["userId.x" := Num(1.0)];
    assert UpdateData(body) == body;
    OwnerSubfieldUpdate();
    UpdateAtTop(db[id], body);
  }

  function DeleteLocationRoute(db: Collection, userId: string, id: string): (o: Outcome)
    ensures id !in db ==> o == Outcome(ErrorReply(NotFound, 404), db)
    ensures id in db && !OwnedBy(userId, db[id]) ==> o == Outcome(ErrorReply(NotYoursToDelete, 403), db)
    ensures id in db && OwnedBy(userId, db[id]) ==>
      o == Outcome(Json(200, "message", Str(Deleted)), DeleteDocument(db, id))
  {
    match GetDocument(db, id)
    case None => Outcome(ErrorReply(NotFound, 404), db)
    case Some(existing) =>
      if Get(existing, "userId") != Str(userId) then Outcome(ErrorReply(NotYoursToDelete, 403), db)
      else Outcome(Json(200, "message", Str(Deleted)), DeleteDocument(db, id))
  }

  /** Only the owner changes a location: any PUT or DELETE that alters the
      collection was made by the owner of the location it names. */
  lemma OnlyOwnersWrite(db: Collection, userId: string, id: string, body: Doc)
    ensures UpdateLocationRoute(db, userId, id, body).db != db ==> id in db && OwnedBy(userId, db[id])
    ensures DeleteLocationRoute(db, userId, id).db != db ==> id in db && OwnedBy(userId, db[id])
    ensures DeleteLocationRoute(db, userId, id).db != db ==> DeleteLocationRoute(db, userId, id).db.Keys == db.Keys - {id}
  {
  }

  // ---- GET /filtered ----

  /** A filter is set only from a truthy query parameter; the dates are parsed
      with `parseInt`, so a malformed one becomes NaN. */
  function BuildFilters(query: map<string, string>): (f: Filters)
    ensures !Truthy(QueryParam(query, "visibility")) ==> f.visibility == Undefined
    ensures Truthy(QueryParam(query, "visibility")) ==> f.visibility == Str(query["visibility"])
    ensures !Truthy(QueryParam(query, "startDate")) ==> f.startDate == Undefined
    ensures Truthy(QueryParam(query, "startDate")) ==> f.startDate == ParseIntValue(query["startDate"])
    ensures !Truthy(QueryParam(query, "endDate")) ==> f.endDate == Undefined
    ensures Truthy(QueryParam(query, "endDate")) ==> f.endDate == ParseIntValue(query["endDate"])
  {
    var visibility := QueryParam(query, "visibility");
    var startDate := QueryParam(query, "startDate");
    var endDate := QueryParam(query, "endDate");
    Filters(
      if Truthy(visibility) then visibility else Undefined,
      if Truthy(startDate) then ParseIntValue(startDate.s) else Undefined,
      if Truthy(endDate) then ParseIntValue(endDate.s) else Undefined)
  }

  function FilteredLocations(docs: seq<Doc>, userId: string, query: map<string, string>): seq<Doc> {
    GetFilteredUserLocations(docs, userId, BuildFilters(query))
  }

  /** A start date the client sends as decimal milliseconds reaches the store
      as that number. */
  lemma StartDateParsed(query: map<string, string>, millis: nat)
    requires "startDate" in query && query["startDate"] == NatToString(millis)
    ensures BuildFilters(query).startDate == Num(millis as real)
  {
    ParseIntOfNatToString(millis);
  }

  /** A start date that does not parse is NaN, which is falsy, so it filters
      nothing: the answer is the one without a start date. */
  lemma MalformedStartDateIgnored(docs: seq<Doc>, userId: string, query: map<string, string>)
    requires "startDate" in query && ParseInt(query["startDate"]).None?
    ensures FilteredLocations(docs, userId, query) == FilteredLocations(docs, userId, query - {"startDate"})
  {
    MalformedStartDateFilters(query);
    FalsyStartDatesAgree(docs, userId, BuildFilters(query), BuildFilters(query - {"startDate"}));
  }

  /** With or without the malformed start date, the filters differ only in
      start dates that are both falsy. */
  lemma MalformedStartDateFilters(query: map<string, string>)
    requires "startDate" in query && ParseIntValue(query["startDate"]) == NaN
    ensures var f := BuildFilters(query); var g := BuildFilters(query - {"startDate"});
      !Truthy(f.startDate) && !Truthy(g.startDate) && f.visibility == g.visibility && f.endDate == g.endDate
  {
    var f := BuildFilters(query);
    var g := BuildFilters(query - {"startDate"});
    assert f.startDate == NaN || f.startDate == Undefined;
    assert g.startDate == Undefined;
    assert QueryParam(query, "visibility") == QueryParam(query - {"startDate"}, "visibility");
    assert QueryParam(query, "endDate") == QueryParam(query - {"startDate"}, "endDate");
  }

  // ---- The router ----

  /** The handler the first matching route names, run on the request. */
  function Handle(h: Handler, db: Collection, req: Request, store: Store): Outcome {
    var id := if |req.path| == 1 then req.path[0] else "";
    match h
    case ListAll => Outcome(Json(200, "locations", Objects(AllLocations(store.userLocations, store.publicLocations))), db)
    case ListOwn => Outcome(Json(200, "locations", Objects(store.userLocations)), db)
    case ListFiltered => Outcome(Json(200, "locations", Objects(FilteredLocations(store.docs, req.userId, req.query))), db)
    case ReadOne => Outcome(ReadLocation(db, req.userId, id), db)
    case CreateOne => CreateLocationRoute(db, req.userId, req.body, store.newId, store.now)
    case UpdateOne => UpdateLocationRoute(db, req.userId, id, req.body)
    case DeleteOne => DeleteLocationRoute(db, req.userId, id)
  }

  /** `None` when no route matches: the request falls through to the
      application's `Route not found` handler. */
  function Serve(db: Collection, req: Request, store: Store): Option<Outcome> {
    match Dispatch(Routes, req.verb, req.path)
    case None => None
    case Some(i) => Some(Handle(Routes[i].handler, db, req, store))
  }

  /** Reads never write: every GET leaves the collection as it was. */
  lemma GetsDoNotWrite(db: Collection, req: Request, store: Store)
    requires req.verb == GET
    ensures Serve(db, req, store).Some? ==> Serve(db, req, store).value.db == db
  {
  }

  /** Only the owner's requests change an existing location. */
  lemma ServeOnlyOwnersChange(db: Collection, req: Request, store: Store, k: string)
    requires k in db && !OwnedBy(req.userId, db[k])
    requires k != store.newId
    ensures Serve(db, req, store).Some? ==>
      k in Serve(db, req, store).value.db && Serve(db, req, store).value.db[k] == db[k]
  {
    match Dispatch(Routes, req.verb, req.path)
    case None =>
    case Some(i) => HandleOnlyOwnersChange(Routes[i].handler, db, req, store, k);
  }

  lemma HandleOnlyOwnersChange(h: Handler, db: Collection, req: Request, store: Store, k: string)
    requires k in db && !OwnedBy(req.userId, db[k])
    requires k != store.newId
    ensures k in Handle(h, db, req, store).db && Handle(h, db, req, store).db[k] == db[k]
  {
    var id := if |req.path| == 1 then req.path[0] else "";
    match h
    case UpdateOne => UpdateKeepsOwners(db, req.userId, id, req.body);
    case DeleteOne => OnlyOwnersWrite(db, req.userId, id, req.body);
    case _ =>
  }
}
