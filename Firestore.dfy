/** The backend's Firestore service layer. A collection is a map from
    document id to the document's data. The answers of ordered Firestore
    queries are given as sequences (the store's own order); the service's
    own logic over them is modelled: how it combines, defaults, filters,
    counts and reads back documents. */
module Firestore {
  import opened Wrappers
  import opened Seqs
  import opened Js
  import opened Text

  type Collection = map<string, Doc>

  /** The `id` a returned document carries. */
  function DocId(d: Doc): JsValue { Get(d, "id") }

  /** The order key: `dateAdded`, an integral number of milliseconds. */
  function DateKey(d: Doc): int {
    var v := Get(d, "dateAdded");
    if v.Num? then v.n.Floor else 0
  }

  /** `{ id: doc.id, ...doc.data() }`: the data's own `id` field, when it has
      one, wins over the document id. */
  function View(docId: string, data: Doc): (d: Doc)
    ensures d.Keys == data.Keys + {"id"}
    ensures forall k :: k in data ==> d[k] == data[k]
    ensures "id" !in data ==> d["id"] == Str(docId)
  {
    map["id" := Str(docId)] + data
  }

  /** `getLocationById` / `getUserProfile`: `null` for a missing document. */
  function GetDocument(c: Collection, id: string): (r: Option<Doc>)
    ensures r.None? <==> id !in c
    ensures r.Some? ==> r.value == View(id, c[id])
  {
    if id in c then Some(View(id, c[id])) else None
  }

  /** `createLocation`: the new document id always replaces any supplied
      `id`, and a falsy `dateAdded` becomes `now`. */
  function CreateLocation(data: Doc, newId: string, now: int): (d: Doc)
    ensures d.Keys == data.Keys + {"id", "dateAdded"}
    ensures d["id"] == Str(newId)
    ensures Truthy(Get(data, "dateAdded")) ==> d["dateAdded"] == data["dateAdded"]
    ensures !Truthy(Get(data, "dateAdded")) ==> d["dateAdded"] == Num(now as real)
    ensures forall k :: k in data && k != "id" && k != "dateAdded" ==> d[k] == data[k]
  {
    data["id" := Str(newId)]["dateAdded" := Or(Get(data, "dateAdded"), Num(now as real))]
  }

  /** The id a client sends with a new location has no effect on what is stored. */
  lemma CreateLocationIgnoresClientId(data: Doc, clientId: JsValue, newId: string, now: int)
    ensures CreateLocation(data["id" := clientId], newId, now) == CreateLocation(data, newId, now)
  {
    var a := CreateLocation(data["id" := clientId], newId, now);
    var b := CreateLocation(data, newId, now);
    assert a.Keys == b.Keys;
  }

  /** A created document, stored under its new id, reads back unchanged. */
  lemma CreatedDocumentReadsBack(c: Collection, data: Doc, newId: string, now: int)
    ensures GetDocument(c[newId := CreateLocation(data, newId, now)], newId)
         == Some(CreateLocation(data, newId, now))
  {
    var d := CreateLocation(data, newId, now);
    assert View(newId, d) == d;
  }

  /** `createNotification`: a new id, a falsy `timestamp` becomes `now` and a
      falsy `isRead` becomes `false`. */
  function CreateNotification(data: Doc, newId: string, now: int): (d: Doc)
    ensures d.Keys == data.Keys + {"id", "timestamp", "isRead"}
    ensures d["id"] == Str(newId)
    ensures Truthy(Get(data, "timestamp")) ==> d["timestamp"] == data["timestamp"]
    ensures !Truthy(Get(data, "timestamp")) ==> d["timestamp"] == Num(now as real)
    ensures Truthy(Get(data, "isRead")) ==> d["isRead"] == data["isRead"]
    ensures !Truthy(Get(data, "isRead")) ==> d["isRead"] == Bool(false)
    ensures forall k :: k in data && k != "id" && k != "timestamp" && k != "isRead" ==> d[k] == data[k]
  {
    data["id" := Str(newId)]
        ["timestamp" := Or(Get(data, "timestamp"), Num(now as real))]
        ["isRead" := Or(Get(data, "isRead"), Bool(false))]
  }

  // ---- getAllLocations ----

  function IdsOf(ls: seq<Doc>): set<JsValue> {
    set l | l in ls :: DocId(l)
  }

  function NotAmong(ids: set<JsValue>): Doc -> bool {
    (d: Doc) => DocId(d) !in ids
  }

  /** The user's locations, then the public ones whose ids the user's lack. */
  function CombineLocations(userLocations: seq<Doc>, publicLocations: seq<Doc>): seq<Doc> {
    userLocations + Filter(publicLocations, NotAmong(IdsOf(userLocations)))
  }

  function AllLocations(userLocations: seq<Doc>, publicLocations: seq<Doc>): seq<Doc> {
    SortDesc(CombineLocations(userLocations, publicLocations), DateKey)
  }

  /** `getAllLocations`, given the answers of its two queries. */
  method GetAllLocations(userLocations: seq<Doc>, publicLocations: seq<Doc>) returns (r: seq<Doc>)
    ensures r == AllLocations(userLocations, publicLocations)
  {
    var allLocations := userLocations;
    var publicIds := set l | l in userLocations :: DocId(l);
    ghost var keep := NotAmong(publicIds);
    for i := 0 to |publicLocations|
      invariant allLocations == userLocations + Filter(publicLocations[..i], keep)
    {
      var loc := publicLocations[i];
      FilterPrefixStep(publicLocations, i, keep);
      if DocId(loc) !in publicIds {
        allLocations := allLocations + [loc];
      }
    }
    assert publicLocations[..|publicLocations|] == publicLocations;
    assert publicIds == IdsOf(userLocations);
    r := SortDesc(allLocations, DateKey);
  }

  /** The combined listing holds every location of the user and every public
      location whose id the user's lack, and nothing else; it is newest
      first; and when neither query repeats an id, no id is repeated. */
  lemma AllLocationsSpec(userLocations: seq<Doc>, publicLocations: seq<Doc>)
    ensures forall d :: d in AllLocations(userLocations, publicLocations) <==>
      d in userLocations || (d in publicLocations && DocId(d) !in IdsOf(userLocations))
    ensures SortedDesc(AllLocations(userLocations, publicLocations), DateKey)
    ensures DistinctKeys(userLocations, DocId) && DistinctKeys(publicLocations, DocId) ==>
      DistinctKeys(AllLocations(userLocations, publicLocations), DocId)
  {
    var extra := Filter(publicLocations, NotAmong(IdsOf(userLocations)));
    var combined := CombineLocations(userLocations, publicLocations);
    SortDescMembers(combined, DateKey);
    if DistinctKeys(userLocations, DocId) && DistinctKeys(publicLocations, DocId) {
      FilterDistinct(publicLocations, NotAmong(IdsOf(userLocations)), DocId);
      forall x, y | x in userLocations && y in extra ensures DocId(x) != DocId(y) {
        assert DocId(x) in IdsOf(userLocations);
      }
      DistinctKeysConcat(userLocations, extra, DocId);
      SortDescDistinct(combined, DateKey, DocId);
    }
  }

  // ---- getFilteredUserLocations ----

  /** The filters the route builds; an absent filter is `undefined`. */
  datatype Filters = Filters(visibility: JsValue, startDate: JsValue, endDate: JsValue)

  predicate AtLeast(v: JsValue, bound: JsValue) {
    v.Num? && bound.Num? && v.n >= bound.n
  }

  /** The query `getFilteredUserLocations` builds: the user's documents, each
      filter applied only when truthy, both date bounds inclusive; ordering
      by `dateAdded` leaves out documents without one. */
  predicate FilterMatches(userId: string, f: Filters, d: Doc) {
    && Get(d, "userId") == Str(userId)
    && "dateAdded" in d
    && (Truthy(f.visibility) ==> Get(d, "visibility") == f.visibility)
    && (Truthy(f.startDate) ==> AtLeast(Get(d, "dateAdded"), f.startDate))
    && (Truthy(f.endDate) ==> AtLeast(f.endDate, Get(d, "dateAdded")))
  }

  function Matcher(userId: string, f: Filters): Doc -> bool {
    (d: Doc) => FilterMatches(userId, f, d)
  }

  /** `getFilteredUserLocations` over the documents of the collection. */
  function GetFilteredUserLocations(docs: seq<Doc>, userId: string, f: Filters): (r: seq<Doc>)
    ensures forall d :: d in r <==> d in docs && FilterMatches(userId, f, d)
    ensures SortedDesc(r, DateKey)
  {
    var kept := Filter(docs, Matcher(userId, f));
    SortDescMembers(kept, DateKey);
    SortDesc(kept, DateKey)
  }

  /** Filters whose start dates are both falsy and which agree otherwise
      select alike. */
  lemma FalsyStartDatesAgree(docs: seq<Doc>, userId: string, f: Filters, g: Filters)
    requires !Truthy(f.startDate) && !Truthy(g.startDate)
    requires f.visibility == g.visibility && f.endDate == g.endDate
    ensures GetFilteredUserLocations(docs, userId, f) == GetFilteredUserLocations(docs, userId, g)
  {
    FilterSameTest(docs, Matcher(userId, f), Matcher(userId, g));
  }

  /** A start date of 0 is falsy, so it filters nothing: the answer is the
      one without a start date. */
  lemma ZeroStartDateIgnored(docs: seq<Doc>, userId: string, visibility: JsValue, endDate: JsValue)
    ensures GetFilteredUserLocations(docs, userId, Filters(visibility, Num(0.0), endDate))
         == GetFilteredUserLocations(docs, userId, Filters(visibility, Undefined, endDate))
  {
    var m0 := Matcher(userId, Filters(visibility, Num(0.0), endDate));
    var m1 := Matcher(userId, Filters(visibility, Undefined, endDate));
    FilterSameTest(docs, m0, m1);
  }

  /** Two tests that agree everywhere filter alike. */
  lemma {:induction false} FilterSameTest(docs: seq<Doc>, p: Doc -> bool, q: Doc -> bool)
    requires forall d :: p(d) == q(d)
    ensures Filter(docs, p) == Filter(docs, q)
  {
    if docs != [] {
      FilterSameTest(docs[1..], p, q);
    }
  }

  // ---- Updates, deletions and counts ----

  /** The dot-separated segments of an `update` key: Firestore reads each
      key of an update map as a field path. */
  function Segments(key: string): (r: seq<string>)
    ensures |r| >= 1
    ensures forall i :: 0 <= i < |r| ==> '.' !in r[i]
  {
    if key == [] then [[]]
    else
      var rest := Segments(key[1..]);
      if key[0] == '.' then [[]] + rest
      else
        var r := [[key[0]] + rest[0]] + rest[1..];
        assert forall i :: 1 <= i < |r| ==> r[i] == rest[i];
        r
  }

  /** A key without a dot is a single field name. */
  lemma {:induction false} PlainKeySegments(key: string)
    requires '.' !in key
    ensures Segments(key) == [key]
  {
    if key != [] {
      assert '.' !in key[1..] by {
        forall i | 0 <= i < |key[1..]| ensures key[1..][i] != '.' {
          assert key[1..][i] == key[i + 1];
        }
      }
      PlainKeySegments(key[1..]);
      assert key[0] != '.';
      assert [key[0]] + key[1..] == key;
    }
  }

  /** A field name followed by a dot starts a longer path. */
  lemma {:induction false} SegmentsAfterName(name: string, rest: string)
    requires '.' !in name && rest != [] && rest[0] == '.'
    ensures Segments(name + rest) == [name] + Segments(rest[1..])
  {
    if name == [] {
      assert name + rest == rest;
    } else {
      assert (name + rest)[0] == name[0] != '.';
      assert (name + rest)[1..] == name[1..] + rest;
      assert '.' !in name[1..] by {
        forall i | 0 <= i < |name[1..]| ensures name[1..][i] != '.' {
          assert name[1..][i] == name[i + 1];
        }
      }
      SegmentsAfterName(name[1..], rest);
      assert [name[0]] + name[1..] == name;
    }
  }

  /** The Admin SDK's check of a string field path: not empty, none of
      `*~/[]`, and no empty segment (no leading, trailing or double dot). */
  predicate ValidFieldPath(key: string) {
    && (forall i :: 0 <= i < |key| ==> key[i] !in "*~/[]")
    && (forall i :: 0 <= i < |Segments(key)| ==> Segments(key)[i] != [])
  }

  /** An update map the SDK accepts: at least one field, every key a valid
      field path, and no path a prefix of another's. */
  predicate ValidUpdate(update: Doc) {
    && update != map[]
    && (forall k :: k in update ==> ValidFieldPath(k))
    && (forall k, k' :: k in update && k' in update && k != k' ==> !(Segments(k) <= Segments(k')))
  }

  /** The field names just below `path` that some key of the update reaches. */
  function Heads(update: Doc, path: seq<string>): set<string> {
    set k | k in update && |path| < |Segments(k)| && Segments(k)[..|path|] == path :: Segments(k)[|path|]
  }

  /** The work left below `path`: each key reaching it, with each depth it
      still has to descend. */
  function Pending(update: Doc, path: seq<string>): set<(string, nat)> {
    set k, d: nat | k in update && |path| <= d < |Segments(k)| && Segments(k)[..|path|] == path :: (k, d)
  }

  lemma PendingShrinks(update: Doc, path: seq<string>, f: string)
    requires f in Heads(update, path)
    ensures Pending(update, path + [f]) < Pending(update, path)
  {
    var k :| k in update && |path| < |Segments(k)| && Segments(k)[..|path|] == path && Segments(k)[|path|] == f;
    assert Segments(k)[..|path| + 1] == path + [f];
    assert (k, |path|) in Pending(update, path);
    forall e | e in Pending(update, path + [f])
      ensures e in Pending(update, path)
    {
      var (k', d) := e;
      assert Segments(k')[..|path|] == Segments(k')[..|path| + 1][..|path|];
    }
  }

  /** The fields of the map at `path` once the update is applied: a key
      naming a field replaces its value; keys reaching below a field turn it
      into a map (a new one when it held something else) and apply there. */
  function ApplyAt(fields: Doc, update: Doc, path: seq<string>): (r: Doc)
    ensures r.Keys == fields.Keys + Heads(update, path)
    decreases Pending(update, path)
  {
    var heads := Heads(update, path);
    map f | f in fields.Keys + heads ::
      if f !in heads then fields[f]
      else if Join(path + [f], ".") in update then update[Join(path + [f], ".")]
      else
        PendingShrinks(update, path, f);
        var inner := Get(fields, f);
        Obj(ApplyAt(if inner.Obj? then inner.fields else map[], update, path + [f]))
  }

  /** Firestore `update` of a document: it throws (`None`) for a missing
      document and for an update map the SDK refuses; otherwise each key is
      a field path, so a plain key sets its field and a dotted key sets a
      field inside a map. */
  function UpdateDocument(c: Collection, id: string, update: Doc): (r: Option<Collection>)
    ensures r.None? <==> id !in c || !ValidUpdate(update)
    ensures r.Some? ==> r.value.Keys == c.Keys
    ensures r.Some? ==> forall other :: other in c && other != id ==> r.value[other] == c[other]
    ensures r.Some? ==> r.value[id].Keys == c[id].Keys + (set k | k in update :: Segments(k)[0])
    ensures r.Some? ==> forall f :: f in update && '.' !in f ==> f in r.value[id] && r.value[id][f] == update[f]
    ensures r.Some? ==> forall k :: k in update && |Segments(k)| > 1 ==> r.value[id][Segments(k)[0]].Obj?
    ensures r.Some? ==> forall f :: f in c[id] && f !in (set k | k in update :: Segments(k)[0]) ==>
      r.value[id][f] == c[id][f]
  {
    if id !in c || !ValidUpdate(update) then None
    else
      UpdateAtTop(c[id], update);
      Some(c[id := ApplyAt(c[id], update, [])])
  }

  /** At the top level the heads are the keys' first segments. */
  lemma HeadsAtTop(update: Doc)
    ensures Heads(update, []) == set k | k in update :: Segments(k)[0]
  {
    forall k | k in update ensures Segments(k)[..0] == [] {}
  }

  /** A top-level field some key reaches gets the value of the key naming
      it, or else becomes a map. */
  lemma ApplyAtTopField(fields: Doc, update: Doc, f: string)
    requires f in Heads(update, [])
    ensures f in update ==> ApplyAt(fields, update, [])[f] == update[f]
    ensures f !in update ==> ApplyAt(fields, update, [])[f].Obj?
  {
    assert [] + [f] == [f];
    assert Join([f], ".") == f;
  }

  /** At the top level the heads are the keys' first segments; a plain key
      lands as its field's value, and a dotted key's first segment becomes a map. */
  lemma UpdateAtTop(fields: Doc, update: Doc)
    requires ValidUpdate(update)
    ensures Heads(update, []) == set k | k in update :: Segments(k)[0]
    ensures forall f :: f in update && '.' !in f ==> f in ApplyAt(fields, update, []) && ApplyAt(fields, update, [])[f] == update[f]
    ensures forall k :: k in update && |Segments(k)| > 1 ==> ApplyAt(fields, update, [])[Segments(k)[0]].Obj?
  {
    HeadsAtTop(update);
    forall f | f in update && '.' !in f
      ensures f in ApplyAt(fields, update, []) && ApplyAt(fields, update, [])[f] == update[f]
    {
      PlainKeySegments(f);
      ApplyAtTopField(fields, update, f);
    }
    forall k | k in update && |Segments(k)| > 1
      ensures ApplyAt(fields, update, [])[Segments(k)[0]].Obj?
    {
      var f := Segments(k)[0];
      if f in update {
        PlainKeySegments(f);
        assert false;
      }
      ApplyAtTopField(fields, update, f);
    }
  }

  /** An update of one field whose name is a valid path is one the SDK
      accepts. */
  lemma SingleFieldUpdate(f: string, v: JsValue)
    requires ValidFieldPath(f)
    ensures ValidUpdate(map[f := v])
  {
    var update := map[f := v];
    assert f in update;
    forall k, k' | k in update && k' in update ensures k == k' {}
  }

  /** A one-field update with a plain name reaches only that field. */
  lemma PlainFieldHeads(f: string, v: JsValue)
    requires '.' !in f
    ensures (set k | k in map[f := v] :: Segments(k)[0]) == {f}
  {
    var heads := set k | k in map[f := v] :: Segments(k)[0];
    PlainKeySegments(f);
    assert f in heads;
    forall x | x in heads ensures x == f {
      var k :| k in map[f := v] && Segments(k)[0] == x;
    }
  }

  /** A map that agrees with `m` off `k` and holds `v` at `k` is `m[k := v]`. */
  lemma MapUpdateExt<V>(m: map<string, V>, r: map<string, V>, k: string, v: V)
    requires r.Keys == m.Keys + {k} && k in r && r[k] == v
    requires forall g :: g in m && g != k ==> r[g] == m[g]
    ensures r == m[k := v]
  {
  }

  /** Updating one plain field sets that field of the document and changes
      nothing else. */
  lemma UpdatePlainField(c: Collection, id: string, f: string, v: JsValue)
    requires id in c && '.' !in f && ValidFieldPath(f)
    ensures ValidUpdate(map[f := v])
    ensures UpdateDocument(c, id, map[f := v]) == Some(c[id := c[id][f := v]])
  {
    SingleFieldUpdate(f, v);
    PlainFieldHeads(f, v);
    var r := UpdateDocument(c, id, map[f := v]).value;
    assert forall g :: g in c[id] && g != f ==> r[id][g] == c[id][g];
    MapUpdateExt(c[id], r[id], f, v);
    MapUpdateExt(c, r, id, c[id][f := v]);
  }

  /** The update map both routers pass on: a copy of the body with
      `userId` deleted. */
  function UpdateData(body: Doc): Doc {
    Without(body, "userId")
  }

  /** What an accepted update leaves in `userId` when the update has no
      `userId` key: the old value, or a map when a dotted key reaches into it. */
  lemma OwnerFieldAfterUpdate(db: Collection, id: string, update: Doc)
    requires id in db && ValidUpdate(update) && "userId" !in update
    ensures var d := UpdateDocument(db, id, update).value[id];
      && (Get(d, "userId") == Get(db[id], "userId") || Get(d, "userId").Obj?)
      && ((forall f :: f in update ==> Segments(f)[0] != "userId") ==> Get(d, "userId") == Get(db[id], "userId"))
  {
    var d := UpdateDocument(db, id, update).value[id];
    UpdateAtTop(db[id], update);
    var heads := Heads(update, []);
    if "userId" in heads {
      assert d["userId"] == ApplyAt(db[id], update, [])["userId"];
      assert [] + ["userId"] == ["userId"];
      assert Join(["userId"], ".") == "userId";
    }
  }

  /** `userId.x` names the field `x` inside the `userId` field. */
  lemma OwnerSubfieldSegments()
    ensures Segments("userId.x") == ["userId", "x"]
  {
    assert "userId.x" == "userId" + ".x";
    SegmentsAfterName("userId", ".x");
    assert ".x"[1..] == "x";
    PlainKeySegments("x");
  }

  /** `userId.x` is a field path the SDK accepts. */
  lemma OwnerSubfieldPathValid()
    ensures ValidFieldPath("userId.x")
  {
    OwnerSubfieldSegments();
    var key := "userId.x";
    forall i | 0 <= i < |key| ensures key[i] !in "*~/[]" {}
  }

  /** `{"userId.x": 1}` is an update the SDK accepts, and its key reaches
      below the `userId` field. */
  lemma OwnerSubfieldUpdate()
    ensures ValidUpdate(map["userId.x" := Num(1.0)])
    ensures Segments("userId.x") == ["userId", "x"]
  {
    OwnerSubfieldSegments();
    OwnerSubfieldPathValid();
    var update := map["userId.x" := Num(1.0)];
    assert update.Keys == {"userId.x"};
    assert forall k :: k in update ==> k == "userId.x";
  }

  function DeleteDocument(c: Collection, id: string): (c': Collection)
    ensures c'.Keys == c.Keys - {id}
    ensures forall k :: k in c' ==> c'[k] == c[k]
  {
    c - {id}
  }

  predicate OwnedBy(userId: string, d: Doc) {
    Get(d, "userId") == Str(userId)
  }

  predicate UnreadOf(userId: string, d: Doc) {
    OwnedBy(userId, d) && Get(d, "isRead") == Bool(false)
  }

  function UnreadIds(c: Collection, userId: string): set<string> {
    set k | k in c && UnreadOf(userId, c[k])
  }

  /** `markAllNotificationsAsRead`: every unread notification of the user
      becomes read; the answer is how many there were. */
  function MarkAllNotificationsAsRead(c: Collection, userId: string): (r: (Collection, nat))
    ensures r.1 == |UnreadIds(c, userId)|
    ensures r.0.Keys == c.Keys
    ensures forall k :: k in c && UnreadOf(userId, c[k]) ==> r.0[k] == c[k]["isRead" := Bool(true)]
    ensures forall k :: k in c && !UnreadOf(userId, c[k]) ==> r.0[k] == c[k]
  {
    var c' := map k | k in c :: if UnreadOf(userId, c[k]) then c[k]["isRead" := Bool(true)] else c[k];
    (c', |UnreadIds(c, userId)|)
  }

  /** Marking all read is idempotent: a second pass finds nothing to mark. */
  lemma MarkAllReadTwice(c: Collection, userId: string)
    ensures var once := MarkAllNotificationsAsRead(c, userId).0;
            MarkAllNotificationsAsRead(once, userId) == (once, 0)
  {
    var once := MarkAllNotificationsAsRead(c, userId).0;
    assert UnreadIds(once, userId) == {};
    var twice := MarkAllNotificationsAsRead(once, userId).0;
    assert twice == once;
  }

  function OwnedIds(c: Collection, userId: string): set<string> {
    set k | k in c && OwnedBy(userId, c[k])
  }

  /** `deleteAllUserNotifications`: removes every notification of the user;
      the answer is how many there were. */
  function DeleteAllUserNotifications(c: Collection, userId: string): (r: (Collection, nat))
    ensures r.1 == |OwnedIds(c, userId)|
    ensures forall k :: k in r.0 <==> k in c && !OwnedBy(userId, c[k])
    ensures forall k :: k in r.0 ==> r.0[k] == c[k]
  {
    (map k | k in c && !OwnedBy(userId, c[k]) :: c[k], |OwnedIds(c, userId)|)
  }

  /** The count returned plus what remains is what there was. */
  lemma DeleteAllCount(c: Collection, userId: string)
    ensures |DeleteAllUserNotifications(c, userId).0.Keys| + DeleteAllUserNotifications(c, userId).1 == |c.Keys|
  {
    var rest := DeleteAllUserNotifications(c, userId).0;
    assert c.Keys == rest.Keys + OwnedIds(c, userId);
    assert rest.Keys * OwnedIds(c, userId) == {};
  }
}
