/** What the backend relies on from Express: routes tried in the order they
    were registered, the first whose method and path pattern match handling
    the request, and JSON responses with a status code. */
module Express {
  import opened Wrappers
  import opened Js
  import opened Text

  datatype Verb = GET | POST | PUT | DELETE

  /** One path segment of a route pattern: a literal, or a `:param`. */
  datatype Segment = Lit(text: string) | Param

  /** A registered route and the handler it runs. */
  datatype Route<H> = Route(verb: Verb, pattern: seq<Segment>, handler: H)

  /** `express.Router()` matches literal segments without regard to case
      (ASCII letters here); a `:param` matches any non-empty segment. */
  predicate SegmentMatches(p: Segment, s: string) {
    match p
    case Lit(t) => |s| == |t| && forall i :: 0 <= i < |s| ==> LowerChar(s[i]) == LowerChar(t[i])
    case Param => s != []
  }

  /** A literal written in lower case matches exactly the segments that
      lower-case to it. */
  lemma LitMatches(t: string, s: string)
    requires forall i :: 0 <= i < |t| ==> !('A' <= t[i] <= 'Z')
    ensures SegmentMatches(Lit(t), s) <==> Lower(s) == t
  {
    if Lower(s) == t {
      forall i | 0 <= i < |s| ensures LowerChar(s[i]) == LowerChar(t[i]) {
        assert LowerChar(s[i]) == Lower(s)[i];
      }
    }
    if SegmentMatches(Lit(t), s) {
      forall i | 0 <= i < |s| ensures Lower(s)[i] == t[i] {
        assert LowerChar(t[i]) == t[i];
      }
    }
  }

  /** The request path is split into its segments; `/` is the empty path. */
  predicate RouteMatches<H>(r: Route<H>, verb: Verb, path: seq<string>) {
    && r.verb == verb
    && |r.pattern| == |path|
    && forall i :: 0 <= i < |path| ==> SegmentMatches(r.pattern[i], path[i])
  }

  /** A one-segment path matches a one-segment pattern by that segment. */
  lemma RouteMatchesOne<H>(r: Route<H>, verb: Verb, s: string)
    ensures RouteMatches(r, verb, [s]) <==> r.verb == verb && |r.pattern| == 1 && SegmentMatches(r.pattern[0], s)
  {
    if r.verb == verb && |r.pattern| == 1 && SegmentMatches(r.pattern[0], s) {
      assert forall i :: 0 <= i < 1 ==> SegmentMatches(r.pattern[i], [s][i]);
    }
  }

  /** The index of the first registered route that matches, if any. */
  function Dispatch<H>(routes: seq<Route<H>>, verb: Verb, path: seq<string>): (r: Option<nat>)
    ensures r.Some? ==> r.value < |routes| && RouteMatches(routes[r.value], verb, path)
    ensures r.Some? ==> forall j :: 0 <= j < r.value ==> !RouteMatches(routes[j], verb, path)
    ensures r.None? <==> forall j :: 0 <= j < |routes| ==> !RouteMatches(routes[j], verb, path)
  {
    DispatchFrom(routes, verb, path, 0)
  }

  /** A route that matches, with none before it matching, is the one chosen. */
  lemma DispatchAt<H>(routes: seq<Route<H>>, verb: Verb, path: seq<string>, i: nat)
    requires i < |routes| && RouteMatches(routes[i], verb, path)
    requires forall j :: 0 <= j < i ==> !RouteMatches(routes[j], verb, path)
    ensures Dispatch(routes, verb, path) == Some(i)
  {
  }

  function DispatchFrom<H>(routes: seq<Route<H>>, verb: Verb, path: seq<string>, from: nat): (r: Option<nat>)
    requires from <= |routes|
    ensures r.Some? ==> from <= r.value < |routes| && RouteMatches(routes[r.value], verb, path)
    ensures r.Some? ==> forall j :: from <= j < r.value ==> !RouteMatches(routes[j], verb, path)
    ensures r.None? <==> forall j :: from <= j < |routes| ==> !RouteMatches(routes[j], verb, path)
    decreases |routes| - from
  {
    if from == |routes| then None
    else if RouteMatches(routes[from], verb, path) then Some(from)
    else DispatchFrom(routes, verb, path, from + 1)
  }

  /** What a router sees of a request once the authentication middleware has
      run: the method, the path below the router's mount point split into
      segments, the caller's user id, the JSON body and the query parameters. */
  datatype Request = Request(verb: Verb, path: seq<string>, userId: string, body: Doc, query: map<string, string>)

  /** `req.query[key]`: a string, or `undefined` when the parameter is absent. */
  function QueryParam(query: map<string, string>, key: string): (v: JsValue)
    ensures v.Undefined? <==> key !in query
    ensures key in query ==> v == Str(query[key])
  {
    if key in query then Str(query[key]) else Undefined
  }

  /** What a handler does with the request: a JSON reply, or `next(error)`
      when a store call throws, which the application's error handler answers. */
  datatype Response = Reply(status: int, body: JsValue) | Forwarded

  function Json(status: int, key: string, value: JsValue): Response {
    Reply(status, Obj(map[key := value]))
  }

  /** `{ error: { message, status } }` with that status. */
  function ErrorReply(message: string, status: int): (r: Response)
    ensures r.Reply? && r.status == status
  {
    Reply(status, Obj(map["error" := Obj(map["message" := Str(message), "status" := Num(status as real)])]))
  }
}
