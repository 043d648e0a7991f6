/** `LocationRepo`: the app's stateless gateway to the server. The server is an
    oracle: `Api` holds the answer each remote call gives (an exception thrown
    by the HTTP layer is caught by the repository and becomes a failure with
    the same message, so the two are one case here). A repository built
    without an Android `Context` has no API client and fails every call. */
module LocationRepository {
  import opened Wrappers
  import opened Seqs
  import opened LocationEntities

  /** The remote calls and what the server answers to each. */
  datatype Api = Api(
    createLocation: LocationData -> Result<LocationData>,
    deleteLocation: string -> Result<()>,
    getAllLocations: Result<seq<LocationData>>,
    getUserLocations: Result<seq<LocationData>>,
    getLocationById: string -> Result<Option<LocationData>>,
    getFilteredLocations: (Option<string>, Option<int>, Option<int>) -> Result<seq<LocationData>>)

  /** `api` is `None` when the repository was constructed without a context. */
  datatype LocationRepo = LocationRepo(api: Option<Api>)

  const NoContext: string := "Context not available for API calls"

  /** One day in milliseconds. */
  const DayMillis: int := 24 * 60 * 60 * 1000

  /** `addLocation`: the id the server gave the stored location. */
  function AddLocation(repo: LocationRepo, d: LocationData): (r: Result<string>)
    ensures repo.api.None? ==> r == Failure(Some(NoContext))
    ensures repo.api.Some? ==> (r.Success? <==> repo.api.value.createLocation(d).Success?)
    ensures r.Success? ==> r.value == repo.api.value.createLocation(d).value.id
    ensures repo.api.Some? && r.Failure? ==> r.message == repo.api.value.createLocation(d).message
  {
    match repo.api
    case None => Failure(Some(NoContext))
    case Some(api) =>
      match api.createLocation(d)
      case Success(created) => Success(created.id)
      case Failure(m) => Failure(m)
  }

  function DeleteLocation(repo: LocationRepo, id: string): (r: Result<()>)
    ensures repo.api.None? ==> r == Failure(Some(NoContext))
    ensures repo.api.Some? ==> r == repo.api.value.deleteLocation(id)
  {
    match repo.api
    case None => Failure(Some(NoContext))
    case Some(api) => api.deleteLocation(id)
  }

  function GetAllLocations(repo: LocationRepo): (r: Result<seq<LocationData>>)
    ensures repo.api.None? ==> r == Failure(Some(NoContext))
    ensures repo.api.Some? ==> r == repo.api.value.getAllLocations
  {
    match repo.api
    case None => Failure(Some(NoContext))
    case Some(api) => api.getAllLocations
  }

  /** `getUserLocations(userId)`: the server decides whose locations these are
      from the caller's token; the `userId` argument is not sent. */
  function GetUserLocations(repo: LocationRepo, userId: string): (r: Result<seq<LocationData>>)
    ensures repo.api.None? ==> r == Failure(Some(NoContext))
    ensures repo.api.Some? ==> r == repo.api.value.getUserLocations
  {
    match repo.api
    case None => Failure(Some(NoContext))
    case Some(api) => api.getUserLocations
  }

  /** The answer of `getUserLocations` does not depend on the user id passed. */
  lemma GetUserLocationsIgnoresUserId(repo: LocationRepo, u1: string, u2: string)
    ensures GetUserLocations(repo, u1) == GetUserLocations(repo, u2)
  {
  }

  function GetLocationById(repo: LocationRepo, id: string): (r: Result<Option<LocationData>>)
    ensures repo.api.None? ==> r == Failure(Some(NoContext))
    ensures repo.api.Some? ==> r == repo.api.value.getLocationById(id)
  {
    match repo.api
    case None => Failure(Some(NoContext))
    case Some(api) => api.getLocationById(id)
  }

  /** `getUserLocationsByDateRange`: the server's filtered query, any visibility. */
  function GetUserLocationsByDateRange(repo: LocationRepo, userId: string, startDate: int, endDate: int)
    : (r: Result<seq<LocationData>>)
    ensures repo.api.None? ==> r == Failure(Some(NoContext))
    ensures repo.api.Some? ==> r == repo.api.value.getFilteredLocations(None, Some(startDate), Some(endDate))
  {
    match repo.api
    case None => Failure(Some(NoContext))
    case Some(api) => api.getFilteredLocations(None, Some(startDate), Some(endDate))
  }

  /** `getFilteredUserLocations`: the server's filtered query with the given filters. */
  function GetFilteredUserLocations(repo: LocationRepo, userId: string, startDate: Option<int>,
                                    endDate: Option<int>, visibility: Option<string>)
    : (r: Result<seq<LocationData>>)
    ensures repo.api.None? ==> r == Failure(Some(NoContext))
    ensures repo.api.Some? ==> r == repo.api.value.getFilteredLocations(visibility, startDate, endDate)
  {
    match repo.api
    case None => Failure(Some(NoContext))
    case Some(api) => api.getFilteredLocations(visibility, startDate, endDate)
  }

  function DataDateAdded(d: LocationData): int { d.dateAdded }

  /** Public and added within the inclusive range. */
  predicate PublicInRange(d: LocationData, startDate: int, endDate: int) {
    d.visibility == "public" && startDate <= d.dateAdded <= endDate
  }

  /** `getPublicLocationsByDateRange`: every location the server lists, keeping
      the public ones added within the range, newest first. A failed listing
      counts as an empty one, so with a context the call always succeeds. */
  function GetPublicLocationsByDateRange(repo: LocationRepo, startDate: int, endDate: int)
    : (r: Result<seq<LocationData>>)
    ensures repo.api.None? <==> r.Failure?
    ensures repo.api.None? ==> r == Failure(Some(NoContext))
    ensures r.Success? ==> SortedDesc(r.value, DataDateAdded)
    ensures r.Success? && repo.api.value.getAllLocations.Success? ==>
      forall d :: d in r.value <==> d in repo.api.value.getAllLocations.value && PublicInRange(d, startDate, endDate)
    ensures r.Success? && repo.api.value.getAllLocations.Success? ==>
      forall d :: multiset(r.value)[d] ==
        if PublicInRange(d, startDate, endDate) then multiset(repo.api.value.getAllLocations.value)[d] else 0
    ensures r.Success? && repo.api.value.getAllLocations.Failure? ==> r.value == []
  {
    match repo.api
    case None => Failure(Some(NoContext))
    case Some(api) =>
      var all := if api.getAllLocations.Success? then api.getAllLocations.value else [];
      var kept := Filter(all, d => PublicInRange(d, startDate, endDate));
      SortDescMembers(kept, DataDateAdded);
      FilterMultiset(all, d => PublicInRange(d, startDate, endDate));
      Success(SortDesc(kept, DataDateAdded))
  }

  /** The message Java's date parser gives for text it cannot read. */
  function UnparseableDate(date: string): string {
    "Unparseable date: \"" + date + "\""
  }

  /** The first and last millisecond of the day that starts at `startOfDay`. */
  function DayWindow(startOfDay: int): (w: (int, int))
    ensures w.0 == startOfDay && w.1 - w.0 == DayMillis - 1
  {
    (startOfDay, startOfDay + DayMillis - 1)
  }

  /** Consecutive day windows tile the time line: every instant of two
      consecutive days falls in exactly one of the two windows. */
  lemma DayWindowsTile(startOfDay: int, t: int)
    requires startOfDay <= t < startOfDay + 2 * DayMillis
    ensures (DayWindow(startOfDay).0 <= t <= DayWindow(startOfDay).1)
        != (DayWindow(startOfDay + DayMillis).0 <= t <= DayWindow(startOfDay + DayMillis).1)
  {
  }

  /** `getUserLocationsByDate`: `parse` is the `yyyy-MM-dd` parser in the
      device's calendar (a start-of-day time, or `None` when the text is not a
      date). A parse failure is a failure; otherwise the server is asked for
      that one day, both ends inclusive. */
  function GetUserLocationsByDate(repo: LocationRepo, userId: string, date: string,
                                  parse: string -> Option<int>): (r: Result<seq<LocationData>>)
    ensures repo.api.None? ==> r == Failure(Some(NoContext))
    ensures repo.api.Some? && parse(date).None? ==> r == Failure(Some(UnparseableDate(date)))
    ensures repo.api.Some? && parse(date).Some? ==>
      r == repo.api.value.getFilteredLocations(None, Some(parse(date).value),
                                               Some(parse(date).value + DayMillis - 1))
  {
    match repo.api
    case None => Failure(Some(NoContext))
    case Some(api) =>
      match parse(date)
      case None => Failure(Some(UnparseableDate(date)))
      case Some(start) =>
        var w := DayWindow(start);
        api.getFilteredLocations(None, Some(w.0), Some(w.1))
  }

  /** `dateStringToTimestamp`: the parsed time, or 0 when the text is not a date. */
  function DateStringToTimestamp(date: string, parse: string -> Option<int>): (ts: int)
    ensures parse(date).None? ==> ts == 0
    ensures parse(date).Some? ==> ts == parse(date).value
  {
    parse(date).GetOr(0)
  }

  /** Without a context every API-backed call fails with the same message. */
  lemma NoContextFailsEveryCall(d: LocationData, id: string, userId: string, s: int, e: int,
                                os: Option<int>, oe: Option<int>, v: Option<string>,
                                date: string, parse: string -> Option<int>)
    ensures AddLocation(LocationRepo(None), d) == Failure(Some(NoContext))
    ensures DeleteLocation(LocationRepo(None), id) == Failure(Some(NoContext))
    ensures GetAllLocations(LocationRepo(None)) == Failure(Some(NoContext))
    ensures GetUserLocations(LocationRepo(None), userId) == Failure(Some(NoContext))
    ensures GetLocationById(LocationRepo(None), id) == Failure(Some(NoContext))
    ensures GetUserLocationsByDateRange(LocationRepo(None), userId, s, e) == Failure(Some(NoContext))
    ensures GetFilteredUserLocations(LocationRepo(None), userId, os, oe, v) == Failure(Some(NoContext))
    ensures GetPublicLocationsByDateRange(LocationRepo(None), s, e) == Failure(Some(NoContext))
    ensures GetUserLocationsByDate(LocationRepo(None), userId, date, parse) == Failure(Some(NoContext))
  {
  }
}
