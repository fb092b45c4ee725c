/**
 * The `/users` and `/most-frequent` handlers: default window, validation,
 * cache lookup under a route-prefixed key, upstream fetch on a miss,
 * aggregation, cache write, response.
 */
module Server {
  import opened Wrappers
  import opened DateRange
  import opened Contributors
  import opened Ranking

  /** `CACHE_TIME`: the time to live, in seconds, passed to every `setEx`. */
  const CacheTime: nat := 60 * 2

  const InvalidRangeMessage: string := "Invalid date range"

  datatype Route = Users | MostFrequentUsers

  /** A response body: one of the two lists, or `{message}`. */
  datatype Body = UserList(users: seq<User>) | Leaderboard(ranking: seq<Ranked>) | Message(message: string)

  datatype Response = Response(status: nat, body: Body)

  /** What `setEx` stores under a key: the value and its time to live. */
  datatype Entry = Entry(value: Body, ttl: nat)

  /** `req.query.start` and `req.query.end`, each absent or given. */
  datatype Query = Query(start: Option<string>, end: Option<string>)

  /** The `since` and `until` of the commit listing requested from GitHub. */
  datatype Window = Window(since: string, until: string)

  /**
   * How the network calls of one request turn out: the cache read (`get`),
   * the GitHub commit listing (`axios.get`) and the cache write (`setEx`).
   * A rejection carries its `err.message`.
   */
  datatype Backend = Backend(getError: Option<string>, upstream: Result<seq<CommitRecord>>, setError: Option<string>)

  /** The route's prefix, the start, a colon and the end. */
  function CacheKey(route: Route, start: string, end: string): string
  {
    (if route.Users? then "users:" else "most-frequent:") + start + ":" + end
  }

  /**
   * What a route computes from the commit listing on a cache miss; the
   * `/most-frequent` route keeps its whole sorted list (see `TopFive`).
   */
  function Aggregate(route: Route, data: seq<CommitRecord>): Body
  {
    match route
    case Users => UserList(UniqueUsers(ToUsers(data)))
    case MostFrequentUsers => Leaderboard(MostFrequent(data))
  }

  /** The response, the cache afterwards, and the upstream request made, if any. */
  datatype Outcome = Outcome(response: Response, cache: map<string, Entry>, request: Option<Window>)

  /** One request to `route`, as both handlers process it. */
  function Handle(parse: string -> Option<int>, route: Route, cache: map<string, Entry>,
                  query: Query, backend: Backend): (o: Outcome)
    ensures o.response.status in {200, 400, 500}
    ensures o.response.status != 200 ==> o.cache == cache
    ensures o.request.Some? ==>
      o.request.value == Window(QueryParam(query.start, DefaultStart), QueryParam(query.end, DefaultEnd))
  {
    var start := QueryParam(query.start, DefaultStart);
    var end := QueryParam(query.end, DefaultEnd);
    if !IsValidDateRange(parse, start, end) then
      Outcome(Response(400, Message(InvalidRangeMessage)), cache, None)
    else
      var key := CacheKey(route, start, end);
      if backend.getError.Some? then
        Outcome(Response(500, Message(backend.getError.value)), cache, None)
      else if key in cache then
        Outcome(Response(200, cache[key].value), cache, None)
      else
        var request := Some(Window(start, end));
        match backend.upstream
        case Failure(message) => Outcome(Response(500, Message(message)), cache, request)
        case Success(data) =>
          var body := Aggregate(route, data);
          if backend.setError.Some? then
            Outcome(Response(500, Message(backend.setError.value)), cache, request)
          else
            Outcome(Response(200, body), cache[key := Entry(body, CacheTime)], request)
  }

  function Requests(o: Outcome): seq<Window>
  {
    if o.request.Some? then [o.request.value] else []
  }

  /** The server: the JavaScript engine's date parser and the contents of the cache. */
  class CommitStatsServer {
    const parse: string -> Option<int>
    var cache: map<string, Entry>
    /** Every commit listing requested from GitHub so far. */
    ghost var upstreamRequests: seq<Window>

    constructor (parse: string -> Option<int>)
      ensures this.parse == parse && cache == map[] && upstreamRequests == []
    {
      this.parse := parse;
      cache := map[];
      upstreamRequests := [];
    }

    /** `GET /users`: the imperative rendering of `Handle` for the `Users` route. */
    method GetUsers(query: Query, backend: Backend) returns (response: Response)
      modifies this
      ensures var o := Handle(parse, Users, old(cache), query, backend);
        response == o.response && cache == o.cache &&
        upstreamRequests == old(upstreamRequests) + Requests(o)
    {
      var start := QueryParam(query.start, DefaultStart);
      var end := QueryParam(query.end, DefaultEnd);
      if !IsValidDateRange(parse, start, end) {
        response := Response(400, Message(InvalidRangeMessage));
        return;
      }
      var key := CacheKey(Users, start, end);
      if backend.getError.Some? {
        response := Response(500, Message(backend.getError.value));
        return;
      }
      if key in cache {
        response := Response(200, cache[key].value);
        return;
      }
      upstreamRequests := upstreamRequests + [Window(start, end)];
      match backend.upstream {
        case Failure(message) =>
          response := Response(500, Message(message));
        case Success(data) =>
          var uniqueUsers := UniqueUsers(ToUsers(data));
          if backend.setError.Some? {
            response := Response(500, Message(backend.setError.value));
          } else {
            cache := cache[key := Entry(UserList(uniqueUsers), CacheTime)];
            response := Response(200, UserList(uniqueUsers));
          }
      }
    }

    /** `GET /most-frequent`: the imperative rendering of `Handle` for the `MostFrequentUsers` route. */
    method GetMostFrequent(query: Query, backend: Backend) returns (response: Response)
      modifies this
      ensures var o := Handle(parse, MostFrequentUsers, old(cache), query, backend);
        response == o.response && cache == o.cache &&
        upstreamRequests == old(upstreamRequests) + Requests(o)
    {
      var start := QueryParam(query.start, DefaultStart);
      var end := QueryParam(query.end, DefaultEnd);
      if !IsValidDateRange(parse, start, end) {
        response := Response(400, Message(InvalidRangeMessage));
        return;
      }
      var key := CacheKey(MostFrequentUsers, start, end);
      if backend.getError.Some? {
        response := Response(500, Message(backend.getError.value));
        return;
      }
      if key in cache {
        response := Response(200, cache[key].value);
        return;
      }
      upstreamRequests := upstreamRequests + [Window(start, end)];
      match backend.upstream {
        case Failure(message) =>
          response := Response(500, Message(message));
        case Success(data) =>
          var mostFrequentUsers := RankContributors(data);
          if backend.setError.Some? {
            response := Response(500, Message(backend.setError.value));
          } else {
            cache := cache[key := Entry(Leaderboard(mostFrequentUsers), CacheTime)];
            response := Response(200, Leaderboard(mostFrequentUsers));
          }
      }
    }

    /** The backing store drops an entry whose time to live has run out. */
    method Expire(key: string)
      modifies this
      ensures cache == old(cache) - {key}
      ensures upstreamRequests == old(upstreamRequests)
    {
      cache := cache - {key};
    }
  }

  // ---------------------------------------------------------------------------
  // Cache keys
  // ---------------------------------------------------------------------------

  /** A `/users` key and a `/most-frequent` key never collide, whatever the windows. */
  lemma CacheKeysDisjoint(start: string, end: string, start': string, end': string)
    ensures CacheKey(Users, start, end) != CacheKey(MostFrequentUsers, start', end')
  {
    assert CacheKey(Users, start, end)[0] == 'u';
    assert CacheKey(MostFrequentUsers, start', end')[0] == 'm';
  }

  /** Within one route, distinct windows get distinct keys as long as the start holds no `:`. */
  lemma CacheKeyInjective(route: Route, start: string, end: string, start': string, end': string)
    requires ':' !in start && ':' !in start'
    requires CacheKey(route, start, end) == CacheKey(route, start', end')
    ensures start == start' && end == end'
  {
    var prefix := if route.Users? then "users:" else "most-frequent:";
    var k, k' := CacheKey(route, start, end), CacheKey(route, start', end');
    var p := |prefix|;
    assert k == prefix + (start + ":" + end) && k' == prefix + (start' + ":" + end');
    assert forall i :: 0 <= i < |start| ==> k[p + i] == start[i];
    assert forall i :: 0 <= i < |start'| ==> k'[p + i] == start'[i];
    assert k[p + |start|] == ':' && k'[p + |start'|] == ':';
    if |start| < |start'| {
      assert false;
    } else if |start'| < |start| {
      assert false;
    }
    assert start == k[p..p + |start|] == start';
    assert end == k[p + |start| + 1..] == end';
  }

  /** With a `:` in the start date, two different windows share one key. */
  lemma CacheKeyCollision()
    ensures CacheKey(Users, "2020-01-01T10:00", "2020-02-01")
         == CacheKey(Users, "2020-01-01T10", "00:2020-02-01")
  {
  }

  // ---------------------------------------------------------------------------
  // Request handling
  // ---------------------------------------------------------------------------

  /** An absent or empty `start` or `end` is handled exactly as the default date. */
  lemma HandleDefaults(parse: string -> Option<int>, route: Route, cache: map<string, Entry>,
                       start: Option<string>, end: Option<string>, backend: Backend)
    requires start.None? || start == Some("")
    requires end.None? || end == Some("")
    ensures Handle(parse, route, cache, Query(start, end), backend)
         == Handle(parse, route, cache, Query(Some(DefaultStart), Some(DefaultEnd)), backend)
  {
  }

  /** An invalid window gives 400 `Invalid date range` and touches neither the cache nor GitHub. */
  lemma HandleRejectsInvalidRange(parse: string -> Option<int>, route: Route, cache: map<string, Entry>,
                                  query: Query, backend: Backend)
    requires !IsValidDateRange(parse, QueryParam(query.start, DefaultStart), QueryParam(query.end, DefaultEnd))
    ensures var o := Handle(parse, route, cache, query, backend);
      o.response == Response(400, Message("Invalid date range")) && o.cache == cache && o.request.None?
  {
  }

  /** A cache hit answers with the stored value as it is, and nothing is fetched or written. */
  lemma HandleHit(parse: string -> Option<int>, route: Route, cache: map<string, Entry>,
                  query: Query, backend: Backend)
    requires var start, end := QueryParam(query.start, DefaultStart), QueryParam(query.end, DefaultEnd);
      IsValidDateRange(parse, start, end) && backend.getError.None? && CacheKey(route, start, end) in cache
    ensures var o := Handle(parse, route, cache, query, backend);
      var key := CacheKey(route, QueryParam(query.start, DefaultStart), QueryParam(query.end, DefaultEnd));
      o.response == Response(200, cache[key].value) && o.cache == cache && o.request.None?
  {
  }

  /**
   * A miss whose fetch and write succeed asks GitHub for exactly the
   * requested window, stores the aggregate under the route's key with the
   * cache time, returns that same value, and changes no other key.
   */
  lemma HandleMiss(parse: string -> Option<int>, route: Route, cache: map<string, Entry>,
                   query: Query, data: seq<CommitRecord>)
    requires var start, end := QueryParam(query.start, DefaultStart), QueryParam(query.end, DefaultEnd);
      IsValidDateRange(parse, start, end) && CacheKey(route, start, end) !in cache
    ensures var start, end := QueryParam(query.start, DefaultStart), QueryParam(query.end, DefaultEnd);
      var key := CacheKey(route, start, end);
      var o := Handle(parse, route, cache, query, Backend(None, Success(data), None));
      && o.response == Response(200, Aggregate(route, data))
      && o.request == Some(Window(start, end))
      && key in o.cache && o.cache[key] == Entry(o.response.body, CacheTime)
      && (forall k :: k != key ==> (k in o.cache <==> k in cache))
      && (forall k :: k != key && k in cache ==> o.cache[k] == cache[k])
  {
  }

  /**
   * A failed cache read, GitHub fetch or cache write gives 500 with the
   * error's message, and nothing is written to the cache.
   */
  lemma HandleFailure(parse: string -> Option<int>, route: Route, cache: map<string, Entry>,
                      query: Query, backend: Backend)
    requires IsValidDateRange(parse, QueryParam(query.start, DefaultStart), QueryParam(query.end, DefaultEnd))
    ensures var o := Handle(parse, route, cache, query, backend);
      var key := CacheKey(route, QueryParam(query.start, DefaultStart), QueryParam(query.end, DefaultEnd));
      && (backend.getError.Some? ==> o.response == Response(500, Message(backend.getError.value)))
      && (backend.getError.None? && key !in cache && backend.upstream.Failure? ==>
            o.response == Response(500, Message(backend.upstream.message)))
      && (backend.getError.None? && key !in cache && backend.upstream.Success? && backend.setError.Some? ==>
            o.response == Response(500, Message(backend.setError.value)))
      && (o.response.status == 500 ==> o.cache == cache)
  {
  }

  /**
   * A request answers 200 exactly when the window is valid, the cache read
   * succeeds, and either the key is cached or both the fetch and the write
   * succeed; otherwise it answers 400 or 500.
   */
  lemma HandleStatus(parse: string -> Option<int>, route: Route, cache: map<string, Entry>,
                     query: Query, backend: Backend)
    ensures var o := Handle(parse, route, cache, query, backend);
      var start, end := QueryParam(query.start, DefaultStart), QueryParam(query.end, DefaultEnd);
      && (o.response.status == 200 <==>
            IsValidDateRange(parse, start, end) && backend.getError.None? &&
            (CacheKey(route, start, end) in cache || (backend.upstream.Success? && backend.setError.None?)))
      && (o.response.status == 400 <==> !IsValidDateRange(parse, start, end))
      && o.response.status in {200, 400, 500}
  {
  }

  /**
   * Read-through: once a request has been answered with 200 from a fresh
   * fetch, the same request answers with the same response from the cache,
   * whatever GitHub would now return, and fetches nothing.
   */
  lemma RepeatServedFromCache(parse: string -> Option<int>, route: Route, cache: map<string, Entry>,
                              query: Query, first: Backend, second: Backend)
    requires Handle(parse, route, cache, query, first).response.status == 200
    requires second.getError.None?
    ensures var o1 := Handle(parse, route, cache, query, first);
      var o2 := Handle(parse, route, o1.cache, query, second);
      o2.response == o1.response && o2.cache == o1.cache && o2.request.None?
  {
  }
}
