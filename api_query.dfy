/** `useApiQuery`: a resource key becomes a list of path segments, which is both
    the cache identity handed to the query library and, joined with slashes
    under `/api/`, the URL string passed to `fetch`; the response then settles the query. */
module ApiQuery {
  import opened Js
  import opened Strings

  /** The hook's argument, `string | string[]`. */
  datatype ApiKey = Single(segment: string) | Segments(segments: seq<string>)

  /** What the query function reads of a `fetch` response: whether its status
      is a success, and the value `response.json()` parsed from its body. */
  datatype Response<T> = Response(ok: bool, body: T)

  /** The settled state of a query: the value its query function returned, or
      the error it threw. */
  datatype QueryState<T> = Success(data: T) | Failed(error: JsError)

  /** What the hook hands to the query library for one key. */
  datatype Query<T> = Query(queryKey: seq<string>, state: QueryState<T>)

  const ApiRoot: string := "/api/"
  const FailurePrefix: string := "Failed to fetch data for "

  /** `Array.isArray(key) ? key : [key]`. */
  function Normalize(key: ApiKey): (keys: seq<string>)
    ensures key.Single? ==> keys == [key.segment]
    ensures key.Segments? ==> keys == key.segments
  {
    match key
    case Single(s) => [s]
    case Segments(ss) => ss
  }

  /** `queryKey: keys`: the normalised list is passed through unchanged, so
      the cache identity is the segment list itself, not the path built from it. */
  function QueryKey(key: ApiKey): (id: seq<string>)
    ensures id == Normalize(key)
  {
    Normalize(key)
  }

  /** `/api/${keys.join("/")}`. */
  function RequestPath(keys: seq<string>): (path: string)
    ensures |path| >= |ApiRoot| && path[..|ApiRoot|] == ApiRoot
    ensures path[|ApiRoot|..] == Join(keys, "/")
  {
    ApiRoot + Join(keys, "/")
  }

  /** The query function after `fetch` and `response.json()`: a failing status
      throws an `Error` naming the joined key; a success returns the parsed
      body unchanged. */
  function QueryFn<T>(keys: seq<string>, response: Response<T>): (c: Completion<T>)
    ensures c.Throw? <==> !response.ok
    ensures c.Throw? ==> c.error == Error(FailurePrefix + Join(keys, "/"))
    ensures c.Normal? ==> c.value == response.body
  {
    if !response.ok then Throw(Error(FailurePrefix + Join(keys, "/")))
    else Normal(response.body)
  }

  /** How the query library settles a query from its function's completion. */
  function Settle<T>(c: Completion<T>): (s: QueryState<T>)
    ensures s.Success? <==> c.Normal?
    ensures c.Normal? ==> s.data == c.value
    ensures c.Throw? ==> s.error == c.error
  {
    match c
    case Normal(v) => Success(v)
    case Throw(e) => Failed(e)
  }

  /** The settled state of `useApiQuery(key)`. `fetch` is given as a function
      from request path to response, so every attempt at the same path gets
      the same answer; the query library's retries of a throwing query
      function therefore end in the same state as the first attempt. */
  function UseApiQuery<T>(key: ApiKey, fetch: string -> Response<T>): (q: Query<T>)
    ensures q.queryKey == Normalize(key)
    ensures var response := fetch(ApiRoot + Join(Normalize(key), "/"));
      && (q.state.Success? <==> response.ok)
      && (q.state.Success? ==> q.state.data == response.body)
      && (q.state.Failed? ==> q.state.error == Error(FailurePrefix + Join(q.queryKey, "/")))
  {
    var keys := Normalize(key);
    Query(QueryKey(key), Settle(QueryFn(keys, fetch(RequestPath(keys)))))
  }

  // ---------------------------------------------------------------------------
  // Properties

  /** A string key and the one-element list holding it share one cache entry
      and one path. */
  lemma SingleIsOneSegment(s: string)
    ensures QueryKey(Single(s)) == QueryKey(Segments([s]))
    ensures RequestPath(Normalize(Single(s))) == RequestPath(Normalize(Segments([s])))
  {
  }

  /** Round trip: if no segment holds a slash, splitting the path after
      `/api/` on slashes gives the segments back, in order. The empty segment
      list is excluded: its path `/api/` splits back to `[""]`. */
  lemma PathRoundTrip(keys: seq<string>)
    requires |keys| >= 1
    requires forall i :: 0 <= i < |keys| ==> '/' !in keys[i]
    ensures Split(RequestPath(keys)[|ApiRoot|..], '/') == keys
  {
    SplitJoin(keys, '/');
  }

  /** For slash-free segments, two keys give the same URL string for `fetch`
      only if they are the same cache entry. */
  lemma PathDeterminesCacheKey(a: ApiKey, b: ApiKey)
    requires |Normalize(a)| >= 1 && |Normalize(b)| >= 1
    requires forall i :: 0 <= i < |Normalize(a)| ==> '/' !in Normalize(a)[i]
    requires forall i :: 0 <= i < |Normalize(b)| ==> '/' !in Normalize(b)[i]
    requires RequestPath(Normalize(a)) == RequestPath(Normalize(b))
    ensures QueryKey(a) == QueryKey(b)
  {
    PathRoundTrip(Normalize(a));
    PathRoundTrip(Normalize(b));
  }

  /** Without that condition the path does not identify the entry: `["a/b"]`
      and `["a", "b"]` are two cache entries that give the same URL string. */
  lemma SlashInSegmentSharesPath()
    ensures QueryKey(Segments(["a/b"])) != QueryKey(Segments(["a", "b"]))
    ensures RequestPath(Normalize(Segments(["a/b"]))) == RequestPath(Normalize(Segments(["a", "b"])))
  {
  }

  /** A failing status never gives `Success`; the error message is the fixed
      prefix followed by exactly the part of the path after `/api/`. */
  lemma FailureNamesPath<T>(keys: seq<string>, response: Response<T>)
    requires !response.ok
    ensures var s := Settle(QueryFn(keys, response));
      && s.Failed? && s.error.Error?
      && |s.error.message| >= |FailurePrefix|
      && s.error.message[..|FailurePrefix|] == FailurePrefix
      && s.error.message[|FailurePrefix|..] == RequestPath(keys)[|ApiRoot|..]
  {
  }

  /** For slash-free segments the error message alone identifies the key. */
  lemma FailureMessageRecoversKey<T>(keys: seq<string>, response: Response<T>)
    requires !response.ok
    requires |keys| >= 1
    requires forall i :: 0 <= i < |keys| ==> '/' !in keys[i]
    ensures var e := QueryFn(keys, response).error;
      e.Error? && Split(e.message[|FailurePrefix|..], '/') == keys
  {
    FailureNamesPath(keys, response);
    PathRoundTrip(keys);
  }

  /** The empty key list, like the empty string key, requests the bare root
      `/api/`, while the two stay distinct cache entries. */
  lemma DegenerateKeys()
    ensures RequestPath(Normalize(Segments([]))) == ApiRoot
    ensures RequestPath(Normalize(Single(""))) == ApiRoot
    ensures QueryKey(Segments([])) != QueryKey(Single(""))
  {
  }

  // ---------------------------------------------------------------------------
  // Examples

  lemma WidgetsPath()
    ensures RequestPath(Normalize(Segments(["widgets", "42"]))) == "/api/widgets/42"
  {
  }

  lemma ProfileSucceeds(body: int)
    ensures RequestPath(Normalize(Single("profile"))) == "/api/profile"
    ensures Settle(QueryFn(Normalize(Single("profile")), Response(true, body))) == Success(body)
  {
  }

  lemma OrdersNotFound(body: int)
    ensures Settle(QueryFn(Normalize(Segments(["orders", "7"])), Response(false, body)))
      == Failed(Error("Failed to fetch data for orders/7"))
  {
  }
}
