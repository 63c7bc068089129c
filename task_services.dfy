/** The client's data service: the URLs it requests and the query
    parameters it sends for a filter record. */
module TaskServices {
  import opened Wrappers
  import opened TaskSchema
  import opened TaskQuery

  const DEFAULT_API_URL: string := "http://localhost:3500/api/tasks"

  /** The API base URL: the configured one, unless it is unset or empty. */
  function ApiUrl(configured: Option<string>): (url: string)
    ensures configured.Some? && configured.value != "" ==> url == configured.value
    ensures configured.None? || configured.value == "" ==> url == DEFAULT_API_URL
  {
    if configured.Some? && configured.value != "" then configured.value else DEFAULT_API_URL
  }

  /** The client's filter record. An empty string stands for an unset
      (falsy) text filter; `completed` is unset, true or false. */
  datatype Filters = Filters(
    completed: Option<bool>,
    priority: string,
    category: string,
    search: string,
    sortBy: string,
    sortOrder: string)

  /** `String(b)`. */
  function BoolText(b: bool): string {
    if b then "true" else "false"
  }

  /** The value a truthy text filter sends, or nothing. */
  function TextParam(s: string): Option<string> {
    if s != "" then Some(s) else None
  }

  /** The order in which the service appends the keys. */
  const PARAM_KEYS: seq<string> := ["completed", "priority", "category", "search", "sortBy", "sortOrder"]

  /** The position of a key in `PARAM_KEYS`, or |PARAM_KEYS| for other keys. */
  function KeyRank(key: string): (r: nat)
    ensures r <= |PARAM_KEYS|
    ensures r < |PARAM_KEYS| ==> PARAM_KEYS[r] == key
  {
    if key == "completed" then 0
    else if key == "priority" then 1
    else if key == "category" then 2
    else if key == "search" then 3
    else if key == "sortBy" then 4
    else if key == "sortOrder" then 5
    else 6
  }

  /** What the service promises about the parameters it sends for `f`:
      only the known keys, in their fixed order and each at most once;
      `completed` whenever it is set, true or false; the other keys only
      when non-empty; each with the filter's value. */
  predicate ParamsFor(f: Filters, params: seq<Param>) {
    && (forall i :: 0 <= i < |params| ==> KeyRank(params[i].0) < |PARAM_KEYS|)
    && (forall i, j :: 0 <= i < j < |params| ==> KeyRank(params[i].0) < KeyRank(params[j].0))
    && Lookup(params, "completed") == (if f.completed.Some? then Some(BoolText(f.completed.value)) else None)
    && Lookup(params, "priority") == TextParam(f.priority)
    && Lookup(params, "category") == TextParam(f.category)
    && Lookup(params, "search") == TextParam(f.search)
    && Lookup(params, "sortBy") == TextParam(f.sortBy)
    && Lookup(params, "sortOrder") == TextParam(f.sortOrder)
  }

  /** Nothing in `f` is sent. */
  predicate SendsNothing(f: Filters) {
    f.completed.None? && f.priority == "" && f.category == "" && f.search == ""
    && f.sortBy == "" && f.sortOrder == ""
  }

  /** Appending a pair leaves earlier keys as they were and defines the
      new key if it was not yet present. */
  lemma {:induction false} LookupAppend(params: seq<Param>, p: Param)
    ensures forall key :: (Lookup(params + [p], key) ==
      if Lookup(params, key).Some? then Lookup(params, key) else if p.0 == key then Some(p.1) else None)
  {
    if params != [] {
      LookupAppend(params[1..], p);
      assert (params + [p])[1..] == params[1..] + [p];
    }
  }

  /** Parameters as promised send, for the key at position `n`, what `f`
      asks for. */
  lemma SentLookup(f: Filters, params: seq<Param>, n: nat)
    requires n < |PARAM_KEYS| && ParamsFor(f, params)
    ensures Lookup(params, PARAM_KEYS[n]) == Sent(f, n)
  {
  }

  /** `key=value` pairs joined by `&`. Percent-encoding is not modelled. */
  function QueryString(params: seq<Param>): (r: string)
    ensures r == "" <==> params == []
  {
    if params == [] then ""
    else if |params| == 1 then params[0].0 + "=" + params[0].1
    else params[0].0 + "=" + params[0].1 + "&" + QueryString(params[1..])
  }

  /** The value `f` sends for the key at position `n` of `PARAM_KEYS`. */
  function Sent(f: Filters, n: nat): Option<string>
    requires n < |PARAM_KEYS|
  {
    if n == 0 then (if f.completed.Some? then Some(BoolText(f.completed.value)) else None)
    else if n == 1 then TextParam(f.priority)
    else if n == 2 then TextParam(f.category)
    else if n == 3 then TextParam(f.search)
    else if n == 4 then TextParam(f.sortBy)
    else TextParam(f.sortOrder)
  }

  /** The keys before position `n` have been appended as `f` asks, in
      order, and no later key yet. */
  ghost predicate SentUpTo(f: Filters, params: seq<Param>, n: nat)
    requires n <= |PARAM_KEYS|
  {
    && (forall i :: 0 <= i < |params| ==> KeyRank(params[i].0) < n)
    && (forall i, j :: 0 <= i < j < |params| ==> KeyRank(params[i].0) < KeyRank(params[j].0))
    && (forall r :: 0 <= r < n ==> Lookup(params, PARAM_KEYS[r]) == Sent(f, r))
  }

  /** One conditional `append`: the key at position `n` is appended when
      `f` sends it. */
  lemma SendStep(f: Filters, before: seq<Param>, after: seq<Param>, n: nat)
    requires n < |PARAM_KEYS| && SentUpTo(f, before, n)
    requires after == if Sent(f, n).Some? then before + [(PARAM_KEYS[n], Sent(f, n).value)] else before
    ensures SentUpTo(f, after, n + 1)
  {
    var key := PARAM_KEYS[n];
    RankOfKey(n);
    forall i | 0 <= i < |before| ensures before[i].0 != key {
      assert KeyRank(before[i].0) < n;
    }
    LookupAbsent(before, key);
    if Sent(f, n).Some? {
      LookupAppend(before, (key, Sent(f, n).value));
      forall r | 0 <= r < n + 1 ensures Lookup(after, PARAM_KEYS[r]) == Sent(f, r) {
        RankOfKey(r);
      }
    }
  }

  /** Once every key has had its turn, the parameters are as promised. */
  lemma SentAll(f: Filters, params: seq<Param>)
    requires SentUpTo(f, params, |PARAM_KEYS|)
    ensures ParamsFor(f, params)
  {
    assert Lookup(params, PARAM_KEYS[0]) == Sent(f, 0);
    assert Lookup(params, PARAM_KEYS[1]) == Sent(f, 1);
    assert Lookup(params, PARAM_KEYS[2]) == Sent(f, 2);
    assert Lookup(params, PARAM_KEYS[3]) == Sent(f, 3);
    assert Lookup(params, PARAM_KEYS[4]) == Sent(f, 4);
    assert Lookup(params, PARAM_KEYS[5]) == Sent(f, 5);
  }

  /** No parameter is sent exactly when no filter is set. */
  lemma NothingSentIsEmpty(f: Filters, params: seq<Param>)
    requires ParamsFor(f, params)
    ensures params == [] <==> SendsNothing(f)
  {
    if params != [] {
      var key := params[0].0;
      assert Lookup(params, key).Some?;
      RankOfKey(KeyRank(key));
    }
  }

  /** Each key's rank is its position. */
  lemma RankOfKey(n: nat)
    requires n < |PARAM_KEYS|
    ensures KeyRank(PARAM_KEYS[n]) == n
  {
  }

  /** The pair `f` contributes for the key at position `n`, if any. */
  function Part(f: Filters, n: nat): seq<Param>
    requires n < |PARAM_KEYS|
  {
    if Sent(f, n).Some? then [(PARAM_KEYS[n], Sent(f, n).value)] else []
  }

  /** The six conditional appends, one after the other, send what `f`
      asks for. */
  lemma PartsSent(f: Filters)
    ensures var params := Part(f, 0) + Part(f, 1) + Part(f, 2) + Part(f, 3) + Part(f, 4) + Part(f, 5);
      ParamsFor(f, params) && (params == [] <==> SendsNothing(f))
  {
    var p0 := Part(f, 0);
    SendStep(f, [], p0, 0);
    var p1 := p0 + Part(f, 1);
    SendStep(f, p0, p1, 1);
    var p2 := p1 + Part(f, 2);
    SendStep(f, p1, p2, 2);
    var p3 := p2 + Part(f, 3);
    SendStep(f, p2, p3, 3);
    var p4 := p3 + Part(f, 4);
    SendStep(f, p3, p4, 4);
    var p5 := p4 + Part(f, 5);
    SendStep(f, p4, p5, 5);
    SentAll(f, p5);
    NothingSentIsEmpty(f, p5);
  }

  /** `getTasks(filters)`: appends the set filters one by one, then requests
      the base URL, with the query string when there is one. */
  method GetTasks(apiUrl: string, f: Filters) returns (params: seq<Param>, url: string)
    ensures ParamsFor(f, params)
    ensures params == [] <==> SendsNothing(f)
    ensures params == [] ==> url == apiUrl
    ensures params != [] ==> url == apiUrl + ("?" + QueryString(params))
  {
    params := [];
    if f.completed.Some? {
      params := params + [("completed", BoolText(f.completed.value))];
    }
    ghost var sent := Part(f, 0);
    assert params == sent;
    if f.priority != "" {
      params := params + [("priority", f.priority)];
    }
    sent := sent + Part(f, 1);
    assert params == sent;
    if f.category != "" {
      params := params + [("category", f.category)];
    }
    sent := sent + Part(f, 2);
    assert params == sent;
    if f.search != "" {
      params := params + [("search", f.search)];
    }
    sent := sent + Part(f, 3);
    assert params == sent;
    if f.sortBy != "" {
      params := params + [("sortBy", f.sortBy)];
    }
    sent := sent + Part(f, 4);
    assert params == sent;
    if f.sortOrder != "" {
      params := params + [("sortOrder", f.sortOrder)];
    }
    sent := sent + Part(f, 5);
    assert params == sent;
    PartsSent(f);
    var queryString := QueryString(params);
    url := apiUrl + (if queryString != "" then "?" + queryString else "");
  }

  /** What the filter record asks of a task. */
  predicate FilterSelects(f: Filters, t: Task) {
    && (f.completed.Some? ==> t.completed == f.completed.value)
    && (f.priority != "" ==> t.priority == f.priority)
    && (f.category != "" ==> t.category == f.category)
    && (f.search != "" ==> ContainsIgnoreCase(t.task, f.search))
  }

  /** The filters arrive at the list route as sent: a `completed`
      constraint exactly when the client set one, selecting the same
      boolean, and the route selects exactly the tasks the filter record
      asks for, in the order it asks for. */
  lemma FiltersArrive(f: Filters, params: seq<Param>)
    requires ParamsFor(f, params)
    ensures var query := ListParamsOf(params);
      && (query.completed.Some? <==> f.completed.Some?)
      && (query.completed.Some? ==> (query.completed.value == "true" <==> f.completed.value))
      && (forall t :: Selects(query, t) <==> FilterSelects(f, t))
      && SortOf(query) == SortSpec(if f.sortBy != "" then f.sortBy else "createdAt",
                                   if f.sortOrder == "asc" then 1 else -1)
  {
  }

  /** A request path under the base URL: the collection itself or one
      segment below it (`/stats`, `/:id`). */
  datatype Path = CollectionPath | MemberPath(segment: string)

  /** How the server resolves a URL against the base URL. */
  function Route(apiUrl: string, url: string): Option<Path> {
    if url == apiUrl then Some(CollectionPath)
    else if |url| > |apiUrl| + 1 && url[..|apiUrl|] == apiUrl && url[|apiUrl|] == '/'
            && '/' !in url[|apiUrl| + 1..]
    then Some(MemberPath(url[|apiUrl| + 1..]))
    else None
  }

  /** `getStats`: the `/stats` path under the base URL. */
  function StatsUrl(apiUrl: string): (url: string)
    ensures Route(apiUrl, url) == Some(MemberPath("stats"))
  {
    var url := apiUrl + "/stats";
    assert url[..|apiUrl|] == apiUrl && url[|apiUrl| + 1..] == "stats";
    url
  }

  /** `addTask`: posts to the base URL itself. */
  function AddUrl(apiUrl: string): (url: string)
    ensures Route(apiUrl, url) == Some(CollectionPath)
  {
    apiUrl
  }

  /** `updateTask` and `deleteTask`: the identifier's path under the base
      URL, which the server resolves back to that identifier. */
  function ItemUrl(apiUrl: string, id: Id): (url: string)
    ensures id != "" && '/' !in id ==> Route(apiUrl, url) == Some(MemberPath(id))
  {
    var url := apiUrl + "/" + id;
    assert url[..|apiUrl|] == apiUrl && url[|apiUrl| + 1..] == id;
    url
  }
}
