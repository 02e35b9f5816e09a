/**
 * The single-query route `/query/{path}` of routes/query_routes.py: the checks that answer
 * before the portal is called, the proxy choice, and the two bounded retry loops (with a proxy
 * named by the client, and with one chosen from the configuration) that return early on a
 * success or on the block message and record a successful query in the history.
 */
module QueryRoutes {
  import opened Wrappers
  import opened JsonValues
  import opened RouteCommon
  import opened PySemantics
  import Database

  const UnsupportedType: string := "不是支持的查询类型"
  const ProhibitedContent: string := "不允许的查询内容"
  const MissingSearch: string := "参数错误,请指定search参数"

  /** A request: its method, the `{path}` part of the URL, its query string and its JSON body. */
  datatype Request = Request(httpMethod: string, path: string, query: map<string, string>, body: Json)

  /** The four parameters the route reads: `search`, `pageNum`, `pageSize` and `proxy`. */
  datatype Fields = Fields(search: Json, pageNum: Json, pageSize: Json, proxy: Json)

  /** A row of `search_history` as `add_history` receives it. */
  datatype HistoryRecord = HistoryRecord(searchType: string, keyword: Json, resultCount: nat, resultData: Option<Json>)

  /** `request.query.get(key)`: the text, or `None`. */
  function QueryValue(query: map<string, string>, key: string): (r: Json)
    ensures key in query ==> r == JStr(query[key])
    ensures key !in query ==> r == JNull
  {
    if key in query then JStr(query[key]) else JNull
  }

  /**
   * The parameters of a GET (from the query string) or a POST (from the body, which must be a
   * dict); any other method leaves them unbound, and `None` stands for the `UnboundLocalError`.
   */
  function RequestFields(req: Request): (r: Option<Fields>)
    ensures req.httpMethod == "GET" ==> r == Some(Fields(QueryValue(req.query, "search"), QueryValue(req.query, "pageNum"),
      QueryValue(req.query, "pageSize"), QueryValue(req.query, "proxy")))
    ensures req.httpMethod == "POST" ==> (r.Some? <==> req.body.JObject?)
    ensures req.httpMethod == "POST" && req.body.JObject? ==>
      r.value.search == DictGet(req.body, "search", JNull).value && r.value.proxy == DictGet(req.body, "proxy", JNull).value
    ensures req.httpMethod != "GET" && req.httpMethod != "POST" ==> r == None
  {
    if req.httpMethod == "GET" then
      Some(Fields(QueryValue(req.query, "search"), QueryValue(req.query, "pageNum"),
        QueryValue(req.query, "pageSize"), QueryValue(req.query, "proxy")))
    else if req.httpMethod == "POST" then
      if req.body.JObject? then
        Some(Fields(DictGet(req.body, "search", JNull).value, DictGet(req.body, "pageNum", JNull).value,
          DictGet(req.body, "pageSize", JNull).value, DictGet(req.body, "proxy", JNull).value))
      else None
    else None
  }

  /**
   * The checks before any portal call, in their order: the kind must be a handler key and
   * allowed (102); the parameters must be bound; a search ending with a prohibited suffix is
   * refused (405) before an empty one (101). `endswith` on a search that is not text raises,
   * unless there is no suffix to test.
   */
  function Screen(req: Request, s: Settings): (r: Result<Fields, Reply>)
    ensures !(IsPagedType(req.path) || IsBlacklistType(req.path)) || req.path !in s.allowType ==>
      r == Failure(Body(Message(102, "msg", UnsupportedType)))
    ensures r.Success? ==>
      (IsPagedType(req.path) || IsBlacklistType(req.path)) && req.path in s.allowType &&
      RequestFields(req) == Some(r.value) && Truthy(r.value.search) &&
      (|s.prohibitSuffix| > 0 ==> r.value.search.JStr? && !HasProhibitedSuffix(r.value.search.s, s.prohibitSuffix))
  {
    if !(IsPagedType(req.path) || IsBlacklistType(req.path)) then Failure(Body(Message(102, "msg", UnsupportedType)))
    else if req.path !in s.allowType then Failure(Body(Message(102, "msg", UnsupportedType)))
    else
      match RequestFields(req)
      case None => Failure(Crashed)
      case Some(f) =>
        if |s.prohibitSuffix| > 0 && !f.search.JStr? then Failure(Crashed)
        else if f.search.JStr? && HasProhibitedSuffix(f.search.s, s.prohibitSuffix) then
          Failure(Body(Message(405, "message", ProhibitedContent)))
        else if !Truthy(f.search) then Failure(Body(Message(101, "msg", MissingSearch)))
        else Success(f)
  }

  /**
   * The suffix check comes first: with "" among the prohibited suffixes an empty search is
   * refused with 405, not 101, and a missing search makes `endswith` raise instead of giving 101.
   */
  lemma SuffixCheckBeforeEmptyCheck(req: Request, s: Settings)
    requires IsPagedType(req.path) && req.path in s.allowType
    requires req.httpMethod == "GET" && |s.prohibitSuffix| > 0
    ensures "search" in req.query && req.query["search"] == "" && "" in s.prohibitSuffix ==>
      Screen(req, s) == Failure(Body(Message(405, "message", ProhibitedContent)))
    ensures "search" !in req.query ==> Screen(req, s) == Failure(Crashed)
  {
    if "search" in req.query && req.query["search"] == "" && "" in s.prohibitSuffix {
      var i :| 0 <= i < |s.prohibitSuffix| && s.prohibitSuffix[i] == "";
      assert EndsWith("", s.prohibitSuffix[i]);
    }
  }

  /** With no prohibited suffix at all, a missing or empty search is answered with 101. */
  lemma EmptySearchWithoutSuffixes(req: Request, s: Settings)
    requires IsPagedType(req.path) && req.path in s.allowType
    requires req.httpMethod == "GET" && s.prohibitSuffix == []
    requires "search" !in req.query || req.query["search"] == ""
    ensures Screen(req, s) == Failure(Body(Message(101, "msg", MissingSearch)))
  {
  }

  /**
   * The proxy for attempt `i` when the client named none, in priority order: the IPv6 pool
   * (direct, ""), the tunnel URL, then the extraction API (the local pool when it is maintained
   * automatically, a fresh pick otherwise). An invalid tunnel or API URL is refused.
   */
  function QueryProxy(s: Settings, o: ProxyOracle, i: nat): (r: ProxyPick)
    ensures s.ipv6PoolEnabled ==> r == Use(Some(""))
    ensures !s.ipv6PoolEnabled && s.tunnelUrl != "" ==>
      r == if o.validUrl(s.tunnelUrl) then Use(Some(s.tunnelUrl)) else Refuse(TunnelInvalid)
    ensures !s.ipv6PoolEnabled && s.tunnelUrl == "" && s.extraApiUrl != "" && !o.validUrl(s.extraApiUrl) ==>
      r == Refuse(ApiInvalid)
    ensures !s.ipv6PoolEnabled && s.tunnelUrl == "" && s.extraApiUrl != "" && o.validUrl(s.extraApiUrl) ==>
      var p := if s.autoMaintenance then o.pooled(i) else o.extracted(i);
      r == if p.Some? then Use(p) else ProxyRaised
    ensures s.ipv6PoolEnabled == false && s.tunnelUrl == "" && s.extraApiUrl == "" ==> r == Use(None)
  {
    if s.ipv6PoolEnabled then Use(Some(""))
    else if s.tunnelUrl != "" then
      if o.validUrl(s.tunnelUrl) then Use(Some(s.tunnelUrl)) else Refuse(TunnelInvalid)
    else if s.extraApiUrl != "" then
      if !o.validUrl(s.extraApiUrl) then Refuse(ApiInvalid)
      else
        var p := if s.autoMaintenance then o.pooled(i) else o.extracted(i);
        if p.Some? then Use(p) else ProxyRaised
    else Use(None)
  }

  /** The reply for a proxy choice that does not give a proxy. */
  function PickFailure(pick: ProxyPick): Reply
    requires !pick.Use?
  {
    if pick.Refuse? then Body(Message(500, "message", pick.message)) else Crashed
  }

  /** The call for the kind `path` with the chosen proxy. */
  function CallFor(path: string, f: Fields, proxy: Option<string>): Call {
    if IsPagedType(path) then Paged(path, f.search, f.pageNum, f.pageSize, Given(proxy))
    else Unpaged(path, f.search, Given(proxy))
  }

  /**
   * The number of results recorded for a successful reply: the length of `params.list` for a
   * paged kind, of `params` for a blacklist kind; `None` when that expression raises.
   */
  function HistoryCount(path: string, d: Json): (r: Option<nat>)
    requires d.JObject?
    ensures IsPagedType(path) && "params" !in d.fields ==> r == Some(0)
    ensures !IsPagedType(path) && "params" !in d.fields ==> r == Some(0)
    ensures IsPagedType(path) && "params" in d.fields && d.fields["params"].JObject? &&
            "list" in d.fields["params"].fields && d.fields["params"].fields["list"].JList? ==>
      r == Some(|d.fields["params"].fields["list"].items|)
    ensures !IsPagedType(path) && "params" in d.fields && d.fields["params"].JList? ==>
      r == Some(|d.fields["params"].items|)
  {
    if IsPagedType(path) then
      var p := DictGet(d, "params", JObject(map[])).value;
      var list := DictGet(p, "list", JList([]));
      if list.None? then None else Len(list.value)
    else Len(DictGet(d, "params", JList([])).value)
  }

  /**
   * How the route answers a reply that ends the loop: a success is returned and, with a
   * database, recorded with its count and its `params` (stored only when truthy); the block
   * message is returned as it is; a reply that is not a dict makes `.get` raise.
   */
  ghost predicate Answered(path: string, search: Json, d: Json, hasDb: bool, reply: Reply, history: Option<HistoryRecord>) {
    if !d.JObject? then reply == Crashed && history == None
    else if Ok(d) && hasDb then
      match HistoryCount(path, d)
      case None => reply == Crashed && history == None
      case Some(n) =>
        reply == Body(d) &&
        history == Some(HistoryRecord(path, search, n, Database.StoredResultData(DictGet(d, "params", JNull).value)))
    else reply == Body(d) && history == None
  }

  /** The reply the loop ends with after its last turn: `data` as the last call left it, or as it was before. */
  function LeftOver(initial: Option<Json>, calls: seq<Call>, fetch: Upstream): Reply {
    if |calls| > 0 then Body(fetch(|calls| - 1, calls[|calls| - 1]))
    else if initial.Some? then Body(initial.value)
    else Crashed
  }

  /**
   * What the loop with a proxy named by the client does: at most `retry_times` calls, all with
   * `http://{proxy}`; the first success or block message is returned, else the last reply.
   * With no turn at all, `data` is still the POST body, or unbound after a GET. A blacklist
   * kind has no entry in `appth`, so its first call raises.
   */
  ghost predicate ExplicitLoopRan(path: string, f: Fields, retryTimes: int, fetch: Upstream, initial: Option<Json>,
                                  reply: Reply, calls: seq<Call>)
  {
    && |calls| <= Turns(retryTimes)
    && (forall j :: 0 <= j < |calls| ==> calls[j] == Paged(path, f.search, f.pageNum, f.pageSize, HttpOf(f.proxy)))
    && (forall j :: 0 <= j < |calls| - 1 ==> Continues(fetch(j, calls[j])))
    && (|calls| > 0 && !Continues(fetch(|calls| - 1, calls[|calls| - 1])) ==>
          var d := fetch(|calls| - 1, calls[|calls| - 1]);
          reply == if d.JObject? then Body(d) else Crashed)
    && (|calls| == 0 || Continues(fetch(|calls| - 1, calls[|calls| - 1])) ==>
          if retryTimes > 0 && !IsPagedType(path) then calls == [] && reply == Crashed
          else |calls| == Turns(retryTimes) && reply == LeftOver(initial, calls, fetch))
  }

  /** The loop with a proxy named by the client, as `ExplicitLoopRan` describes it. */
  method ExplicitProxyLoop(path: string, f: Fields, retryTimes: int, fetch: Upstream, initial: Option<Json>)
    returns (reply: Reply, calls: seq<Call>)
    ensures ExplicitLoopRan(path, f, retryTimes, fetch, initial, reply, calls)
  {
    calls := [];
    if retryTimes > 0 && !IsPagedType(path) {
      return Crashed, calls;
    }
    var i := 0;
    while i < retryTimes
      invariant 0 <= i == |calls| <= Turns(retryTimes)
      invariant forall j :: 0 <= j < i ==> calls[j] == Paged(path, f.search, f.pageNum, f.pageSize, HttpOf(f.proxy))
      invariant forall j :: 0 <= j < i ==> Continues(fetch(j, calls[j]))
    {
      var call := Paged(path, f.search, f.pageNum, f.pageSize, HttpOf(f.proxy));
      var d := fetch(i, call);
      calls := calls + [call];
      if !d.JObject? {
        return Crashed, calls;
      }
      if Ok(d) || Blocked(d) {
        return Body(d), calls;
      }
      i := i + 1;
    }
    reply := LeftOver(initial, calls, fetch);
  }

  /**
   * What the loop with a proxy chosen from the configuration on every turn does: at most
   * `retry_times` calls, each with the proxy `QueryProxy` gives for its turn. A refused or
   * failed choice ends the request; a success or the block message is answered as `Answered`
   * says; after the last turn the last reply is returned. Only a success is recorded in the
   * history.
   */
  ghost predicate ProxyLoopRan(path: string, f: Fields, s: Settings, o: ProxyOracle, fetch: Upstream, hasDb: bool,
                               initial: Option<Json>, reply: Reply, calls: seq<Call>, history: Option<HistoryRecord>)
  {
    && |calls| <= Turns(s.retryTimes)
    && (forall j :: 0 <= j < |calls| ==>
          QueryProxy(s, o, j).Use? && calls[j] == CallFor(path, f, QueryProxy(s, o, j).proxy))
    && (forall j :: 0 <= j < |calls| - 1 ==> Continues(fetch(j, calls[j])))
    && (|calls| > 0 && !Continues(fetch(|calls| - 1, calls[|calls| - 1])) ==>
          Answered(path, f.search, fetch(|calls| - 1, calls[|calls| - 1]), hasDb, reply, history))
    && (|calls| == 0 || Continues(fetch(|calls| - 1, calls[|calls| - 1])) ==>
          history == None &&
          if |calls| < Turns(s.retryTimes) then !QueryProxy(s, o, |calls|).Use? && reply == PickFailure(QueryProxy(s, o, |calls|))
          else reply == LeftOver(initial, calls, fetch))
    && (history.Some? ==> hasDb && |calls| > 0 && Ok(fetch(|calls| - 1, calls[|calls| - 1])))
  }

  /** The loop with a proxy chosen from the configuration, as `ProxyLoopRan` describes it. */
  method ProxyLoop(path: string, f: Fields, s: Settings, o: ProxyOracle, fetch: Upstream, hasDb: bool, initial: Option<Json>)
    returns (reply: Reply, calls: seq<Call>, history: Option<HistoryRecord>)
    ensures ProxyLoopRan(path, f, s, o, fetch, hasDb, initial, reply, calls, history)
  {
    calls := [];
    history := None;
    var i := 0;
    while i < s.retryTimes
      invariant 0 <= i == |calls| <= Turns(s.retryTimes)
      invariant forall j :: 0 <= j < i ==> QueryProxy(s, o, j).Use? && calls[j] == CallFor(path, f, QueryProxy(s, o, j).proxy)
      invariant forall j :: 0 <= j < i ==> Continues(fetch(j, calls[j]))
    {
      var pick := QueryProxy(s, o, i);
      if !pick.Use? {
        return PickFailure(pick), calls, None;
      }
      var call := CallFor(path, f, pick.proxy);
      var d := fetch(i, call);
      calls := calls + [call];
      if !Continues(d) {
        reply, history := Answer(path, f.search, d, hasDb);
        return;
      }
      i := i + 1;
    }
    reply := LeftOver(initial, calls, fetch);
  }

  /** The answer to a reply that ends the loop, with the history record it leaves. */
  method Answer(path: string, search: Json, d: Json, hasDb: bool) returns (reply: Reply, history: Option<HistoryRecord>)
    ensures Answered(path, search, d, hasDb, reply, history)
  {
    history := None;
    if !d.JObject? {
      return Crashed, None;
    }
    if Ok(d) && hasDb {
      var count := HistoryCount(path, d);
      if count.None? {
        return Crashed, None;
      }
      history := Some(HistoryRecord(path, search, count.value, Database.StoredResultData(DictGet(d, "params", JNull).value)));
    }
    reply := Body(d);
  }

  /** `data` before the loop: the POST body, or unbound after a GET. */
  function InitialData(req: Request): (r: Option<Json>)
    ensures r.Some? <==> req.httpMethod == "POST"
    ensures r.Some? ==> r.value == req.body
  {
    if req.httpMethod == "POST" then Some(req.body) else None
  }

  /**
   * `geturl`: the screening checks, then the loop with the client's proxy when one is given,
   * else the loop that chooses one. No call is made for a refused request; otherwise the
   * reply, the calls and the history are those of the loop that runs.
   */
  method GetUrl(req: Request, s: Settings, o: ProxyOracle, fetch: Upstream, hasDb: bool)
    returns (reply: Reply, calls: seq<Call>, history: Option<HistoryRecord>)
    ensures |calls| <= Turns(s.retryTimes)
    ensures Screen(req, s).Failure? ==> reply == Screen(req, s).error && calls == [] && history == None
    ensures !(IsPagedType(req.path) || IsBlacklistType(req.path)) || req.path !in s.allowType ==>
      reply == Body(Message(102, "msg", UnsupportedType)) && calls == []
    ensures Screen(req, s).Success? && Screen(req, s).value.proxy != JNull ==>
      history == None &&
      ExplicitLoopRan(req.path, Screen(req, s).value, s.retryTimes, fetch, InitialData(req), reply, calls)
    ensures Screen(req, s).Success? && Screen(req, s).value.proxy == JNull ==>
      ProxyLoopRan(req.path, Screen(req, s).value, s, o, fetch, hasDb, InitialData(req), reply, calls, history)
    ensures history.Some? ==>
      hasDb && |calls| > 0 && Ok(fetch(|calls| - 1, calls[|calls| - 1])) &&
      reply == Body(fetch(|calls| - 1, calls[|calls| - 1])) && history.value.searchType == req.path
    ensures forall j :: 0 <= j < |calls| - 1 ==> Continues(fetch(j, calls[j]))
  {
    var screened := Screen(req, s);
    if screened.Failure? {
      reply, calls, history := screened.error, [], None;
    } else if screened.value.proxy != JNull {
      reply, calls := ExplicitProxyLoop(req.path, screened.value, s.retryTimes, fetch, InitialData(req));
      history := None;
    } else {
      reply, calls, history := ProxyLoop(req.path, screened.value, s, o, fetch, hasDb, InitialData(req));
    }
  }
}
