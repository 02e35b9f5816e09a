/**
 * The batch-query routes of routes/batch_routes.py: the validation of `/create/task`, the
 * task object whose progress fields each entry updates, the per-entry worker with its outer
 * retry loop and inner page loop, the placeholder recorded for an empty result, the final
 * success count and database update, the progress report of `/query/task` and `/delete/task`.
 *
 * The entries of one task are processed one after the other in list order (the semaphore
 * and `asyncio.gather` are left out), and the portal is an input, one function per entry.
 */
module BatchRoutes {
  import opened Wrappers
  import opened JsonValues
  import opened RouteCommon
  import opened PySemantics
  import opened Collections
  import Database
  import QueryRoutes

  /** The largest page the portal serves. */
  const PageSize: nat := 26

  // ---------------------------------------------------------------------------
  // The page loop
  // ---------------------------------------------------------------------------

  /** The call for page `page` of `name`. */
  function PageCall(kind: string, name: Json, page: nat, proxy: Option<string>): Call {
    Paged(kind, name, JInt(page), JInt(PageSize), Given(proxy))
  }

  /** `int(total)` as the comparison `len(all_results) >= total` sees it; `None` when it raises. */
  function TotalValue(v: Json): Option<int> {
    match v
    case JInt(n) => Some(n)
    case JBool(b) => Some(if b then 1 else 0)
    case _ => None
  }

  /**
   * How the page loop reads a reply: `data["code"]` raises when there is no code; any code
   * but 200 is a failed page; a falsy `params.list` is an empty page; otherwise the page's
   * records and its `params.total` (`None` when comparing with it raises).
   */
  datatype PageReply = PageRaises | PageFailed | PageEmpty | PageOf(items: seq<Json>, total: Option<int>)

  function ClassifyPage(d: Json): PageReply {
    match Subscript(d, "code")
    case None => PageRaises
    case Some(code) =>
      if code != JInt(200) then PageFailed
      else
        var p := DictGet(d, "params", JObject(map[])).value;
        match DictGet(p, "list", JList([]))
        case None => PageRaises
        case Some(v) =>
          if !Truthy(v) then PageEmpty
          else if !v.JList? then PageRaises
          else PageOf(v.items, TotalValue(DictGet(p, "total", JInt(0)).value))
  }

  /** The records of the successful pages among `rs`, in order. */
  function Gathered(rs: seq<Json>): seq<Json> {
    if rs == [] then []
    else
      var last := ClassifyPage(rs[|rs| - 1]);
      Gathered(rs[..|rs| - 1]) + (if last.PageOf? then last.items else [])
  }

  /** The number of successful (empty or not) pages among `rs`. */
  function Successes(rs: seq<Json>): nat {
    if rs == [] then 0
    else
      var last := ClassifyPage(rs[|rs| - 1]);
      Successes(rs[..|rs| - 1]) + (if last.PageEmpty? || last.PageOf? then 1 else 0)
  }

  /** The number of failed pages at the end of `rs`, since the last success. */
  function TrailingFailures(rs: seq<Json>): nat {
    if rs == [] || !ClassifyPage(rs[|rs| - 1]).PageFailed? then 0
    else TrailingFailures(rs[..|rs| - 1]) + 1
  }

  /**
   * The page loop goes on after the last reply of `rs`: it failed and fewer than `maxRetry`
   * pages have failed in a row, or it was a full page and fewer records than its total have
   * been gathered.
   */
  ghost predicate KeepsPaging(rs: seq<Json>, all0: seq<Json>, maxRetry: int)
    requires rs != []
  {
    match ClassifyPage(rs[|rs| - 1])
    case PageFailed => TrailingFailures(rs) < maxRetry
    case PageOf(items, total) => total.Some? && |all0 + Gathered(rs)| < total.value && |items| >= PageSize
    case _ => false
  }

  /** Every total the portal reports is at most `maxTotal`. */
  ghost predicate TotalsBounded(fetch: Upstream, maxTotal: nat) {
    forall k, c :: ClassifyPage(fetch(k, c)).PageOf? && ClassifyPage(fetch(k, c)).total.Some? ==>
      ClassifyPage(fetch(k, c)).total.value <= maxTotal
  }

  /** Every reply of `rs` lets the page loop go on. */
  ghost predicate AllKeepPaging(rs: seq<Json>, all0: seq<Json>, maxRetry: int) {
    rs == [] || (AllKeepPaging(rs[..|rs| - 1], all0, maxRetry) && KeepsPaging(rs, all0, maxRetry))
  }

  /**
   * `rs` are the replies to the calls after the first `n` of `calls`, and each of those calls
   * asks for the page after the successful pages before it.
   */
  ghost predicate PagedTrace(calls: seq<Call>, n: nat, rs: seq<Json>, fetch: Upstream, kind: string, name: Json, proxy: Option<string>)
    decreases |rs|
  {
    |calls| == n + |rs| &&
    (rs != [] ==>
      var m := |rs| - 1;
      PagedTrace(calls[..n + m], n, rs[..m], fetch, kind, name, proxy) &&
      calls[n + m] == PageCall(kind, name, 1 + Successes(rs[..m]), proxy) && rs[m] == fetch(n + m, calls[n + m]))
  }

  /** The replies to `calls`, in order. */
  ghost function Replies(fetch: Upstream, calls: seq<Call>): (r: seq<Json>)
    ensures |r| == |calls|
  {
    if calls == [] then [] else Replies(fetch, calls[..|calls| - 1]) + [fetch(|calls| - 1, calls[|calls| - 1])]
  }

  /** One more call adds its reply at the end. */
  lemma RepliesSnoc(fetch: Upstream, calls: seq<Call>, c: Call, r0: seq<Json>, rs: seq<Json>)
    requires Replies(fetch, calls) == r0 + rs
    ensures Replies(fetch, calls + [c]) == r0 + (rs + [fetch(|calls|, c)])
  {
    assert (calls + [c])[..|calls|] == calls;
    assert Replies(fetch, calls + [c]) == Replies(fetch, calls) + [fetch(|calls|, c)];
    assert (r0 + rs) + [fetch(|calls|, c)] == r0 + (rs + [fetch(|calls|, c)]);
  }

  /** How the page loop ended. */
  datatype PagesEnd = PagesCancelled | PagesRaised | PagesEnded(data: Json)

  /**
   * The last reply of `rs` ended the page loop: either reading it raised, or it is returned
   * as `data` and does not let the loop go on.
   */
  ghost predicate Finished(end: PagesEnd, rs: seq<Json>, all0: seq<Json>, maxRetry: int) {
    rs != [] &&
    var last := ClassifyPage(rs[|rs| - 1]);
    match end
    case PagesCancelled => false
    case PagesRaised => last.PageRaises? || (last.PageOf? && last.total.None?)
    case PagesEnded(data) =>
      data == rs[|rs| - 1] && !last.PageRaises? && !(last.PageOf? && last.total.None?) && !KeepsPaging(rs, all0, maxRetry)
  }

  /**
   * The page loop (lines 84-118): pages 1, 2, ... of `name`, each page asked again after a
   * failure until `maxRetry` failures in a row; the records of every successful page are
   * appended to `all`; the loop ends on an empty page, on a page shorter than 26, or once as
   * many records as the page's total have been gathered. `page_num` moves on only after a
   * full page that ends nothing.
   */
  method FetchPages(task: BatchTask, name: Json, proxy: Option<string>, maxRetry: int, fetch: Upstream,
                    calls0: seq<Call>, all0: seq<Json>, ghost maxTotal: nat)
    returns (end: PagesEnd, calls: seq<Call>, all: seq<Json>, ghost rs: seq<Json>)
    requires TotalsBounded(fetch, maxTotal)
    ensures PagedTrace(calls, |calls0|, rs, fetch, task.appname, name, proxy) && calls[..|calls0|] == calls0
    ensures Replies(fetch, calls) == Replies(fetch, calls0) + rs
    ensures all == all0 + Gathered(rs)
    ensures rs != [] ==> AllKeepPaging(rs[..|rs| - 1], all0, maxRetry)
    ensures end.PagesCancelled? <==> task.cancelled
    ensures end.PagesCancelled? ==> rs == []
    ensures !end.PagesCancelled? ==> Finished(end, rs, all0, maxRetry)
  {
    calls := calls0;
    all := all0;
    rs := [];
    end := PagesCancelled;
    var pageNum := 1;
    var retry := 0;
    while true
      invariant PagedTrace(calls, |calls0|, rs, fetch, task.appname, name, proxy) && calls[..|calls0|] == calls0
      invariant Replies(fetch, calls) == Replies(fetch, calls0) + rs
      invariant all == all0 + Gathered(rs)
      invariant pageNum == 1 + Successes(rs) && retry == TrailingFailures(rs)
      invariant AllKeepPaging(rs, all0, maxRetry)
      invariant rs != [] ==> !task.cancelled
      invariant |all| <= |all0| + maxTotal && retry <= Turns(maxRetry)
      decreases |all0| + maxTotal - |all|, Turns(maxRetry) - retry
    {
      if task.cancelled {
        break;
      }
      var call := PageCall(task.appname, name, pageNum, proxy);
      var d := fetch(|calls|, call);
      PageStep(calls, |calls0|, rs, fetch, task.appname, name, proxy, call, d);
      TraceSnoc(rs, d, all0, maxRetry);
      RepliesSnoc(fetch, calls, call, Replies(fetch, calls0), rs);
      calls := calls + [call];
      rs := rs + [d];
      var page := ClassifyPage(d);
      if page.PageOf? {
        all := all + page.items;
      }
      retry := if page.PageFailed? then retry + 1 else 0;
      if page.PageRaises? || (page.PageOf? && page.total.None?) {
        end := PagesRaised;
        assert Finished(end, rs, all0, maxRetry);
        break;
      }
      var more := if page.PageFailed? then retry < maxRetry
                  else page.PageOf? && |all| < page.total.value && |page.items| >= PageSize;
      if !more {
        end := PagesEnded(d);
        assert Finished(end, rs, all0, maxRetry);
        break;
      }
      if !page.PageFailed? {
        pageNum := pageNum + 1;
      }
    }
  }

  /** One more page call keeps the trace. */
  lemma PageStep(calls: seq<Call>, n: nat, rs: seq<Json>, fetch: Upstream, kind: string, name: Json,
                 proxy: Option<string>, call: Call, d: Json)
    requires PagedTrace(calls, n, rs, fetch, kind, name, proxy) && calls[..n] == calls[..n]
    requires call == PageCall(kind, name, 1 + Successes(rs), proxy) && d == fetch(|calls|, call)
    ensures PagedTrace(calls + [call], n, rs + [d], fetch, kind, name, proxy)
    ensures (calls + [call])[..n] == calls[..n]
  {
    assert (calls + [call])[..n + |rs|] == calls;
    assert (rs + [d])[..|rs|] == rs;
  }

  /** What one more reply adds to the page loop's counters and records. */
  lemma TraceSnoc(rs: seq<Json>, d: Json, all0: seq<Json>, maxRetry: int)
    ensures var page := ClassifyPage(d);
      && all0 + Gathered(rs + [d]) == (all0 + Gathered(rs)) + (if page.PageOf? then page.items else [])
      && Successes(rs + [d]) == Successes(rs) + (if page.PageEmpty? || page.PageOf? then 1 else 0)
      && TrailingFailures(rs + [d]) == (if page.PageFailed? then TrailingFailures(rs) + 1 else 0)
      && (AllKeepPaging(rs + [d], all0, maxRetry) <==> AllKeepPaging(rs, all0, maxRetry) && KeepsPaging(rs + [d], all0, maxRetry))
  {
    assert (rs + [d])[..|rs|] == rs;
    var page := ClassifyPage(d);
    assert all0 + (Gathered(rs) + (if page.PageOf? then page.items else [])) ==
           (all0 + Gathered(rs)) + (if page.PageOf? then page.items else []);
  }

  // ---------------------------------------------------------------------------
  // One attempt for one entry
  // ---------------------------------------------------------------------------

  /**
   * The proxy for attempt `i` of an entry (lines 58-73): the IPv6 pool, the tunnel URL when
   * set and valid, then the extraction API when set and valid; an invalid URL is passed over.
   */
  function BatchProxy(s: Settings, o: ProxyOracle, i: nat): (r: ProxyPick)
    ensures !r.Refuse?
  {
    if s.ipv6PoolEnabled then Use(Some(""))
    else if s.tunnelUrl != "" && o.validUrl(s.tunnelUrl) then Use(Some(s.tunnelUrl))
    else if s.extraApiUrl != "" && o.validUrl(s.extraApiUrl) then
      var p := if s.autoMaintenance then o.pooled(i) else o.extracted(i);
      if p.Some? then Use(p) else ProxyRaised
    else Use(None)
  }

  /**
   * The batch worker and the single query choose the same proxy, except where the single
   * query refuses an invalid URL: the worker then passes over an invalid tunnel URL as if it
   * were unset, and makes a direct call for an invalid API URL.
   */
  lemma ProxyChoicesAgree(s: Settings, o: ProxyOracle, i: nat)
    ensures !QueryRoutes.QueryProxy(s, o, i).Refuse? ==> BatchProxy(s, o, i) == QueryRoutes.QueryProxy(s, o, i)
    ensures QueryRoutes.QueryProxy(s, o, i) == Refuse(TunnelInvalid) ==> BatchProxy(s, o, i) == BatchProxy(s.(tunnelUrl := ""), o, i)
    ensures QueryRoutes.QueryProxy(s, o, i) == Refuse(ApiInvalid) ==> BatchProxy(s, o, i) == Use(None)
  {
    if QueryRoutes.QueryProxy(s, o, i) == Refuse(TunnelInvalid) {
      assert TunnelInvalid[4] != ApiInvalid[4];
    }
  }

  /** `{"code": 200, "params": {"list": all, "total": len(all)}}`. */
  function GatheredReply(all: seq<Json>): Json {
    Dict2("code", JInt(200), "params", Dict2("list", JList(all), "total", JInt(|all|)))
  }

  /**
   * The reply once the page loop is over (lines 121-125): with records gathered, they replace
   * `params.list` when `params` is truthy (which raises unless it is a dict), or a success
   * reply carrying them is built. `None` stands for the exception.
   */
  function Merged(d: Json, all: seq<Json>): (r: Option<Json>)
    requires d.JObject?
    ensures all == [] ==> r == Some(d)
    ensures all != [] && r.Some? ==> ListOf(r.value) == Some(JList(all))
  {
    if all == [] then Some(d)
    else
      var p := DictGet(d, "params", JNull).value;
      if !Truthy(p) then Some(GatheredReply(all))
      else if p.JObject? then Some(JObject(d.fields["params" := JObject(p.fields["list" := JList(all)])]))
      else None
  }

  /** `data.get("params", {}).get("list", [])`; `None` when it raises. */
  function ListOf(d: Json): Option<Json> {
    match DictGet(d, "params", JObject(map[]))
    case None => None
    case Some(p) => DictGet(p, "list", JList([]))
  }

  /** What the worker does with the reply of an attempt. */
  datatype Handling = HandleRaises | HandleRetry | HandleRecord(data: Json)

  /**
   * The response handling (lines 128-145): a code-500 reply is retried unless records were
   * gathered, in which case it becomes a success carrying them (the test of its message
   * raises when the message is not a container); a code-200 reply is recorded; any other
   * code is retried.
   */
  function Handle(d: Json, all: seq<Json>): (r: Handling)
    ensures r.HandleRaises? ==> !d.JObject? || DictGet(d, "code", JNull) == Some(JInt(500))
    ensures Ok(d) ==> r == HandleRecord(d)
    ensures r.HandleRecord? ==> Ok(r.data) && (r.data == d || (all != [] && r.data == GatheredReply(all)))
    ensures DictGet(d, "code", JNull) == Some(JInt(500)) && all == [] ==> !r.HandleRecord?
    ensures d.JObject? && DictGet(d, "code", JNull) != Some(JInt(500)) && !Ok(d) ==> r.HandleRetry?
  {
    if !d.JObject? then HandleRaises
    else if DictGet(d, "code", JNull) == Some(JInt(500)) then
      var m := DictGet(d, "message", JStr("")).value;
      if !(m.JStr? || m.JList? || m.JObject?) then HandleRaises
      else if all != [] then HandleRecord(GatheredReply(all))
      else HandleRetry
    else if DictGet(d, "code", JNull) == Some(JInt(200)) then HandleRecord(d)
    else HandleRetry
  }

  /** The keys of the web placeholder record other than `domain`. */
  const WebKeys: seq<string> := ["contentTypeName", "domainId", "leaderName", "limitAccess", "mainId", "mainLicence",
    "natureName", "serviceId", "serviceLicence", "unitName", "updateRecordTime"]

  /** The keys of the app placeholder record other than `serviceName`. */
  const AppKeys: seq<string> := ["cityId", "countyId", "dataId", "leaderName", "mainId", "mainLicence", "mainUnitAddress",
    "mainUnitCertNo", "mainUnitCertType", "natureId", "natureName", "provinceId", "serviceId", "serviceLicence",
    "serviceType", "unitName", "updateRecordTime", "version"]

  /** A record with every key of `keys` set to `None`. */
  function NullRecord(keys: seq<string>): (r: map<string, Json>)
    ensures r.Keys == Elements(keys)
    ensures forall k :: k in r ==> r[k] == JNull
  {
    if keys == [] then map[]
    else
      assert Elements(keys) == Elements(keys[..|keys| - 1]) + {keys[|keys| - 1]} by {
        assert keys == keys[..|keys| - 1] + [keys[|keys| - 1]];
      }
      NullRecord(keys[..|keys| - 1])[keys[|keys| - 1] := JNull]
  }

  /**
   * The record stored for an entry whose result list is empty (lines 153-166): one record
   * naming the entry under `domain` for web, under `serviceName` for the app kinds, and a
   * blacklist record otherwise; every other field is `None`.
   */
  function Placeholder(kind: string, name: Json): (r: Json)
    ensures r.JList? && |r.items| == 1 && r.items[0].JObject?
    ensures var key := PlaceholderKey(kind); var rec := r.items[0].fields;
      key in rec && rec[key] == name && forall k :: k in rec && k != key ==> rec[k] == JNull
  {
    if kind == "web" then JList([JObject(NullRecord(WebKeys)["domain" := name])])
    else if kind == "app" || kind == "mapp" || kind == "kapp" then JList([JObject(NullRecord(AppKeys)["serviceName" := name])])
    else JList([JObject(NullRecord(["blacklistLevel"])["serviceName" := name])])
  }

  /** The field of the placeholder record that carries the entry. */
  function PlaceholderKey(kind: string): string {
    if kind == "web" then "domain" else "serviceName"
  }

  /**
   * The entry appended to `task.domains` for a recorded reply (lines 151-171): the placeholder
   * when the result list is empty, `params` for a blacklist kind, `params.list` otherwise;
   * `None` when reading the list or its length raises. An entry is never empty.
   */
  function DomainEntry(kind: string, name: Json, d: Json): (r: Option<Json>)
    ensures r.Some? ==> Len(r.value).Some? && Len(r.value).value > 0 && Truthy(r.value)
    ensures r.Some? && ListOf(d) == Some(JList([])) ==> r.value == Placeholder(kind, name)
    ensures r.Some? && !IsBlacklistType(kind) && ListOf(d).Some? && ListOf(d).value.JList? && ListOf(d).value.items != [] ==>
      r.value == ListOf(d).value
  {
    match ListOf(d)
    case None => None
    case Some(list) =>
      match Len(list)
      case None => None
      case Some(n) =>
        var e :=
          if n == 0 then Placeholder(kind, name)
          else if IsBlacklistType(kind) then d.fields["params"]
          else d.fields["params"].fields["list"];
        TruthyIsNonEmpty(e);
        assert n > 0 && IsBlacklistType(kind) ==> "list" in e.fields;
        Some(e)
  }

  /** The per-entry progress fields a batch task object keeps. */
  class BatchTask {
    var curpro: nat
    const numpro: nat
    var domains: seq<Json>
    var queryKeywords: seq<Json>
    const appname: string
    var cancelled: bool
    var completed: bool

    /** One keyword and one stored entry per recorded entry, and every stored entry non-empty. */
    ghost predicate Consistent()
      reads this
    {
      |queryKeywords| == curpro && |domains| == curpro &&
      forall j :: 0 <= j < |domains| ==> Len(domains[j]).Some? && Len(domains[j]).value > 0 && Truthy(domains[j])
    }

    constructor(numpro: nat, appname: string)
      ensures this.numpro == numpro && this.appname == appname
      ensures curpro == 0 && domains == [] && queryKeywords == [] && !cancelled && !completed
      ensures Consistent()
    {
      this.numpro := numpro;
      this.appname := appname;
      curpro := 0;
      domains := [];
      queryKeywords := [];
      cancelled := false;
      completed := false;
    }

    /**
     * Recording a success, in the corrected order: the entry is computed first, and only if
     * that does not raise is the entry counted, its keyword kept and its result stored.
     */
    method Record(name: Json, d: Json) returns (ok: bool)
      requires Consistent()
      modifies this
      ensures Consistent()
      ensures ok <==> DomainEntry(appname, name, d).Some?
      ensures ok ==>
        curpro == old(curpro) + 1 && queryKeywords == old(queryKeywords) + [name] &&
        domains == old(domains) + [DomainEntry(appname, name, d).value]
      ensures !ok ==> curpro == old(curpro) && queryKeywords == old(queryKeywords) && domains == old(domains)
      ensures cancelled == old(cancelled) && completed == old(completed)
    {
      var entry := DomainEntry(appname, name, d);
      if entry.None? {
        return false;
      }
      curpro := curpro + 1;
      queryKeywords := queryKeywords + [name];
      domains := domains + [entry.value];
      ok := true;
    }

    /**
     * Recording a success as lines 146-171 are written: the count and the keyword are updated
     * before the result list is read, so when reading it raises they stay updated although
     * nothing is stored, and the retry that follows can count the same entry again.
     */
    method RecordAsWritten(name: Json, d: Json) returns (ok: bool)
      modifies this
      ensures curpro == old(curpro) + 1 && queryKeywords == old(queryKeywords) + [name]
      ensures ok <==> DomainEntry(appname, name, d).Some?
      ensures domains == old(domains) + (if ok then [DomainEntry(appname, name, d).value] else [])
      ensures cancelled == old(cancelled) && completed == old(completed)
    {
      curpro := curpro + 1;
      queryKeywords := queryKeywords + [name];
      var entry := DomainEntry(appname, name, d);
      if entry.None? {
        return false;
      }
      domains := domains + [entry.value];
      ok := true;
    }
  }

  /** How one turn of the outer retry loop ended. */
  datatype AttemptEnd = Stop | Again | Recorded

  /**
   * What one turn of the outer retry loop did: the calls made and the records gathered
   * before it and after it, the replies it received, and the reply it handed to the response
   * handling (`None` when the turn ended before that, by an exception).
   */
  datatype Turn = Turn(calls0: seq<Call>, all0: seq<Json>, calls: seq<Call>, all: seq<Json>, rs: seq<Json>, reply: Option<Json>)

  /**
   * The page loop of a turn ran to its end: every reply but the last let it go on, and the
   * last did not, or raised.
   */
  ghost predicate PagesRanOut(rs: seq<Json>, all0: seq<Json>, maxRetry: int) {
    && rs != []
    && AllKeepPaging(rs[..|rs| - 1], all0, maxRetry)
    && var last := ClassifyPage(rs[|rs| - 1]);
       (last.PageRaises? || (last.PageOf? && last.total.None?) || !KeepsPaging(rs, all0, maxRetry))
  }

  /** The page loop's last reply is handed on: reading it did not raise. */
  ghost predicate PagesReturned(rs: seq<Json>)
    requires rs != []
  {
    var last := ClassifyPage(rs[|rs| - 1]);
    !last.PageRaises? && !(last.PageOf? && last.total.None?)
  }

  /**
   * Turn `i` for the entry `name` of a kind-`kind` batch task that is not cancelled, as lines
   * 50-125 run it: with no proxy (its choice raised) or a kind with no query, no call and
   * nothing to handle; for a blacklist kind, the one call with the chosen proxy and its reply;
   * for a paged kind, the page loop from page 1 run to its end, its records appended to those
   * gathered before, and its last reply merged with all of them, unless reading or merging
   * it raised.
   */
  ghost predicate TurnSpec(kind: string, name: Json, s: Settings, o: ProxyOracle, fetch: Upstream, i: nat, t: Turn) {
    var pick := BatchProxy(s, o, i);
    && |t.calls0| <= |t.calls| && t.calls[..|t.calls0|] == t.calls0
    && Replies(fetch, t.calls) == Replies(fetch, t.calls0) + t.rs
    && (!pick.Use? || (!IsBlacklistType(kind) && !IsPagedType(kind)) ==>
          t.calls == t.calls0 && t.rs == [] && t.all == t.all0 && t.reply.None?)
    && (pick.Use? && IsBlacklistType(kind) ==>
          var call := Unpaged(kind, name, Given(pick.proxy));
          t.calls == t.calls0 + [call] && t.rs == [fetch(|t.calls0|, call)] && t.all == t.all0 && t.reply == Some(t.rs[0]))
    && (pick.Use? && !IsBlacklistType(kind) && IsPagedType(kind) ==>
          && PagedTrace(t.calls, |t.calls0|, t.rs, fetch, kind, name, pick.proxy)
          && PagesRanOut(t.rs, t.all0, s.retryTimes)
          && t.all == t.all0 + Gathered(t.rs)
          && var last := t.rs[|t.rs| - 1];
             (t.reply.Some? <==> PagesReturned(t.rs) && Merged(last, t.all).Some?)
             && (t.reply.Some? ==> t.reply == Merged(last, t.all)))
  }

  /** The turn records the entry: its reply is handled as a success and the entry to store is read from it. */
  ghost predicate Records(kind: string, name: Json, t: Turn) {
    && t.reply.Some?
    && Handle(t.reply.value, t.all).HandleRecord?
    && DomainEntry(kind, name, Handle(t.reply.value, t.all).data).Some?
  }

  /** The entry a recording turn stores. */
  ghost function StoredEntry(kind: string, name: Json, t: Turn): Json
    requires Records(kind, name, t)
  {
    DomainEntry(kind, name, Handle(t.reply.value, t.all).data).value
  }

  /**
   * The query part of turn `i` (lines 58-125): choose a proxy; call the blacklist query once,
   * or run the page loop and merge the gathered records into its last reply. `reply` is what
   * goes on to the response handling, `None` when an exception (a failed proxy choice
   * included) ends the turn first. Records gathered before stay gathered.
   */
  method Query(task: BatchTask, name: Json, s: Settings, o: ProxyOracle, fetch: Upstream, i: nat,
               calls0: seq<Call>, all0: seq<Json>, ghost maxTotal: nat)
    returns (calls: seq<Call>, all: seq<Json>, ghost rs: seq<Json>, reply: Option<Json>)
    requires TotalsBounded(fetch, maxTotal) && !task.cancelled
    ensures TurnSpec(task.appname, name, s, o, fetch, i, Turn(calls0, all0, calls, all, rs, reply))
    ensures IsPagedType(task.appname) && reply.Some? ==>
      forall h :: h == Handle(reply.value, all) && h.HandleRecord? && DomainEntry(task.appname, name, h.data).Some? ==>
        DomainEntry(task.appname, name, h.data).value == if all == [] then Placeholder(task.appname, name) else JList(all)
  {
    calls, all, rs, reply := calls0, all0, [], None;
    assert Replies(fetch, calls) == Replies(fetch, calls0) + rs;
    var pick := BatchProxy(s, o, i);
    if !pick.Use? {
      return;
    }
    if IsBlacklistType(task.appname) {
      var call := Unpaged(task.appname, name, Given(pick.proxy));
      var data := fetch(|calls|, call);
      RepliesSnoc(fetch, calls, call, Replies(fetch, calls0), rs);
      calls := calls + [call];
      rs := [data];
      reply := Some(data);
    } else if IsPagedType(task.appname) {
      var pages;
      pages, calls, all, rs := FetchPages(task, name, pick.proxy, s.retryTimes, fetch, calls0, all0, maxTotal);
      PagesEndSpec(pages, rs, all0, s.retryTimes);
      if !pages.PagesEnded? {
        return;
      }
      reply := Merged(pages.data, all);
      if reply.Some? {
        PagedEntry(task.appname, name, pages.data, all, reply.value);
      }
    }
  }

  /**
   * One turn of the outer retry loop (lines 50-175) for the entry `name`: stop if the batch task was
   * cancelled; otherwise query, then handle the reply: a success is recorded, anything else
   * leads to the next turn.
   */
  method Attempt(task: BatchTask, name: Json, s: Settings, o: ProxyOracle, fetch: Upstream, i: nat,
                 calls0: seq<Call>, all0: seq<Json>, ghost maxTotal: nat)
    returns (end: AttemptEnd, calls: seq<Call>, all: seq<Json>, ghost rs: seq<Json>, ghost reply: Option<Json>)
    requires TotalsBounded(fetch, maxTotal) && task.Consistent()
    modifies task
    ensures task.Consistent() && task.cancelled == old(task.cancelled) && task.completed == old(task.completed)
    ensures end.Stop? <==> task.cancelled
    ensures end.Stop? ==> calls == calls0 && all == all0
    ensures !task.cancelled ==> TurnSpec(task.appname, name, s, o, fetch, i, Turn(calls0, all0, calls, all, rs, reply))
    ensures end.Recorded? <==> !task.cancelled && Records(task.appname, name, Turn(calls0, all0, calls, all, rs, reply))
    ensures !end.Recorded? ==>
      task.curpro == old(task.curpro) && task.queryKeywords == old(task.queryKeywords) && task.domains == old(task.domains)
    ensures end.Recorded? ==>
      task.curpro == old(task.curpro) + 1 && task.queryKeywords == old(task.queryKeywords) + [name] &&
      task.domains == old(task.domains) + [StoredEntry(task.appname, name, Turn(calls0, all0, calls, all, rs, reply))]
    ensures end.Recorded? && IsPagedType(task.appname) ==>
      task.domains[|task.domains| - 1] == if all == [] then Placeholder(task.appname, name) else JList(all)
  {
    calls, all, rs, reply := calls0, all0, [], None;
    if task.cancelled {
      return Stop, calls, all, rs, reply;
    }
    var data;
    calls, all, rs, data := Query(task, name, s, o, fetch, i, calls0, all0, maxTotal);
    reply := data;
    if data.None? {
      return Again, calls, all, rs, reply;
    }
    var handling := Handle(data.value, all);
    if !handling.HandleRecord? {
      return Again, calls, all, rs, reply;
    }
    var ok := task.Record(name, handling.data);
    end := if ok then Recorded else Again;
  }

  /** How the page loop ended, in the terms of a turn. */
  lemma PagesEndSpec(end: PagesEnd, rs: seq<Json>, all0: seq<Json>, maxRetry: int)
    requires !end.PagesCancelled? && Finished(end, rs, all0, maxRetry)
    requires rs != [] ==> AllKeepPaging(rs[..|rs| - 1], all0, maxRetry)
    ensures PagesRanOut(rs, all0, maxRetry)
    ensures end.PagesEnded? <==> PagesReturned(rs)
    ensures end.PagesEnded? ==> end.data == rs[|rs| - 1] && end.data.JObject?
  {
  }

  /**
   * For a paged kind, what a recorded success stores: the gathered records when there are
   * any, otherwise the placeholder (the last page was empty).
   */
  lemma PagedEntry(kind: string, name: Json, last: Json, all: seq<Json>, data: Json)
    requires last.JObject? && IsPagedType(kind) && Merged(last, all) == Some(data)
    requires all == [] ==> ClassifyPage(last).PageEmpty? || ClassifyPage(last).PageFailed?
    ensures forall h :: h == Handle(data, all) && h.HandleRecord? && DomainEntry(kind, name, h.data).Some? ==>
      DomainEntry(kind, name, h.data).value == if all == [] then Placeholder(kind, name) else JList(all)
  {
  }

  /** The records of the pages of `a + b` are those of `a` followed by those of `b`. */
  lemma {:induction false} GatheredAppend(a: seq<Json>, b: seq<Json>)
    ensures Gathered(a + b) == Gathered(a) + Gathered(b)
    decreases |b|
  {
    if b == [] {
      assert a + b == a;
    } else {
      var m := |b| - 1;
      assert (a + b)[..|a + b| - 1] == a + b[..m];
      assert (a + b)[|a + b| - 1] == b[m];
      GatheredAppend(a, b[..m]);
      var tail := if ClassifyPage(b[m]).PageOf? then ClassifyPage(b[m]).items else [];
      assert (Gathered(a) + Gathered(b[..m])) + tail == Gathered(a) + (Gathered(b[..m]) + tail);
    }
  }

  /** Turn `j` starts where the turn before it ended; the first starts with no calls and no records. */
  ghost predicate Chained(turns: seq<Turn>, j: nat)
    requires j < |turns|
  {
    if j == 0 then turns[0].calls0 == [] && turns[0].all0 == []
    else turns[j].calls0 == turns[j - 1].calls && turns[j].all0 == turns[j - 1].all
  }

  /** The last turn records the entry. */
  ghost predicate WorkerRecords(kind: string, name: Json, turns: seq<Turn>) {
    turns != [] && Records(kind, name, turns[|turns| - 1])
  }

  /** The entry a recording worker stores: the one its last turn stored. */
  ghost function WorkerStored(kind: string, name: Json, turns: seq<Turn>): Json
    requires WorkerRecords(kind, name, turns)
  {
    StoredEntry(kind, name, turns[|turns| - 1])
  }

  /** Each of `turns` starts where the one before ended and runs as its turn number says. */
  ghost predicate TurnsFollow(kind: string, name: Json, s: Settings, o: ProxyOracle, fetch: Upstream, turns: seq<Turn>) {
    forall j: nat {:trigger Chained(turns, j)} :: j < |turns| ==> Chained(turns, j) && TurnSpec(kind, name, s, o, fetch, j, turns[j])
  }

  /** None of `turns` records the entry. */
  ghost predicate NoneRecords(kind: string, name: Json, turns: seq<Turn>) {
    forall j: nat :: j < |turns| ==> !Records(kind, name, turns[j])
  }

  /**
   * The turns of the worker for `name` in a batch task that is not cancelled: each as turn
   * `j` runs it, each starting where the one before ended, none but the last recording, and
   * fewer than `retry_times` only when the last one recorded.
   */
  ghost predicate WorkerTrace(kind: string, name: Json, s: Settings, o: ProxyOracle, fetch: Upstream, turns: seq<Turn>) {
    && |turns| <= Turns(s.retryTimes)
    && TurnsFollow(kind, name, s, o, fetch, turns)
    && (turns != [] ==> NoneRecords(kind, name, turns[..|turns| - 1]))
    && (|turns| < Turns(s.retryTimes) ==> WorkerRecords(kind, name, turns))
  }

  /** The calls made over `turns`. */
  ghost function CallsAfter(turns: seq<Turn>): seq<Call> {
    if turns == [] then [] else turns[|turns| - 1].calls
  }

  /** The records gathered over `turns`. */
  ghost function GatheredAfter(turns: seq<Turn>): seq<Json> {
    if turns == [] then [] else turns[|turns| - 1].all
  }

  /** One more turn that starts where `turns` ended and runs as the next turn keeps the trace. */
  lemma TurnsSnoc(kind: string, name: Json, s: Settings, o: ProxyOracle, fetch: Upstream, turns: seq<Turn>, t: Turn)
    requires TurnsFollow(kind, name, s, o, fetch, turns)
    requires t.calls0 == CallsAfter(turns) && t.all0 == GatheredAfter(turns)
    requires TurnSpec(kind, name, s, o, fetch, |turns|, t)
    ensures TurnsFollow(kind, name, s, o, fetch, turns + [t])
    ensures CallsAfter(turns + [t]) == t.calls && GatheredAfter(turns + [t]) == t.all
  {
    forall j: nat | j < |turns + [t]|
      ensures Chained(turns + [t], j) && TurnSpec(kind, name, s, o, fetch, j, (turns + [t])[j])
    {
      if j < |turns| {
        assert Chained(turns, j) && TurnSpec(kind, name, s, o, fetch, j, turns[j]);
        if j > 0 {
          assert (turns + [t])[j - 1] == turns[j - 1];
        }
      }
    }
  }

  /**
   * The worker's calls and records after `n` turns: a paged kind has gathered the records of
   * the replies to its calls, any other kind none; a blacklist kind has made at most one call
   * per turn, and a kind with no query none.
   */
  ghost predicate GathersSoFar(kind: string, fetch: Upstream, calls: seq<Call>, all: seq<Json>, n: nat) {
    && (IsPagedType(kind) ==> all == Gathered(Replies(fetch, calls)))
    && (!IsPagedType(kind) ==> all == [])
    && (IsBlacklistType(kind) ==> |calls| <= n)
    && (!IsPagedType(kind) && !IsBlacklistType(kind) ==> calls == [])
  }

  /** A turn keeps what the worker has gathered in step with the calls it made. */
  lemma TurnGathers(kind: string, name: Json, s: Settings, o: ProxyOracle, fetch: Upstream, i: nat, t: Turn)
    requires TurnSpec(kind, name, s, o, fetch, i, t)
    requires GathersSoFar(kind, fetch, t.calls0, t.all0, i)
    ensures GathersSoFar(kind, fetch, t.calls, t.all, i + 1)
  {
    GatheredAppend(Replies(fetch, t.calls0), t.rs);
  }

  /**
   * The next turn of the worker for `name`, after `turns`: one attempt with the calls made
   * and the records gathered so far, appended to the trace.
   */
  method TakeTurn(task: BatchTask, name: Json, s: Settings, o: ProxyOracle, fetch: Upstream, ghost maxTotal: nat,
                  i: nat, calls0: seq<Call>, all0: seq<Json>, ghost turns: seq<Turn>)
    returns (end: AttemptEnd, calls: seq<Call>, all: seq<Json>, ghost turns': seq<Turn>)
    requires TotalsBounded(fetch, maxTotal) && task.Consistent() && !task.cancelled
    requires TurnsFollow(task.appname, name, s, o, fetch, turns) && i == |turns|
    requires calls0 == CallsAfter(turns) && all0 == GatheredAfter(turns)
    requires GathersSoFar(task.appname, fetch, calls0, all0, |turns|)
    modifies task
    ensures task.Consistent() && !task.cancelled && task.completed == old(task.completed)
    ensures |turns'| == |turns| + 1 && turns'[..|turns|] == turns
    ensures TurnsFollow(task.appname, name, s, o, fetch, turns')
    ensures calls == CallsAfter(turns') && all == GatheredAfter(turns')
    ensures GathersSoFar(task.appname, fetch, calls, all, |turns'|)
    ensures end.Recorded? <==> Records(task.appname, name, turns'[|turns|])
    ensures !end.Recorded? ==>
      task.curpro == old(task.curpro) && task.queryKeywords == old(task.queryKeywords) && task.domains == old(task.domains)
    ensures end.Recorded? ==>
      task.curpro == old(task.curpro) + 1 && task.queryKeywords == old(task.queryKeywords) + [name] &&
      task.domains == old(task.domains) + [StoredEntry(task.appname, name, turns'[|turns|])]
    ensures end.Recorded? && IsPagedType(task.appname) ==>
      task.domains[|task.domains| - 1] == if all == [] then Placeholder(task.appname, name) else JList(all)
  {
    ghost var rs, reply;
    end, calls, all, rs, reply := Attempt(task, name, s, o, fetch, i, calls0, all0, maxTotal);
    ghost var t := Turn(calls0, all0, calls, all, rs, reply);
    TurnGathers(task.appname, name, s, o, fetch, |turns|, t);
    TurnsSnoc(task.appname, name, s, o, fetch, turns, t);
    turns' := turns + [t];
    assert turns'[..|turns|] == turns && turns'[|turns|] == t;
  }

  /**
   * The worker for one entry (lines 41-178): nothing when the batch task is cancelled, otherwise
   * turns of the retry loop until one records a success or `retry_times` turns are over
   * (`turns` are what they did). (Sequentially, a task is not cancelled while one of its
   * entries runs, so the checks inside the loops never fire here.) The entry is counted and
   * its keyword kept exactly when a turn records it, and then once; the records gathered
   * across all turns are the records of every successful page the portal returned, in order.
   */
  method ProcessApp(task: BatchTask, name: Json, s: Settings, o: ProxyOracle, fetch: Upstream, ghost maxTotal: nat)
    returns (recorded: bool, calls: seq<Call>, all: seq<Json>, ghost turns: seq<Turn>)
    requires TotalsBounded(fetch, maxTotal) && task.Consistent()
    modifies task
    ensures task.Consistent() && task.cancelled == old(task.cancelled) && task.completed == old(task.completed)
    ensures old(task.cancelled) ==> turns == []
    ensures !old(task.cancelled) ==> WorkerTrace(task.appname, name, s, o, fetch, turns)
    ensures recorded <==> WorkerRecords(task.appname, name, turns)
    ensures calls == CallsAfter(turns) && all == GatheredAfter(turns)
    ensures old(task.cancelled) || s.retryTimes <= 0 ==> !recorded && calls == []
    ensures !recorded ==>
      task.curpro == old(task.curpro) && task.queryKeywords == old(task.queryKeywords) && task.domains == old(task.domains)
    ensures recorded ==>
      task.curpro == old(task.curpro) + 1 && task.queryKeywords == old(task.queryKeywords) + [name] &&
      task.domains == old(task.domains) + [WorkerStored(task.appname, name, turns)]
    ensures GathersSoFar(task.appname, fetch, calls, all, |turns|)
    ensures recorded && IsPagedType(task.appname) ==>
      task.domains[|task.domains| - 1] == if all == [] then Placeholder(task.appname, name) else JList(all)
    ensures |turns| <= Turns(s.retryTimes)
  {
    recorded, calls, all, turns := false, [], [], [];
    if !task.cancelled {
      recorded, calls, all, turns := RunTurns(task, name, s, o, fetch, maxTotal);
    }
  }

  /** The retry loop of a worker whose batch task is not cancelled (lines 47-178). */
  method RunTurns(task: BatchTask, name: Json, s: Settings, o: ProxyOracle, fetch: Upstream, ghost maxTotal: nat)
    returns (recorded: bool, calls: seq<Call>, all: seq<Json>, ghost turns: seq<Turn>)
    requires TotalsBounded(fetch, maxTotal) && task.Consistent() && !task.cancelled
    modifies task
    ensures task.Consistent() && !task.cancelled && task.completed == old(task.completed)
    ensures WorkerTrace(task.appname, name, s, o, fetch, turns)
    ensures recorded <==> WorkerRecords(task.appname, name, turns)
    ensures calls == CallsAfter(turns) && all == GatheredAfter(turns)
    ensures s.retryTimes <= 0 ==> !recorded && calls == []
    ensures !recorded ==>
      task.curpro == old(task.curpro) && task.queryKeywords == old(task.queryKeywords) && task.domains == old(task.domains)
    ensures recorded ==>
      task.curpro == old(task.curpro) + 1 && task.queryKeywords == old(task.queryKeywords) + [name] &&
      task.domains == old(task.domains) + [WorkerStored(task.appname, name, turns)]
    ensures GathersSoFar(task.appname, fetch, calls, all, |turns|)
    ensures recorded && IsPagedType(task.appname) ==>
      task.domains[|task.domains| - 1] == if all == [] then Placeholder(task.appname, name) else JList(all)
  {
    recorded, calls, all, turns := false, [], [], [];
    var i := 0;
    while i < Turns(s.retryTimes)
      invariant i <= Turns(s.retryTimes) && |turns| == i
      invariant task.Consistent() && !task.cancelled && task.completed == old(task.completed)
      invariant TurnsFollow(task.appname, name, s, o, fetch, turns) && NoneRecords(task.appname, name, turns)
      invariant calls == CallsAfter(turns) && all == GatheredAfter(turns)
      invariant task.curpro == old(task.curpro) && task.queryKeywords == old(task.queryKeywords) && task.domains == old(task.domains)
      invariant GathersSoFar(task.appname, fetch, calls, all, i)
      decreases Turns(s.retryTimes) - i
    {
      var end;
      ghost var turns0 := turns;
      end, calls, all, turns := TakeTurn(task, name, s, o, fetch, maxTotal, i, calls, all, turns);
      i := i + 1;
      if end.Recorded? {
        RecordingTrace(task.appname, name, s, o, fetch, turns0, turns);
        recorded := true;
        break;
      }
      NoneRecordsSnoc(task.appname, name, turns0, turns);
    }
    if !recorded && turns != [] {
      NoneRecordsPrefix(task.appname, name, turns);
    }
  }

  /** Turns that follow, none recording until a last one that does, are a worker's whole trace. */
  lemma RecordingTrace(kind: string, name: Json, s: Settings, o: ProxyOracle, fetch: Upstream, turns0: seq<Turn>, turns: seq<Turn>)
    requires TurnsFollow(kind, name, s, o, fetch, turns) && NoneRecords(kind, name, turns0)
    requires |turns| == |turns0| + 1 && |turns| <= Turns(s.retryTimes) && turns[..|turns0|] == turns0
    requires Records(kind, name, turns[|turns0|])
    ensures WorkerTrace(kind, name, s, o, fetch, turns) && WorkerRecords(kind, name, turns)
    ensures WorkerStored(kind, name, turns) == StoredEntry(kind, name, turns[|turns0|])
  {
  }

  /** A trace that records nothing records nothing before its last turn. */
  lemma NoneRecordsPrefix(kind: string, name: Json, turns: seq<Turn>)
    requires NoneRecords(kind, name, turns) && turns != []
    ensures NoneRecords(kind, name, turns[..|turns| - 1])
  {
    var prefix := turns[..|turns| - 1];
    forall j: nat | j < |prefix|
      ensures !Records(kind, name, prefix[j])
    {
      assert prefix[j] == turns[j];
    }
  }

  /** A trace that recorded nothing stays so with one more turn that records nothing. */
  lemma NoneRecordsSnoc(kind: string, name: Json, turns: seq<Turn>, turns': seq<Turn>)
    requires NoneRecords(kind, name, turns)
    requires |turns'| == |turns| + 1 && turns'[..|turns|] == turns && !Records(kind, name, turns'[|turns|])
    ensures NoneRecords(kind, name, turns')
  {
    forall j: nat | j < |turns'|
      ensures !Records(kind, name, turns'[j])
    {
      if j < |turns| {
        assert turns'[j] == turns[j];
      }
    }
  }

  /**
   * `sum(1 for item in domains if item and len(item) > 0)` (line 216); `None` when a truthy
   * item has no length. With every entry non-empty, it is the number of entries.
   */
  function SuccessCount(domains: seq<Json>): (r: Option<nat>)
    ensures r.Some? ==> r.value <= |domains|
    ensures (forall j :: 0 <= j < |domains| ==> Truthy(domains[j]) && Len(domains[j]).Some? && Len(domains[j]).value > 0) ==>
      r == Some(|domains|)
  {
    if domains == [] then Some(0)
    else
      var item := domains[|domains| - 1];
      match SuccessCount(domains[..|domains| - 1])
      case None => None
      case Some(n) =>
        if !Truthy(item) then Some(n)
        else if Len(item).None? then None
        else Some(n + if Len(item).value > 0 then 1 else 0)
  }

  /** `int(curpro / numpro * 100)`, with the division exact. */
  function Progress(curpro: int, numpro: int): int
    requires numpro != 0
  {
    Trunc(curpro as real / numpro as real * 100.0)
  }

  /** With no more entries counted than submitted, the progress is a percentage, 100 exactly when all are counted. */
  lemma ProgressBounds(curpro: nat, numpro: nat)
    requires 0 < numpro && curpro <= numpro
    ensures 0 <= Progress(curpro, numpro) <= 100
    ensures Progress(curpro, numpro) == 100 <==> curpro == numpro
  {
    var q := curpro as real / numpro as real;
    assert q * numpro as real == curpro as real;
    assert q <= 1.0;
    assert curpro < numpro ==> q < 1.0;
  }

  /**
   * The over-count of `RecordAsWritten`: a blacklist entry whose reply carries a list as
   * `params` is a success for the response handling but raises when it is recorded, so two
   * attempts count it twice and the progress of a one-entry task reaches 200.
   */
  method OverCountAsWritten() returns (curpro: nat, numpro: nat, stored: nat)
    ensures numpro == 1 && curpro == 2 && stored == 0 && Progress(curpro, numpro) == 200
  {
    var task := new BatchTask(1, "bapp");
    var d := Dict2("code", JInt(200), "params", JList([JStr("x")]));
    assert Handle(d, []) == HandleRecord(d);
    var ok := task.RecordAsWritten(JStr("a"), d);
    ok := task.RecordAsWritten(JStr("a"), d);
    return task.curpro, task.numpro, |task.domains|;
  }

  // ---------------------------------------------------------------------------
  // The batch task table and the routes
  // ---------------------------------------------------------------------------

  /** `request.app["tasks"]`: the running tasks by name. */
  class TaskTable {
    var tasks: map<Json, BatchTask>

    constructor()
      ensures tasks == map[]
    {
      tasks := map[];
    }
  }

  /** A value usable as a dict key: anything but a list or a dict. */
  predicate Hashable(v: Json) {
    !v.JList? && !v.JObject?
  }

  /** The value sqlite binds for a task name; `None` when it cannot bind it. */
  function SqlOf(v: Json): (r: Option<Database.SqlValue>)
    ensures r.Some? <==> Hashable(v)
  {
    match v
    case JStr(t) => Some(Database.SqlText(t))
    case JInt(n) => Some(Database.SqlInt(n))
    case JBool(b) => Some(Database.SqlInt(if b then 1 else 0))
    case JNull => Some(Database.SqlNull)
    case _ => None
  }

  const TaskMissing: string := "任务不存在"
  const TaskGone: string := "任务不存在，可能已经完成或删除"

  /** Cancelling a registered task (lines 307-318): it is marked cancelled and leaves the table; nothing else changes. */
  method Cancel(table: TaskTable, name: Json)
    requires name in table.tasks
    modifies table, table.tasks[name]
    ensures table.tasks == old(table.tasks) - {name}
    ensures var t := old(table.tasks[name]);
      && t.cancelled && t.curpro == old(t.curpro) && t.queryKeywords == old(t.queryKeywords)
      && t.domains == old(t.domains) && t.completed == old(t.completed)
  {
    var task := table.tasks[name];
    task.cancelled := true;
    table.tasks := table.tasks - {name};
  }

  /**
   * `/delete/task` (lines 299-324): a registered task is cancelled and removed from the table;
   * any other name gets 404. Nothing else about any task changes.
   */
  method DeleteTask(table: TaskTable, req: QueryRoutes.Request) returns (reply: Reply)
    modifies table, table.tasks.Values
    ensures req.httpMethod != "POST" ==> reply == NoneText && table.tasks == old(table.tasks)
    ensures req.httpMethod == "POST" && !req.body.JObject? ==> reply == Crashed && table.tasks == old(table.tasks)
    ensures req.httpMethod == "POST" && req.body.JObject? ==>
      var name := DictGet(req.body, "task", JNull).value;
      && (!Hashable(name) ==> reply == Crashed && table.tasks == old(table.tasks))
      && (Hashable(name) && name in old(table.tasks) ==>
            reply == Body(JObject(map["code" := JInt(200)])) && table.tasks == old(table.tasks) - {name} &&
            old(table.tasks)[name].cancelled)
      && (Hashable(name) && name !in old(table.tasks) ==>
            reply == Body(Message(404, "message", TaskGone)) && table.tasks == old(table.tasks))
    ensures forall t | t in old(table.tasks).Values ::
      t.curpro == old(t.curpro) && t.queryKeywords == old(t.queryKeywords) && t.domains == old(t.domains) &&
      t.completed == old(t.completed) && (t.cancelled == old(t.cancelled) || t.cancelled)
  {
    if req.httpMethod != "POST" {
      return NoneText;
    }
    if !req.body.JObject? {
      return Crashed;
    }
    var name := DictGet(req.body, "task", JNull).value;
    if !Hashable(name) {
      return Crashed;
    }
    if name in table.tasks {
      Cancel(table, name);
      reply := Body(JObject(map["code" := JInt(200)]));
    } else {
      reply := Body(Message(404, "message", TaskGone));
    }
  }

  /** The key `/query/task` looks up: `request.query.get("taskname")`. */
  function TaskKey(req: QueryRoutes.Request): Json {
    QueryRoutes.QueryValue(req.query, "taskname")
  }

  /**
   * `/query/task` (lines 230-250): the progress of a registered task, or 404. The progress is a
   * percentage as long as no more entries were counted than submitted.
   */
  function QueryTask(table: TaskTable, req: QueryRoutes.Request): (r: Reply)
    reads table, table.tasks.Values
    ensures TaskKey(req) !in table.tasks ==> r == Body(Message(404, "message", TaskMissing))
    ensures TaskKey(req) in table.tasks && table.tasks[TaskKey(req)].numpro == 0 ==> r == Crashed
    ensures TaskKey(req) in table.tasks && table.tasks[TaskKey(req)].numpro > 0 ==>
      var t := table.tasks[TaskKey(req)];
      && r.Body? && DictGet(r.json, "code", JNull) == Some(JInt(200))
      && DictGet(r.json, "curpro", JNull) == Some(JInt(t.curpro))
      && DictGet(r.json, "data", JNull) == Some(JList(t.domains))
      && DictGet(r.json, "query_keywords", JNull) == Some(JList(t.queryKeywords))
      && exists p :: DictGet(r.json, "progress", JNull) == Some(JInt(p)) && p == Progress(t.curpro, t.numpro) &&
           (t.curpro <= t.numpro ==> 0 <= p <= 100)
  {
    var key := TaskKey(req);
    if key !in table.tasks then Body(Message(404, "message", TaskMissing))
    else
      var t := table.tasks[key];
      if t.numpro == 0 then Crashed
      else
        var p := Progress(t.curpro, t.numpro);
        assert t.curpro <= t.numpro ==> 0 <= p <= 100 by {
          if t.curpro <= t.numpro {
            ProgressBounds(t.curpro, t.numpro);
          }
        }
        Body(JObject(map[
          "code" := JInt(200),
          "numpro" := JInt(t.numpro),
          "tasktype" := JStr(t.appname),
          "query_keywords" := JList(t.queryKeywords),
          "data" := JList(t.domains),
          "curpro" := JInt(t.curpro),
          "progress" := JInt(p)]))
  }

  const TypeNotAllowed: string := "不支持的查询类型"
  const ListEmpty: string := "提交的查询列表为空"
  const ListEmptyAfterFilter: string := "在剔除不允许查询的内容后，列表为空，取消任务"
  const TaskExists: string := "任务已存在"
  const TaskCreated: string := "创建任务成功"

  /** A validated `/create/task` request: its task name, the entries to query, the kind and the concurrency. */
  datatype Job = Job(taskname: Json, names: seq<Json>, kind: string, searnum: int)

  /** An entry the suffix filter keeps: one that does not end with a prohibited suffix. */
  predicate Allowed(suffixes: seq<string>, e: Json) {
    !(e.JStr? && HasProhibitedSuffix(e.s, suffixes))
  }

  /** The suffix filter's test, as a function value. */
  function KeepEntry(suffixes: seq<string>): Json -> bool {
    e => Allowed(suffixes, e)
  }

  /** `int(v)`; a string goes through `parse` (`None` for the `ValueError`), `None` stands for the exception. */
  function IntOf(v: Json, parse: string -> Option<int>): (r: Option<int>)
    ensures v.JInt? ==> r == Some(v.n)
    ensures v.JNull? || v.JList? || v.JObject? ==> r.None?
  {
    match v
    case JInt(n) => Some(n)
    case JBool(b) => Some(if b then 1 else 0)
    case JStr(t) => parse(t)
    case _ => None
  }

  /** The values `for s in v` visits, as a set: the items of a list, the one-character strings of a string, the keys of a dict. */
  ghost function EntrySet(v: Json): set<Json> {
    match v
    case JList(items) => set x | x in items
    case JStr(t) => set j | 0 <= j < |t| :: JStr([t[j]])
    case JObject(fields) => set k | k in fields :: JStr(k)
    case _ => {}
  }

  /** The entries pass the checks before the suffix filter: there are some, and with suffixes configured they are all strings. */
  ghost predicate EntriesChecked(data: Json, s: Settings) {
    && Len(data).Some? && Len(data).value > 0
    && (s.prohibitSuffix != [] ==> forall x :: x in EntrySet(data) ==> x.JStr?)
  }

  /**
   * `for s in v` over a sized value: the items of a list, the one-character strings of a
   * string, the keys of a dict (in their insertion order, which the model does not know: any
   * order of the distinct keys).
   */
  method Iterate(v: Json) returns (r: seq<Json>)
    requires Len(v).Some?
    ensures |r| == Len(v).value
    ensures v.JList? ==> r == v.items
    ensures v.JStr? ==> forall j :: 0 <= j < |r| ==> r[j] == JStr([v.s[j]])
    ensures v.JObject? ==> Distinct(r) && forall x :: x in r <==> x.JStr? && x.s in v.fields
    ensures forall x :: x in r <==> x in EntrySet(v)
  {
    match v
    case JList(items) => r := items;
    case JStr(t) => r := seq(|t|, j requires 0 <= j < |t| => JStr([t[j]]));
    case JObject(fields) =>
      var rest := fields.Keys;
      r := [];
      while rest != {}
        invariant rest <= fields.Keys && |r| + |rest| == |fields.Keys| && Distinct(r)
        invariant forall x :: x in r <==> x.JStr? && x.s in fields && x.s !in rest
        decreases |rest|
      {
        var k :| k in rest;
        r := r + [JStr(k)];
        rest := rest - {k};
      }
  }

  /**
   * `/create/task` (lines 253-296): the checks in their order (type not allowed → 405, no
   * entries → 400, the suffix filter, nothing left → 400, `searnum`, a taken name → 409), then
   * the job to run and 200. The suffix filter keeps exactly the entries that end with no
   * prohibited suffix, in their order; with suffixes configured, an entry that is not a string
   * makes it raise.
   */
  method CreateTaskCatch(table: TaskTable, req: QueryRoutes.Request, s: Settings, parse: string -> Option<int>)
    returns (reply: Reply, job: Option<Job>)
    ensures req.httpMethod != "POST" ==> reply == NoneText && job.None?
    ensures req.httpMethod == "POST" && !req.body.JObject? ==> reply == Crashed && job.None?
    ensures req.httpMethod == "POST" && req.body.JObject? ==>
      var kind := DictGet(req.body, "type", JStr("web")).value;
      var data := DictGet(req.body, "data", JNull).value;
      && (!(kind.JStr? && kind.s in s.allowType) ==> reply == Body(Message(405, "message", TypeNotAllowed)))
      && (kind.JStr? && kind.s in s.allowType && Len(data).None? ==> reply == Crashed)
      && (kind.JStr? && kind.s in s.allowType && Len(data) == Some(0) ==> reply == Body(Message(400, "message", ListEmpty)))
      && (kind.JStr? && kind.s in s.allowType && data.JList? && data.items != [] && s.prohibitSuffix != [] &&
            (exists j :: 0 <= j < |data.items| && !data.items[j].JStr?) ==>
          reply == Crashed)
      && (kind.JStr? && kind.s in s.allowType && data.JList? && data.items != [] &&
            (s.prohibitSuffix == [] || forall j :: 0 <= j < |data.items| ==> data.items[j].JStr?) &&
            Filter(data.items, KeepEntry(s.prohibitSuffix)) == [] ==>
          reply == Body(Message(400, "message", ListEmptyAfterFilter)))
    ensures req.httpMethod == "POST" && req.body.JObject? ==>
      var kind := DictGet(req.body, "type", JStr("web")).value;
      var data := DictGet(req.body, "data", JNull).value;
      kind.JStr? && kind.s in s.allowType && EntriesChecked(data, s) &&
        (forall x :: x in EntrySet(data) ==> !Allowed(s.prohibitSuffix, x)) ==>
      reply == Body(Message(400, "message", ListEmptyAfterFilter)) && job.None?
    ensures req.httpMethod == "POST" && req.body.JObject? ==>
      var kind := DictGet(req.body, "type", JStr("web")).value;
      var data := DictGet(req.body, "data", JNull).value;
      var taskname := DictGet(req.body, "task", JNull).value;
      var searnum := IntOf(DictGet(req.body, "searnum", JInt(20)).value, parse);
      kind.JStr? && kind.s in s.allowType && EntriesChecked(data, s) &&
        (exists x :: x in EntrySet(data) && Allowed(s.prohibitSuffix, x)) ==>
      && (searnum.None? || !Hashable(taskname) ==> reply == Crashed && job.None?)
      && (searnum.Some? && Hashable(taskname) && taskname in table.tasks ==>
            reply == Body(Message(409, "message", TaskExists)) && job.None?)
      && (searnum.Some? && Hashable(taskname) && taskname !in table.tasks ==>
            reply == Body(Message(200, "message", TaskCreated)) && job.Some?)
    ensures job.Some? <==> reply == Body(Message(200, "message", TaskCreated))
    ensures reply == Body(Message(409, "message", TaskExists)) ==> DictGet(req.body, "task", JNull).value in table.tasks
    ensures job.Some? ==>
      var body := req.body;
      var data := DictGet(body, "data", JNull).value;
      && req.httpMethod == "POST" && body.JObject?
      && job.value.taskname == DictGet(body, "task", JNull).value
      && Hashable(job.value.taskname) && job.value.taskname !in table.tasks
      && JStr(job.value.kind) == DictGet(body, "type", JStr("web")).value && job.value.kind in s.allowType
      && Some(job.value.searnum) == IntOf(DictGet(body, "searnum", JInt(20)).value, parse)
      && job.value.names != [] && (forall e :: e in job.value.names ==> Allowed(s.prohibitSuffix, e))
      && (data.JList? ==> job.value.names == Filter(data.items, KeepEntry(s.prohibitSuffix)))
      && (data.JList? ==> forall e :: e in job.value.names <==> e in data.items && Allowed(s.prohibitSuffix, e))
      && (forall e :: e in job.value.names <==> e in EntrySet(data) && Allowed(s.prohibitSuffix, e))
  {
    job := None;
    if req.httpMethod != "POST" {
      return NoneText, None;
    }
    var body := req.body;
    if !body.JObject? {
      return Crashed, None;
    }
    var taskname := DictGet(body, "task", JNull).value;
    var data := DictGet(body, "data", JNull).value;
    var kind := DictGet(body, "type", JStr("web")).value;
    if !(kind.JStr? && kind.s in s.allowType) {
      return Body(Message(405, "message", TypeNotAllowed)), None;
    }
    if Len(data).None? {
      return Crashed, None;
    }
    if Len(data).value == 0 {
      return Body(Message(400, "message", ListEmpty)), None;
    }
    var entries := Iterate(data);
    if s.prohibitSuffix != [] && exists j :: 0 <= j < |entries| && !entries[j].JStr? {
      ghost var j :| 0 <= j < |entries| && !entries[j].JStr?;
      assert entries[j] in EntrySet(data);
      return Crashed, None;
    }
    var names := Filter(entries, KeepEntry(s.prohibitSuffix));
    FilterSpec(entries, KeepEntry(s.prohibitSuffix));
    assert forall e :: e in names <==> e in EntrySet(data) && Allowed(s.prohibitSuffix, e);
    if |names| == 0 {
      assert forall x :: x in EntrySet(data) ==> !Allowed(s.prohibitSuffix, x);
      return Body(Message(400, "message", ListEmptyAfterFilter)), None;
    }
    assert names[0] in EntrySet(data) && Allowed(s.prohibitSuffix, names[0]);
    var searnum := IntOf(DictGet(body, "searnum", JInt(20)).value, parse);
    if searnum.None? || !Hashable(taskname) {
      return Crashed, None;
    }
    if taskname in table.tasks {
      return Body(Message(409, "message", TaskExists)), None;
    }
    reply := Body(Message(200, "message", TaskCreated));
    job := Some(Job(taskname, names, kind.s, searnum.value));
  }

  /** The batch task of `job` is deleted while it runs: a delete request arrives before entry `deleteAt` (or after the last). */
  predicate Deleted(job: Job, deleteAt: Option<nat>) {
    Hashable(job.taskname) && job.searnum > 0 && deleteAt.Some? && deleteAt.value <= |job.names|
  }

  /** Strictly increasing indices below `n` are at most `n` many. */
  lemma {:induction false} IncreasingBelow(xs: seq<nat>, n: nat)
    requires forall j, l :: 0 <= j < l < |xs| ==> xs[j] < xs[l]
    requires forall j :: 0 <= j < |xs| ==> xs[j] < n
    ensures |xs| <= n
    ensures xs != [] ==> |xs| - 1 <= xs[|xs| - 1]
  {
    if xs != [] {
      var m := |xs| - 1;
      IncreasingBelow(xs[..m], n);
      if m > 0 {
        assert xs[..m][m - 1] == xs[m - 1] < xs[m];
      }
    }
  }

  /** The parameters `update_batch_task` binds for a completed task. */
  lemma CompletedUpdateValues(count: int, resultFile: string, finishTime: string)
    ensures Database.PresentValues(Database.UpdateArguments(Some(count), Some(count), Some("completed"), Some(resultFile), Some(finishTime))) ==
      [Database.SqlInt(count), Database.SqlInt(count), Database.SqlText("completed"), Database.SqlText(resultFile), Database.SqlText(finishTime)]
  {
    var args := Database.UpdateArguments(Some(count), Some(count), Some("completed"), Some(resultFile), Some(finishTime));
    var values := [Database.SqlInt(count), Database.SqlInt(count), Database.SqlText("completed"),
                   Database.SqlText(resultFile), Database.SqlText(finishTime)];
    forall n | 0 <= n <= 5
      ensures Database.PresentValues(args[..n]) == values[..n]
    {
      PresentPrefix(args, values, n);
    }
    assert args[..5] == args && values[..5] == values;
  }

  /** The present values of a prefix of arguments that are all present. */
  lemma {:induction false} PresentPrefix(args: seq<Option<Database.SqlValue>>, values: seq<Database.SqlValue>, n: nat)
    requires |args| == |values| && n <= |args|
    requires forall j :: 0 <= j < |args| ==> args[j] == Some(values[j])
    ensures Database.PresentValues(args[..n]) == values[..n]
  {
    if n > 0 {
      PresentPrefix(args, values, n - 1);
      assert args[..n][..n - 1] == args[..n - 1];
      assert values[..n] == values[..n - 1] + [values[n - 1]];
    }
  }

  /**
   * The worker of entry `k` ran as a worker does, unless the batch task was deleted before it,
   * when it did nothing.
   */
  ghost predicate EntryRan(kind: string, names: seq<Json>, s: Settings, o: ProxyOracle, fetch: nat -> Upstream,
                           deleteAt: Option<nat>, k: nat, turns: seq<Turn>)
    requires k < |names|
  {
    if deleteAt.Some? && deleteAt.value <= k then turns == []
    else WorkerTrace(kind, names[k], s, o, fetch(k), turns)
  }

  /** The workers of the first `|traces|` entries ran, and the entries counted are those whose worker recorded. */
  ghost predicate EntriesRan(kind: string, names: seq<Json>, s: Settings, o: ProxyOracle, fetch: nat -> Upstream,
                             deleteAt: Option<nat>, traces: seq<seq<Turn>>, recordedAt: seq<nat>) {
    && |traces| <= |names|
    && forall k: nat {:trigger traces[k]} :: k < |traces| ==>
         && EntryRan(kind, names, s, o, fetch, deleteAt, k, traces[k])
         && (k in recordedAt <==> WorkerRecords(kind, names[k], traces[k]))
  }

  /** Each stored entry is the one the recording turn of its worker stored. */
  ghost predicate StoredAsRecorded(kind: string, names: seq<Json>, traces: seq<seq<Turn>>, recordedAt: seq<nat>, domains: seq<Json>) {
    && |domains| == |recordedAt|
    && forall j :: 0 <= j < |recordedAt| ==>
         && recordedAt[j] < |traces| && recordedAt[j] < |names|
         && WorkerRecords(kind, names[recordedAt[j]], traces[recordedAt[j]])
         && domains[j] == WorkerStored(kind, names[recordedAt[j]], traces[recordedAt[j]])
  }

  /** One more entry's worker keeps the run of the entries before it. */
  lemma EntriesRanSnoc(kind: string, names: seq<Json>, s: Settings, o: ProxyOracle, fetch: nat -> Upstream,
                       deleteAt: Option<nat>, traces: seq<seq<Turn>>, recordedAt: seq<nat>, turns: seq<Turn>, recorded: bool)
    requires EntriesRan(kind, names, s, o, fetch, deleteAt, traces, recordedAt) && |traces| < |names|
    requires AllBelow(recordedAt, |traces|)
    requires EntryRan(kind, names, s, o, fetch, deleteAt, |traces|, turns)
    requires recorded <==> WorkerRecords(kind, names[|traces|], turns)
    ensures EntriesRan(kind, names, s, o, fetch, deleteAt, traces + [turns], if recorded then recordedAt + [|traces|] else recordedAt)
  {
    var recordedAt' := if recorded then recordedAt + [|traces|] else recordedAt;
    forall k: nat | k < |traces + [turns]|
      ensures EntryRan(kind, names, s, o, fetch, deleteAt, k, (traces + [turns])[k])
      ensures k in recordedAt' <==> WorkerRecords(kind, names[k], (traces + [turns])[k])
    {
      if k < |traces| {
        assert (traces + [turns])[k] == traces[k];
        assert k in recordedAt <==> WorkerRecords(kind, names[k], traces[k]);
        assert k in recordedAt' <==> k in recordedAt;
      } else {
        assert |traces| !in recordedAt;
      }
    }
  }

  /** One more entry's worker keeps the stored entries of those before it, and adds its own when it recorded. */
  lemma StoredSnoc(kind: string, names: seq<Json>, traces: seq<seq<Turn>>, recordedAt: seq<nat>, domains: seq<Json>,
                   turns: seq<Turn>, recorded: bool, domains': seq<Json>)
    requires StoredAsRecorded(kind, names, traces, recordedAt, domains) && |traces| < |names|
    requires recorded ==> WorkerRecords(kind, names[|traces|], turns)
    requires recorded ==> domains' == domains + [WorkerStored(kind, names[|traces|], turns)]
    requires !recorded ==> domains' == domains
    ensures StoredAsRecorded(kind, names, traces + [turns], if recorded then recordedAt + [|traces|] else recordedAt, domains')
  {
    var traces' := traces + [turns];
    var recordedAt' := if recorded then recordedAt + [|traces|] else recordedAt;
    forall j | 0 <= j < |recordedAt'|
      ensures recordedAt'[j] < |traces'| && recordedAt'[j] < |names|
      ensures WorkerRecords(kind, names[recordedAt'[j]], traces'[recordedAt'[j]])
      ensures domains'[j] == WorkerStored(kind, names[recordedAt'[j]], traces'[recordedAt'[j]])
    {
      if j < |recordedAt| {
        assert recordedAt'[j] == recordedAt[j] && traces'[recordedAt[j]] == traces[recordedAt[j]];
        assert domains'[j] == domains[j];
      } else {
        assert recordedAt'[j] == |traces| && traces'[|traces|] == turns;
      }
    }
  }

  /** Every index in `xs` is below `bound`. */
  ghost predicate AllBelow(xs: seq<nat>, bound: nat) {
    forall j :: 0 <= j < |xs| ==> xs[j] < bound
  }

  /**
   * `recordedAt` lists, in increasing order, entries of `names` below `bound`, and the counted
   * keywords are those entries.
   */
  ghost predicate CountedInOrder(names: seq<Json>, recordedAt: seq<nat>, keywords: seq<Json>, bound: nat) {
    && |keywords| == |recordedAt| && bound <= |names| && AllBelow(recordedAt, bound)
    && (forall j :: 0 <= j < |recordedAt| ==> keywords[j] == names[recordedAt[j]])
    && (forall j, l :: 0 <= j < l < |recordedAt| ==> recordedAt[j] < recordedAt[l])
  }

  /** Entry `k` counted or not keeps the counted entries in order. */
  lemma CountedSnoc(names: seq<Json>, recordedAt: seq<nat>, keywords: seq<Json>, k: nat, recorded: bool, keywords': seq<Json>)
    requires CountedInOrder(names, recordedAt, keywords, k) && k < |names|
    requires recorded ==> keywords' == keywords + [names[k]]
    requires !recorded ==> keywords' == keywords
    ensures CountedInOrder(names, if recorded then recordedAt + [k] else recordedAt, keywords', k + 1)
  {
  }

  /**
   * The state of a registered task once its first `k` entries are processed, the registry
   * having been `tasks0` when the first began: the workers' traces, the entries counted in
   * order, what was stored, and whether the delete request has arrived yet.
   */
  ghost predicate EntriesDone(table: TaskTable, task: BatchTask, job: Job, s: Settings, o: ProxyOracle, fetch: nat -> Upstream,
                              deleteAt: Option<nat>, tasks0: map<Json, BatchTask>, k: nat, recordedAt: seq<nat>, traces: seq<seq<Turn>>)
    reads table, task
  {
    && k <= |job.names| && |traces| == k
    && task.Consistent() && !task.completed && CountedInOrder(job.names, recordedAt, task.queryKeywords, k)
    && EntriesRan(task.appname, job.names, s, o, fetch, deleteAt, traces, recordedAt)
    && StoredAsRecorded(task.appname, job.names, traces, recordedAt, task.domains)
    && (deleteAt.Some? && deleteAt.value < k ==>
          table.tasks == tasks0 - {job.taskname} && task.cancelled && AllBelow(recordedAt, deleteAt.value))
    && (!(deleteAt.Some? && deleteAt.value < k) ==> table.tasks == tasks0 && !task.cancelled)
  }

  /**
   * Entry `k` of a registered task (one round of lines 180-187): the delete request, when it
   * arrives now, cancels the task first; then the entry's worker runs.
   */
  method RunEntry(table: TaskTable, task: BatchTask, job: Job, s: Settings, o: ProxyOracle, fetch: nat -> Upstream,
                  ghost maxTotal: nat, deleteAt: Option<nat>, ghost tasks0: map<Json, BatchTask>, k: nat,
                  ghost recordedAt: seq<nat>, ghost traces: seq<seq<Turn>>)
    returns (ghost recordedAt': seq<nat>, ghost traces': seq<seq<Turn>>)
    requires forall k :: TotalsBounded(fetch(k), maxTotal)
    requires job.taskname in tasks0 && tasks0[job.taskname] == task
    requires EntriesDone(table, task, job, s, o, fetch, deleteAt, tasks0, k, recordedAt, traces) && k < |job.names|
    modifies table, task
    ensures EntriesDone(table, task, job, s, o, fetch, deleteAt, tasks0, k + 1, recordedAt', traces')
  {
    if deleteAt == Some(k) {
      Cancel(table, job.taskname);
    }
    ghost var domains0, keywords0 := task.domains, task.queryKeywords;
    var recorded, calls, all;
    ghost var turns;
    recorded, calls, all, turns := ProcessApp(task, job.names[k], s, o, fetch(k), maxTotal);
    CountedSnoc(job.names, recordedAt, keywords0, k, recorded, task.queryKeywords);
    EntriesRanSnoc(task.appname, job.names, s, o, fetch, deleteAt, traces, recordedAt, turns, recorded);
    StoredSnoc(task.appname, job.names, traces, recordedAt, domains0, turns, recorded, task.domains);
    traces' := traces + [turns];
    recordedAt' := if recorded then recordedAt + [k] else recordedAt;
  }

  /**
   * The entries of a registered task processed in order (lines 180-187 with the concurrency
   * left out), a delete request arriving before entry `deleteAt` (or after the last).
   * `traces` are what the workers did, entry by entry: each entry is counted exactly when
   * its worker recorded it, in order, and what is stored for it is what that worker stored.
   */
  method RunEntries(table: TaskTable, task: BatchTask, job: Job, s: Settings, o: ProxyOracle, fetch: nat -> Upstream,
                    ghost maxTotal: nat, deleteAt: Option<nat>)
    returns (ghost recordedAt: seq<nat>, ghost traces: seq<seq<Turn>>)
    requires forall k :: TotalsBounded(fetch(k), maxTotal)
    requires job.taskname in table.tasks && table.tasks[job.taskname] == task
    requires task.Consistent() && task.curpro == 0 && !task.cancelled && !task.completed
    modifies table, task
    ensures task.Consistent() && !task.completed && CountedInOrder(job.names, recordedAt, task.queryKeywords, |job.names|)
    ensures |traces| == |job.names| && EntriesRan(task.appname, job.names, s, o, fetch, deleteAt, traces, recordedAt)
    ensures StoredAsRecorded(task.appname, job.names, traces, recordedAt, task.domains)
    ensures deleteAt.Some? && deleteAt.value <= |job.names| ==>
      table.tasks == old(table.tasks) - {job.taskname} && task.cancelled && AllBelow(recordedAt, deleteAt.value)
    ensures !(deleteAt.Some? && deleteAt.value <= |job.names|) ==> table.tasks == old(table.tasks) && !task.cancelled
  {
    recordedAt, traces := [], [];
    var k: nat := 0;
    while k < |job.names|
      invariant EntriesDone(table, task, job, s, o, fetch, deleteAt, old(table.tasks), k, recordedAt, traces)
    {
      recordedAt, traces := RunEntry(table, task, job, s, o, fetch, maxTotal, deleteAt, old(table.tasks), k, recordedAt, traces);
      k := k + 1;
    }
    if deleteAt == Some(|job.names|) {
      Cancel(table, job.taskname);
    }
  }

  /**
   * The database update of a completed task (lines 213-224): the count and the success count,
   * equal for a consistent task, then the status, the result file and the finish time.
   */
  method CompletedUpdate(task: BatchTask, name: Json, resultFile: string, finishTime: string)
    returns (sql: string, params: seq<Database.SqlValue>)
    requires task.Consistent() && Hashable(name)
    ensures SuccessCount(task.domains) == Some(task.curpro)
    ensures Database.CountChar(sql, '?') == |params|
    ensures params == [Database.SqlInt(task.curpro), Database.SqlInt(task.curpro), Database.SqlText("completed"),
                       Database.SqlText(resultFile), Database.SqlText(finishTime), SqlOf(name).value]
  {
    var successCount := SuccessCount(task.domains).value;
    sql, params := Database.UpdateBatchTask(SqlOf(name).value, Some(task.curpro), Some(successCount),
                                            Some("completed"), Some(resultFile), Some(finishTime));
    CompletedUpdateValues(task.curpro, resultFile, finishTime);
  }

  /**
   * `create_task` (lines 24-227) run to its end: the batch task is registered under its name, its
   * entries are processed (`searnum < 0` raises and `searnum == 0` blocks forever, so then
   * nothing is processed and the batch task never completes), and a task still registered at the
   * end is completed and, with a database, updated with its counts.
   *
   * Every entry is counted at most once, in order (`recordedAt` gives the entry of each
   * counted keyword), so the count never exceeds the number of entries, and the success
   * count stored equals it.
   */
  method CreateTask(table: TaskTable, job: Job, s: Settings, o: ProxyOracle, fetch: nat -> Upstream, ghost maxTotal: nat,
                    deleteAt: Option<nat>, hasDb: bool, resultFile: string, finishTime: string)
    returns (task: BatchTask, update: Option<(string, seq<Database.SqlValue>)>, ghost recordedAt: seq<nat>,
             ghost traces: seq<seq<Turn>>)
    requires forall k :: TotalsBounded(fetch(k), maxTotal)
    modifies table
    ensures fresh(task) && task.numpro == |job.names| && task.appname == job.kind && task.Consistent()
    ensures |recordedAt| == task.curpro && task.curpro <= task.numpro
    ensures CountedInOrder(job.names, recordedAt, task.queryKeywords, |job.names|)
    ensures !Hashable(job.taskname) ==> table.tasks == old(table.tasks)
    ensures !Hashable(job.taskname) || job.searnum <= 0 ==> task.curpro == 0 && !task.cancelled && traces == []
    ensures Hashable(job.taskname) && job.searnum > 0 ==>
      && |traces| == |job.names| && EntriesRan(job.kind, job.names, s, o, fetch, deleteAt, traces, recordedAt)
      && StoredAsRecorded(job.kind, job.names, traces, recordedAt, task.domains)
    ensures Hashable(job.taskname) && !Deleted(job, deleteAt) ==> table.tasks == old(table.tasks)[job.taskname := task]
    ensures Deleted(job, deleteAt) ==>
      table.tasks == old(table.tasks) - {job.taskname} && task.cancelled && AllBelow(recordedAt, deleteAt.value)
    ensures task.completed <==> Hashable(job.taskname) && job.searnum > 0 && !Deleted(job, deleteAt)
    ensures SuccessCount(task.domains) == Some(task.curpro)
    ensures update.Some? <==> task.completed && hasDb
    ensures update.Some? ==>
      Database.CountChar(update.value.0, '?') == |update.value.1| &&
      update.value.1 == [Database.SqlInt(task.curpro), Database.SqlInt(task.curpro), Database.SqlText("completed"),
                         Database.SqlText(resultFile), Database.SqlText(finishTime), SqlOf(job.taskname).value]
  {
    task := new BatchTask(|job.names|, job.kind);
    update, recordedAt, traces := None, [], [];
    if Hashable(job.taskname) {
      table.tasks := table.tasks[job.taskname := task];
      if job.searnum > 0 {
        update, recordedAt, traces := RunRegistered(table, task, job, s, o, fetch, maxTotal, deleteAt, hasDb, resultFile, finishTime);
      }
    }
  }

  /**
   * The part of `create_task` after a positive `searnum` (lines 180-224): the entries of the
   * registered batch task are processed, then the `finally` block completes it.
   */
  method RunRegistered(table: TaskTable, task: BatchTask, job: Job, s: Settings, o: ProxyOracle, fetch: nat -> Upstream,
                       ghost maxTotal: nat, deleteAt: Option<nat>, hasDb: bool, resultFile: string, finishTime: string)
    returns (update: Option<(string, seq<Database.SqlValue>)>, ghost recordedAt: seq<nat>, ghost traces: seq<seq<Turn>>)
    requires forall k :: TotalsBounded(fetch(k), maxTotal)
    requires Hashable(job.taskname) && job.searnum > 0 && task.numpro == |job.names| && task.appname == job.kind
    requires job.taskname in table.tasks && table.tasks[job.taskname] == task
    requires task.Consistent() && task.curpro == 0 && !task.cancelled && !task.completed
    modifies table, task
    ensures task.Consistent() && |recordedAt| == task.curpro && task.curpro <= task.numpro
    ensures CountedInOrder(job.names, recordedAt, task.queryKeywords, |job.names|)
    ensures |traces| == |job.names| && EntriesRan(job.kind, job.names, s, o, fetch, deleteAt, traces, recordedAt)
    ensures StoredAsRecorded(job.kind, job.names, traces, recordedAt, task.domains)
    ensures !Deleted(job, deleteAt) ==> table.tasks == old(table.tasks) && !task.cancelled
    ensures Deleted(job, deleteAt) ==>
      table.tasks == old(table.tasks) - {job.taskname} && task.cancelled && AllBelow(recordedAt, deleteAt.value)
    ensures task.completed <==> !Deleted(job, deleteAt)
    ensures SuccessCount(task.domains) == Some(task.curpro)
    ensures update.Some? <==> task.completed && hasDb
    ensures update.Some? ==>
      Database.CountChar(update.value.0, '?') == |update.value.1| &&
      update.value.1 == [Database.SqlInt(task.curpro), Database.SqlInt(task.curpro), Database.SqlText("completed"),
                         Database.SqlText(resultFile), Database.SqlText(finishTime), SqlOf(job.taskname).value]
  {
    recordedAt, traces := RunEntries(table, task, job, s, o, fetch, maxTotal, deleteAt);
    IncreasingBelow(recordedAt, |job.names|);
    update := Finish(table, job.taskname, task, hasDb, resultFile, finishTime);
  }

  /**
   * The `finally` block of `create_task` (lines 188-224): a batch task still registered under
   * its name is marked completed and, with a database, its counts are written.
   */
  method Finish(table: TaskTable, name: Json, task: BatchTask, hasDb: bool, resultFile: string, finishTime: string)
    returns (update: Option<(string, seq<Database.SqlValue>)>)
    requires task.Consistent() && Hashable(name)
    requires name in table.tasks ==> table.tasks[name] == task
    modifies task
    ensures task.completed == (old(task.completed) || name in table.tasks)
    ensures task.curpro == old(task.curpro) && task.domains == old(task.domains) && task.queryKeywords == old(task.queryKeywords)
    ensures task.cancelled == old(task.cancelled) && task.Consistent()
    ensures update.Some? <==> name in table.tasks && hasDb
    ensures update.Some? ==>
      Database.CountChar(update.value.0, '?') == |update.value.1| &&
      update.value.1 == [Database.SqlInt(task.curpro), Database.SqlInt(task.curpro), Database.SqlText("completed"),
                         Database.SqlText(resultFile), Database.SqlText(finishTime), SqlOf(name).value]
  {
    update := None;
    if name in table.tasks {
      var t := table.tasks[name];
      t.completed := true;
      if hasDb {
        var sql, params := CompletedUpdate(t, name, resultFile, finishTime);
        update := Some((sql, params));
      }
    }
  }
}
