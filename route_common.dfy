/**
 * What the two query routes share: the settings they read, the proxy sources, the calls they
 * make to the ICP portal client and the replies they send.
 *
 * The portal client, the URL check, the local proxy pool and the proxy-extraction API are
 * outside the model: they are inputs. The portal is a function from the index of a call
 * within one request (or one batch entry) and the call itself to the decoded reply.
 */
module RouteCommon {
  import opened Wrappers
  import opened JsonValues
  import opened PySemantics

  const ShieldBlocked: string := "当前访问已被创宇盾拦截"
  const TunnelInvalid: string := "当前启用隧道代理，但代理地址无效"
  const ApiInvalid: string := "当前启用API提取代理，但API地址无效"

  /**
   * The configuration values the routes read: `captcha.retry_times`, `risk_avoidance.allow_type`
   * and `prohibit_suffix`, `proxy.local_ipv6_pool.enable`, `proxy.tunnel.url`,
   * `proxy.extra_api.url` and `proxy.extra_api.auto_maintenace` (an unset URL is "").
   */
  datatype Settings = Settings(
    retryTimes: int,
    allowType: seq<string>,
    prohibitSuffix: seq<string>,
    ipv6PoolEnabled: bool,
    tunnelUrl: string,
    extraApiUrl: string,
    autoMaintenance: bool)

  /**
   * The proxy sources outside the model: `is_valid_url`, and for attempt `i` the address the
   * local pool hands out and the address picked from the extraction API's list, each `None`
   * when that step raises (the pool's timeout, `random.choice` of an empty list).
   */
  datatype ProxyOracle = ProxyOracle(
    validUrl: string -> bool,
    pooled: nat -> Option<string>,
    extracted: nat -> Option<string>)

  /** The outcome of choosing a proxy: one to use (`None` for a direct call), a refusal, or an exception. */
  datatype ProxyPick = Use(proxy: Option<string>) | Refuse(message: string) | ProxyRaised

  /** The proxy argument of a portal call: a chosen one, or `f"http://{v}"` of a value the client sent. */
  datatype ProxyArg = Given(url: Option<string>) | HttpOf(value: Json)

  /** A call of a portal query function: the paged ones take a page, the blacklist ones do not. */
  datatype Call =
    | Paged(kind: string, search: Json, pageNum: Json, pageSize: Json, proxy: ProxyArg)
    | Unpaged(kind: string, search: Json, proxy: ProxyArg)

  /** The portal: the decoded reply to the call with the given index. */
  type Upstream = (nat, Call) -> Json

  /**
   * What a route sends back: a JSON body; the error middleware's `{"code": 500, "msg": str(e)}`
   * for an exception that escapes the handler; or the text `None` when the handler returns nothing.
   */
  datatype Reply = Body(json: Json) | Crashed | NoneText

  /** The keys of `app['appth']`: the query kinds answered page by page. */
  predicate IsPagedType(kind: string) {
    kind == "web" || kind == "app" || kind == "mapp" || kind == "kapp"
  }

  /** The keys of `app['bappth']`: the blacklist kinds, answered in one call. */
  predicate IsBlacklistType(kind: string) {
    kind == "bweb" || kind == "bapp" || kind == "bmapp" || kind == "bkapp"
  }

  /** `any(s.endswith(end) for end in suffixes)`. */
  predicate HasProhibitedSuffix(s: string, suffixes: seq<string>) {
    exists i :: 0 <= i < |suffixes| && EndsWith(s, suffixes[i])
  }

  /** `data.get("code", 500) == 200` on a reply that is a dict. */
  predicate Ok(d: Json) {
    DictGet(d, "code", JInt(500)) == Some(JInt(200))
  }

  /** `data.get("message", "") == "当前访问已被创宇盾拦截"` on a reply that is a dict. */
  predicate Blocked(d: Json) {
    DictGet(d, "message", JStr("")) == Some(JStr(ShieldBlocked))
  }

  /** A reply after which a retry loop goes on: a dict that is neither a success nor the block message. */
  predicate Continues(d: Json) {
    d.JObject? && !Ok(d) && !Blocked(d)
  }

  /** The number of turns of `for i in range(n)`. */
  function Turns(n: int): (r: nat)
    ensures n <= 0 ==> r == 0
    ensures n > 0 ==> r == n
  {
    if n <= 0 then 0 else n
  }

  /** `{"code": code, key: text}`. */
  function Message(code: int, key: string, text: string): (r: Json)
    ensures key != "code" ==> r.JObject? && r.fields.Keys == {"code", key} && r.fields["code"] == JInt(code) && r.fields[key] == JStr(text)
  {
    Dict2("code", JInt(code), key, JStr(text))
  }
}
