/**
  The decisions `PinboardAPIRequest` takes before and after its one HTTP call,
  as pure functions of the configuration, the two persisted stores, the
  requested method and parameters, the clock and the network's answer.
 */
module Gating {
  import opened Wrappers
  import opened Assoc

  /** HTTP 429 Too Many Requests, section 4 of RFC 6585. */
  const TOO_MANY_REQUESTS := 429

  const GLOBAL := "global"
  const POSTS_RECENT := "posts/recent"
  const POSTS_ALL := "posts/all"
  const LAST_GLOBAL := "last-global"
  const LAST_POSTS_RECENT := "last-posts/recent"
  const LAST_POSTS_ALL := "last-posts/all"

  /** The allowed-methods entry that stands for every `notes/<id>` method. */
  const NOTES_WILDCARD := "notes/ID"
  /** The prefix the wildcard is meant to admit. */
  const NOTES_PREFIX := "notes/"
  /** The pattern handed to `preg_match`, exactly as written (no delimiters). */
  const NOTES_PATTERN := "^notes\\/"

  /** Seconds between two requests, per cooldown category. */
  type CooldownTable = Entries<int>

  /**
    A request as the cache and the log identify it: the method path and the
    query parameters in the order they are serialised. It stands in for the MD5
    hash of the request URL; the endpoint is the same for every request of one
    installation and the hash is taken to be collision-free.
   */
  datatype Fingerprint = Fingerprint(path: string, query: Entries<string>)

  /** A response as it is returned and cached: the API's payload (kept opaque), its status and when it was requested. */
  datatype StoredResponse = StoredResponse(body: string, httpCode: int, requestTime: int)

  /** What the HTTP call brought back; a transport failure is a status such as 0 with an empty body. */
  datatype NetworkResult = NetworkResult(body: string, httpCode: int)

  /** The two refusals `PinboardAPIRequest` returns instead of a response. */
  datatype Refusal = MethodNotPermitted(name: string) | TooManyRequests

  datatype Reply = Refused(refusal: Refusal) | Response(response: StoredResponse)

  /** The fixed configuration; `cacheDuration` is the effective (clamped) duration. */
  datatype Settings = Settings(allowedMethods: seq<string>, cooldowns: CooldownTable, cacheDuration: int, token: string)

  /** The persisted state: the request log (timestamps and the last request's fingerprint) and the response cache. */
  datatype Store = Store(times: map<string, int>, lastRequestHash: Option<Fingerprint>, cache: map<Fingerprint, StoredResponse>)

  /** What to do with a request: refuse it, answer it from the cache, or send it. */
  datatype Decision = Deny(refusal: Refusal) | Serve(cached: StoredResponse) | Send(fingerprint: Fingerprint)

  /** A cooldown and the log key the elapsed time is measured from. */
  datatype Window = Window(cooldown: int, since: string)

  /** Every cooldown table the code can run with: distinct keys (a PHP array) and a "global" entry. */
  predicate ValidTable(t: CooldownTable)
  {
    Distinct(t) && GLOBAL in Keys(t)
  }

  /* ---------------- configuration ---------------- */

  /** `max($PinboardAPIMethodCooldowns)`: the longest cooldown in the table. */
  function MaxCooldown(t: CooldownTable): (max: int)
    requires t != []
    ensures forall i :: 0 <= i < |t| ==> t[i].1 <= max
    ensures exists i :: 0 <= i < |t| && t[i].1 == max
  {
    if |t| == 1 then t[0].1
    else
      var rest := MaxCooldown(t[1..]);
      if t[0].1 >= rest then t[0].1 else rest
  }

  /**
    The cache duration in effect: caching is off when the configured value is
    not positive, and otherwise the duration is raised to the longest cooldown,
    no further than that.
   */
  function EffectiveCacheDuration(configured: int, t: CooldownTable): (d: int)
    requires t != []
    ensures configured <= 0 ==> d == 0
    ensures configured > 0 ==> d >= configured && forall i :: 0 <= i < |t| ==> t[i].1 <= d
    ensures configured > 0 ==> d == configured || exists i :: 0 <= i < |t| && t[i].1 == d
  {
    if configured > 0 then
      var longest := MaxCooldown(t);
      if configured >= longest then configured else longest
    else 0
  }

  /* ---------------- method authorisation ---------------- */

  /** PHP's truthiness of an array lookup: null (a missing key) and 0 are both false. */
  predicate Truthy(v: Option<int>)
  {
    v.Some? && v.value != 0
  }

  /** The intended reading of the `notes/` wildcard: a prefix test. */
  predicate IsNotesPath(m: string)
  {
    NOTES_PREFIX <= m
  }

  /** `preg_match` takes the first character of a pattern as its delimiter; a bracket opens a pair. */
  function ClosingDelimiter(c: char): char
  {
    match c
    case '(' => ')'
    case '[' => ']'
    case '{' => '}'
    case '<' => '>'
    case _ => c
  }

  /**
    Whether `preg_match` accepts a pattern that has no leading whitespace and
    no escaped delimiter: the first character must be neither alphanumeric, a
    backslash nor whitespace, and its closing delimiter must follow.
    Otherwise `preg_match` warns and returns false.
   */
  predicate PatternCompiles(p: string)
  {
    && |p| >= 2
    && !('a' <= p[0] <= 'z' || 'A' <= p[0] <= 'Z' || '0' <= p[0] <= '9')
    && p[0] !in {'\\', ' ', '\t', '\n', '\r'}
    && ClosingDelimiter(p[0]) in p[1..]
  }

  /**
    The authorisation test as written: membership, or the wildcard entry
    together with a `preg_match` on a pattern that lacks delimiters, so that
    second branch can only fire if the pattern compiles.
   */
  predicate AuthorisedAsWritten(allowed: seq<string>, m: string)
    ensures AuthorisedAsWritten(allowed, m) ==> m in allowed
  {
    m in allowed || (NOTES_WILDCARD in allowed && PatternCompiles(NOTES_PATTERN) && IsNotesPath(m))
  }

  /**
    The authorisation test as intended, and as this model uses it: membership,
    or the wildcard entry together with the `notes/` prefix.
   */
  predicate Authorised(allowed: seq<string>, m: string)
    ensures m in allowed ==> Authorised(allowed, m)
    ensures Authorised(allowed, m) ==> m in allowed || NOTES_WILDCARD in allowed
  {
    m in allowed || (NOTES_WILDCARD in allowed && IsNotesPath(m))
  }

  /* ---------------- fingerprint ---------------- */

  /** The parameters every request carries before the caller's. */
  function FixedParameters(token: string): Entries<string>
  {
    [("format", "json"), ("auth_token", token)]
  }

  /** The request a call builds: the fixed parameters merged with the caller's, unsorted. */
  function RequestFingerprint(token: string, m: string, params: Entries<string>): (fp: Fingerprint)
    ensures fp.path == m
    ensures |fp.query| >= 2 && fp.query[0].0 == "format" && fp.query[1].0 == "auth_token"
    ensures Keys(fp.query) == {"format", "auth_token"} + Keys(params)
    ensures Distinct(params) ==> forall k :: k in Keys(params) ==> Get(fp.query, k) == Get(params, k)
    ensures "format" !in Keys(params) ==> Get(fp.query, "format") == Some("json")
    ensures "auth_token" !in Keys(params) ==> Get(fp.query, "auth_token") == Some(token)
  {
    var fixed := FixedParameters(token);
    assert fixed[1..] == [("auth_token", token)] && fixed[1..][1..] == [];
    assert Keys(fixed[1..]) == {"auth_token"};
    assert Keys(fixed) == {"format", "auth_token"};
    assert Get(fixed, "format") == Some("json") && Get(fixed, "auth_token") == Some(token);
    Fingerprint(m, Merge(fixed, params))
  }

  /* ---------------- response cache policy ---------------- */

  /** The cached response that may be returned instead of a request, if any. */
  function FreshCached(cache: map<Fingerprint, StoredResponse>, fp: Fingerprint, duration: int, now: int): (r: Option<StoredResponse>)
    ensures duration <= 0 || fp !in cache ==> r.None?
    ensures fp in cache && cache[fp].requestTime < now - duration ==> r.None?
    ensures r.Some? ==> r.value == cache[fp] && r.value.requestTime >= now - duration
  {
    if duration > 0 && fp in cache && now - cache[fp].requestTime <= duration then Some(cache[fp]) else None
  }

  /* ---------------- cooldown policy ---------------- */

  /** The log key of a cooldown category. */
  function LogKey(category: string): string
  {
    "last-" + category
  }

  /** A log read: a missing key reads as 0. */
  function LogTime(times: map<string, int>, key: string): int
  {
    if key in times then times[key] else 0
  }

  /** The category whose cooldown applies: the method itself when its entry is truthy, "global" otherwise. */
  function CooldownCategory(t: CooldownTable, m: string): (c: string)
    requires ValidTable(t)
    ensures c in Keys(t)
    ensures c == m || c == GLOBAL
    ensures c != GLOBAL <==> m != GLOBAL && Truthy(Get(t, m))
  {
    if Truthy(Get(t, m)) then m else GLOBAL
  }

  /** Whether the previous request got a 429; it is read from the cache, and a missing entry is not a 429. */
  predicate PreviousTooMany(st: Store)
    ensures PreviousTooMany(st) ==> st.lastRequestHash.Some? && st.lastRequestHash.value in st.cache
  {
    st.lastRequestHash.Some? && st.lastRequestHash.value in st.cache
    && st.cache[st.lastRequestHash.value].httpCode == TOO_MANY_REQUESTS
  }

  /** The cooldown that applies and the log key it is measured from, escalated after a 429. */
  function CooldownWindow(t: CooldownTable, st: Store, m: string): (w: Window)
    requires ValidTable(t)
    ensures w.since == LAST_GLOBAL || w.since == LogKey(m)
    ensures w.since != LAST_GLOBAL ==> !PreviousTooMany(st) && Truthy(Get(t, m))
    ensures MaxCooldown(t) >= 0 ==> w.cooldown <= 2 * MaxCooldown(t)
    ensures PreviousTooMany(st) && MaxCooldown(t) >= 0 ==> w.cooldown >= Get(t, CooldownCategory(t, m)).value
  {
    if PreviousTooMany(st) then Window(2 * MaxCooldown(t), LAST_GLOBAL)
    else
      var category := CooldownCategory(t, m);
      Window(Get(t, category).value, LogKey(category))
  }

  /** The request comes too soon: less time has elapsed than the window's cooldown. */
  predicate Throttled(t: CooldownTable, st: Store, m: string, now: int)
    requires ValidTable(t)
    ensures MaxCooldown(t) >= 0 && now - LogTime(st.times, CooldownWindow(t, st, m).since) >= 2 * MaxCooldown(t)
      ==> !Throttled(t, st, m, now)
  {
    var w := CooldownWindow(t, st, m);
    now - LogTime(st.times, w.since) < w.cooldown
  }

  /* ---------------- one request ---------------- */

  /** The decision `PinboardAPIRequest` takes, in the order it tests. */
  function Decide(s: Settings, st: Store, m: string, params: Entries<string>, now: int): (d: Decision)
    requires ValidTable(s.cooldowns)
    ensures d == Deny(MethodNotPermitted(m)) <==> !Authorised(s.allowedMethods, m)
    ensures d.Serve? ==>
      Authorised(s.allowedMethods, m)
      && FreshCached(st.cache, RequestFingerprint(s.token, m, params), s.cacheDuration, now) == Some(d.cached)
    ensures d == Deny(TooManyRequests) <==>
      Authorised(s.allowedMethods, m)
      && FreshCached(st.cache, RequestFingerprint(s.token, m, params), s.cacheDuration, now).None?
      && Throttled(s.cooldowns, st, m, now)
    ensures d.Send? ==> d.fingerprint == RequestFingerprint(s.token, m, params) && !Throttled(s.cooldowns, st, m, now)
  {
    if !Authorised(s.allowedMethods, m) then Deny(MethodNotPermitted(m))
    else
      var fp := RequestFingerprint(s.token, m, params);
      var hit := FreshCached(st.cache, fp, s.cacheDuration, now);
      if hit.Some? then Serve(hit.value)
      else if Throttled(s.cooldowns, st, m, now) then Deny(TooManyRequests)
      else Send(fp)
  }

  /**
    The request log after a request that reached the network: the global
    timestamp, and the timestamp of `posts/recent` or `posts/all` when it is
    that exact method; the two names are fixed, not read from the table.
   */
  function LoggedTimes(times: map<string, int>, m: string, now: int): (t': map<string, int>)
    ensures LAST_GLOBAL in t' && t'[LAST_GLOBAL] == now
    ensures m in {POSTS_RECENT, POSTS_ALL} ==> LogKey(m) in t' && t'[LogKey(m)] == now
    ensures forall k :: k in t' <==> k in times || k == LAST_GLOBAL || (m in {POSTS_RECENT, POSTS_ALL} && k == LogKey(m))
    ensures forall k :: k in times && k != LAST_GLOBAL && !(m in {POSTS_RECENT, POSTS_ALL} && k == LogKey(m)) ==> t'[k] == times[k]
  {
    assert LogKey(POSTS_RECENT) == LAST_POSTS_RECENT && LogKey(POSTS_ALL) == LAST_POSTS_ALL;
    var logged := times[LAST_GLOBAL := now];
    if m == POSTS_RECENT then logged[LAST_POSTS_RECENT := now]
    else if m == POSTS_ALL then logged[LAST_POSTS_ALL := now]
    else logged
  }

  /**
    `PinboardAPIUpdateResponseCache`: the response goes in under its
    fingerprint; the other entries survive only while caching is on.
   */
  function UpdatedCache(cache: map<Fingerprint, StoredResponse>, duration: int, fp: Fingerprint, resp: StoredResponse)
    : (c': map<Fingerprint, StoredResponse>)
    ensures fp in c' && c'[fp] == resp
    ensures duration > 0 ==> c'.Keys == cache.Keys + {fp}
    ensures duration > 0 ==> forall f :: f in cache && f != fp ==> c'[f] == cache[f]
    ensures duration <= 0 ==> c'.Keys == {fp}
  {
    var kept := if duration > 0 then cache else map[];
    kept[fp := resp]
  }

  /** `PinboardAPIResetRequestLog`: the three timestamps at zero and no last request. */
  function ResetTimes(): (times: map<string, int>)
    ensures forall k :: LogTime(times, k) == 0
    ensures times.Keys == {LAST_GLOBAL, LAST_POSTS_RECENT, LAST_POSTS_ALL}
  {
    map[LAST_GLOBAL := 0, LAST_POSTS_RECENT := 0, LAST_POSTS_ALL := 0]
  }

  /** The reply to one request and the stores after it. */
  function Step(s: Settings, st: Store, m: string, params: Entries<string>, now: int, net: NetworkResult)
    : (r: (Reply, Store))
    requires ValidTable(s.cooldowns)
    ensures !Decide(s, st, m, params, now).Send? ==> r.1 == st
    ensures Decide(s, st, m, params, now).Deny? <==> r.0.Refused?
  {
    match Decide(s, st, m, params, now)
    case Deny(refusal) => (Refused(refusal), st)
    case Serve(cached) => (Response(cached), st)
    case Send(fp) =>
      var resp := StoredResponse(net.body, net.httpCode, now);
      (Response(resp), Store(LoggedTimes(st.times, m, now), Some(fp), UpdatedCache(st.cache, s.cacheDuration, fp, resp)))
  }

  /* ---------------- shipped defaults ---------------- */

  const DEFAULT_ALLOWED_METHODS: seq<string> := [
    "posts/update", "posts/get", "posts/recent", "posts/dates", "posts/all", "posts/suggest",
    "tags/get", "user/secret", "notes/list", "notes/ID"
  ]

  const DEFAULT_COOLDOWNS: CooldownTable := [(GLOBAL, 3), (POSTS_RECENT, 60), (POSTS_ALL, 300)]

  const DEFAULT_CACHE_DURATION := 0
}
