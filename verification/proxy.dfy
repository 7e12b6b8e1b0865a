/**
  The proxy as one object: its configuration, fixed at setup, and the two
  persisted stores that every request reads and, when it reaches the
  network, rewrites. The clock and the HTTP call's result are parameters.
 */
module Proxy {
  import opened Wrappers
  import opened Assoc
  import opened Gating

  class PinboardApi {
    const allowedMethods: seq<string>
    const cooldowns: CooldownTable
    /** The effective cache duration, after the clamp. */
    const cacheDuration: int
    const token: string

    /** The request log: "last-<category>" timestamps and the last request's fingerprint. */
    var times: map<string, int>
    var lastRequestHash: Option<Fingerprint>
    /** The response cache, by fingerprint. */
    var cache: map<Fingerprint, StoredResponse>

    /** The configuration every request relies on: a usable cooldown table and a clamped duration. */
    ghost predicate Valid()
    {
      && ValidTable(cooldowns)
      && cacheDuration >= 0
      && (cacheDuration > 0 ==> forall i :: 0 <= i < |cooldowns| ==> cooldowns[i].1 <= cacheDuration)
    }

    function Config(): Settings
    {
      Settings(allowedMethods, cooldowns, cacheDuration, token)
    }

    ghost function Snapshot(): Store
      reads this
    {
      Store(times, lastRequestHash, cache)
    }

    /**
      Setup: clamp the cache duration, then load both stores. A missing log
      file is reset first; a missing cache file reads as the empty cache.
     */
    constructor (
      allowedMethods: seq<string>, cooldowns: CooldownTable, configuredDuration: int, token: string,
      storedLog: Option<(map<string, int>, Option<Fingerprint>)>,
      storedCache: Option<map<Fingerprint, StoredResponse>>)
      requires ValidTable(cooldowns)
      ensures Valid()
      ensures this.allowedMethods == allowedMethods && this.cooldowns == cooldowns && this.token == token
      ensures cacheDuration == EffectiveCacheDuration(configuredDuration, cooldowns)
      ensures storedLog.None? ==> times == ResetTimes() && lastRequestHash == None
      ensures storedLog.Some? ==> times == storedLog.value.0 && lastRequestHash == storedLog.value.1
      ensures cache == if storedCache.Some? then storedCache.value else map[]
    {
      this.allowedMethods := allowedMethods;
      this.cooldowns := cooldowns;
      this.cacheDuration := EffectiveCacheDuration(configuredDuration, cooldowns);
      this.token := token;
      if storedLog.Some? {
        times, lastRequestHash := storedLog.value.0, storedLog.value.1;
      } else {
        times, lastRequestHash := ResetTimes(), None;
      }
      cache := if storedCache.Some? then storedCache.value else map[];
    }

    /**
      `PinboardAPIRequest`: refuse an unauthorised method, answer from a fresh
      cache entry, refuse a request inside its cooldown (escalated after a
      429), and otherwise send it, cache the answer and log it.
     */
    method Request(m: string, params: Entries<string>, now: int, net: NetworkResult) returns (r: Reply)
      requires Valid()
      modifies this
      ensures Valid()
      ensures (r, Snapshot()) == Step(Config(), old(Snapshot()), m, params, now, net)
      ensures !Authorised(allowedMethods, m) ==> r == Refused(MethodNotPermitted(m))
      ensures !Decide(Config(), old(Snapshot()), m, params, now).Send? ==>
        times == old(times) && lastRequestHash == old(lastRequestHash) && cache == old(cache)
    {
      ghost var before := Snapshot();
      if !Authorised(allowedMethods, m) {
        return Refused(MethodNotPermitted(m));
      }
      var fp := RequestFingerprint(token, m, params);
      if cacheDuration > 0 && fp in cache && now - cache[fp].requestTime <= cacheDuration {
        return Response(cache[fp]);
      }
      var category := CooldownCategory(cooldowns, m);
      var cooldown := Get(cooldowns, category).value;
      var elapsed := now - LogTime(times, LogKey(category));
      if lastRequestHash.Some? && lastRequestHash.value in cache
         && cache[lastRequestHash.value].httpCode == TOO_MANY_REQUESTS {
        cooldown := 2 * MaxCooldown(cooldowns);
        elapsed := now - LogTime(times, LAST_GLOBAL);
      }
      assert (elapsed < cooldown) == Throttled(cooldowns, before, m, now);
      if elapsed < cooldown {
        return Refused(TooManyRequests);
      }
      var response := StoredResponse(net.body, net.httpCode, now);
      UpdateResponseCache(fp, response);
      LogRequest(m, now);
      lastRequestHash := Some(fp);
      r := Response(response);
    }

    /**
      The log update after a sent request: the global timestamp, and the
      timestamp of `posts/recent` or `posts/all` for exactly those methods.
     */
    method LogRequest(m: string, now: int)
      modifies this`times
      ensures times == LoggedTimes(old(times), m, now)
    {
      times := times[LAST_GLOBAL := now];
      if m == POSTS_RECENT {
        times := times[LAST_POSTS_RECENT := now];
      } else if m == POSTS_ALL {
        times := times[LAST_POSTS_ALL := now];
      }
    }

    /**
      `PinboardAPIUpdateResponseCache`: store the response under its
      fingerprint, starting from the current cache when caching is on and from
      an empty one when it is off.
     */
    method UpdateResponseCache(fp: Fingerprint, resp: StoredResponse)
      modifies this`cache
      ensures cache == UpdatedCache(old(cache), cacheDuration, fp, resp)
    {
      var kept := if cacheDuration > 0 then cache else map[];
      cache := kept[fp := resp];
    }

    /** `PinboardAPIResetRequestLog`: every timestamp back to zero, and no last request. */
    method ResetRequestLog()
      modifies this`times, this`lastRequestHash
      ensures times == ResetTimes() && lastRequestHash == None
    {
      times := map[LAST_GLOBAL := 0, LAST_POSTS_RECENT := 0, LAST_POSTS_ALL := 0];
      lastRequestHash := None;
    }

    /** `PinboardAPIClearResponseCache`: the cache becomes empty. */
    method ClearResponseCache()
      modifies this`cache
      ensures cache == map[]
    {
      cache := map[];
    }
  }
}
