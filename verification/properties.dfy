/**
  What the gating decisions promise: about one request (authorisation, the
  cache short-circuit, the cooldown category, escalation after a 429, what a
  request writes) and about a request that follows another one or a reset.
 */
module GatingProperties {
  import opened Wrappers
  import opened Assoc
  import opened Gating

  /* ---------------- configuration ---------------- */

  /** A cooldown in the table never exceeds the longest one. */
  lemma CooldownAtMostMax(t: CooldownTable, c: string)
    requires t != [] && c in Keys(t)
    ensures Get(t, c).value <= MaxCooldown(t)
  {
  }

  /** The shipped configuration: a valid table, caching off, and a post-429 cooldown of ten minutes. */
  lemma ShippedDefaults()
    ensures ValidTable(DEFAULT_COOLDOWNS)
    ensures EffectiveCacheDuration(DEFAULT_CACHE_DURATION, DEFAULT_COOLDOWNS) == 0
    ensures 2 * MaxCooldown(DEFAULT_COOLDOWNS) == 600
  {
    var d := DEFAULT_COOLDOWNS;
    assert d[1..][1..] == [(POSTS_ALL, 300)] && d[1..][1..][1..] == [];
    assert Keys(d[1..][1..]) == {POSTS_ALL};
    assert Keys(d[1..]) == {POSTS_RECENT, POSTS_ALL};
    assert Distinct(d[1..][1..]) && Distinct(d[1..]);
  }

  /* ---------------- authorisation ---------------- */

  /** The pattern as written has '^' as its delimiter and no closing '^'. */
  lemma NotesPatternNeverCompiles()
    ensures !PatternCompiles(NOTES_PATTERN)
  {
  }

  /** As written, only exact membership authorises a method: the wildcard branch is dead. */
  lemma AuthorisedAsWrittenIsMembership(allowed: seq<string>, m: string)
    ensures AuthorisedAsWritten(allowed, m) <==> m in allowed
  {
  }

  /** With the shipped method list, a `notes/<id>` request is refused as written and admitted as intended. */
  lemma NotesWildcardRefusedAsWritten()
    ensures !AuthorisedAsWritten(DEFAULT_ALLOWED_METHODS, "notes/8e5d6964bb810e0050b0")
    ensures Authorised(DEFAULT_ALLOWED_METHODS, "notes/8e5d6964bb810e0050b0")
  {
  }

  /** The intended test admits everything the written one does, and beyond that exactly the unlisted `notes/` paths. */
  lemma AuthorisedExtendsAsWritten(allowed: seq<string>, m: string)
    ensures AuthorisedAsWritten(allowed, m) ==> Authorised(allowed, m)
    ensures Authorised(allowed, m) && !AuthorisedAsWritten(allowed, m) <==>
      m !in allowed && NOTES_WILDCARD in allowed && IsNotesPath(m)
  {
  }

  /** A method that is not authorised is refused, nothing is sent and neither store changes. */
  lemma UnauthorisedChangesNothing(s: Settings, st: Store, m: string, params: Entries<string>, now: int, net: NetworkResult)
    requires ValidTable(s.cooldowns)
    requires !Authorised(s.allowedMethods, m)
    ensures Decide(s, st, m, params, now) == Deny(MethodNotPermitted(m))
    ensures Step(s, st, m, params, now, net) == (Refused(MethodNotPermitted(m)), st)
  {
  }

  /* ---------------- fingerprint ---------------- */

  /**
    The query in full: `format` and `auth_token` lead, each with the caller's
    value when the caller gives one, and the caller's other parameters follow
    in the caller's order.
   */
  lemma QueryLayout(token: string, m: string, params: Entries<string>)
    requires Distinct(params)
    ensures RequestFingerprint(token, m, params).query
         == Overwrite(FixedParameters(token), params) + Without(params, {"format", "auth_token"})
  {
    var fixed := FixedParameters(token);
    assert fixed[1..] == [("auth_token", token)] && fixed[1..][1..] == [];
    assert Keys(fixed[1..]) == {"auth_token"};
    assert Keys(fixed) == {"format", "auth_token"};
    assert Distinct(fixed);
    MergeLayout(fixed, params);
  }

  /** Caller parameters that do not clash with the fixed ones follow them, in the caller's order. */
  lemma QueryKeepsCallerOrder(token: string, m: string, params: Entries<string>)
    requires Distinct(params)
    requires "format" !in Keys(params) && "auth_token" !in Keys(params)
    ensures RequestFingerprint(token, m, params).query == FixedParameters(token) + params
  {
    var fixed := FixedParameters(token);
    assert fixed[1..] == [("auth_token", token)] && fixed[1..][1..] == [];
    assert Keys(fixed[1..]) == {"auth_token"} && Distinct(fixed);
    MergeOfFreshKeys(fixed, params);
  }

  /** The same parameters in another order make another fingerprint: nothing sorts them. */
  lemma FingerprintDependsOnOrder(token: string)
    ensures RequestFingerprint(token, "posts/get", [("tag", "dafny"), ("meta", "yes")])
         != RequestFingerprint(token, "posts/get", [("meta", "yes"), ("tag", "dafny")])
  {
  }

  /** A caller's `format` or `auth_token` replaces the fixed value and keeps its leading position. */
  lemma CallerOverridesFixedParameters(token: string, m: string, params: Entries<string>, k: string)
    requires Distinct(params) && k in Keys(params) && k in {"format", "auth_token"}
    ensures Get(RequestFingerprint(token, m, params).query, k) == Get(params, k)
    ensures RequestFingerprint(token, m, params).query[if k == "format" then 0 else 1].0 == k
  {
  }

  /* ---------------- response cache ---------------- */

  /** A fresh cached entry for the request is returned as it is; nothing is sent and neither store changes. */
  lemma FreshEntryServedUnchanged(s: Settings, st: Store, m: string, params: Entries<string>, now: int, net: NetworkResult)
    requires ValidTable(s.cooldowns) && Authorised(s.allowedMethods, m)
    requires s.cacheDuration > 0
    requires RequestFingerprint(s.token, m, params) in st.cache
    requires now - st.cache[RequestFingerprint(s.token, m, params)].requestTime <= s.cacheDuration
    ensures Step(s, st, m, params, now, net) == (Response(st.cache[RequestFingerprint(s.token, m, params)]), st)
  {
  }

  /** An entry recorded at `t` serves requests up to and including `t + d`, and no later one. */
  lemma CacheWindow(cache: map<Fingerprint, StoredResponse>, fp: Fingerprint, d: int, now: int)
    requires d > 0 && fp in cache
    ensures FreshCached(cache, fp, d, now).Some? <==> now <= cache[fp].requestTime + d
    ensures FreshCached(cache, fp, d, cache[fp].requestTime + d - 1) == Some(cache[fp])
    ensures FreshCached(cache, fp, d, cache[fp].requestTime + d + 1) == None
  {
  }

  /** With caching off, the cache never answers a request. */
  lemma DisabledCacheNeverServes(cache: map<Fingerprint, StoredResponse>, fp: Fingerprint, d: int, now: int)
    requires d <= 0
    ensures FreshCached(cache, fp, d, now) == None
  {
  }

  /* ---------------- cooldown ---------------- */

  /** A method without a truthy cooldown entry (none, or 0) is timed by the global cooldown from the global timestamp. */
  lemma UnlistedMethodUsesGlobal(t: CooldownTable, st: Store, m: string)
    requires ValidTable(t) && !Truthy(Get(t, m))
    ensures CooldownCategory(t, m) == GLOBAL
    ensures !PreviousTooMany(st) ==> CooldownWindow(t, st, m) == Window(Get(t, GLOBAL).value, LAST_GLOBAL)
  {
  }

  /** A method with a nonzero entry is its own category, timed from its own timestamp. */
  lemma ListedMethodUsesOwnCooldown(t: CooldownTable, st: Store, m: string)
    requires ValidTable(t) && Truthy(Get(t, m)) && !PreviousTooMany(st)
    ensures CooldownWindow(t, st, m) == Window(Get(t, m).value, LogKey(m))
  {
  }

  /**
    After a 429, whatever the method, a request that is authorised and not
    answered from the cache is sent exactly when twice the longest cooldown
    has passed since the last request of any kind, and refused otherwise.
   */
  lemma EscalationAfterTooMany(s: Settings, st: Store, m: string, params: Entries<string>, now: int)
    requires ValidTable(s.cooldowns) && PreviousTooMany(st) && Authorised(s.allowedMethods, m)
    requires FreshCached(st.cache, RequestFingerprint(s.token, m, params), s.cacheDuration, now).None?
    ensures Decide(s, st, m, params, now).Send? <==> now - LogTime(st.times, LAST_GLOBAL) >= 2 * MaxCooldown(s.cooldowns)
    ensures !Decide(s, st, m, params, now).Send? ==> Decide(s, st, m, params, now) == Deny(TooManyRequests)
  {
  }

  /** A request refused for coming too soon changes neither store. */
  lemma ThrottledChangesNothing(s: Settings, st: Store, m: string, params: Entries<string>, now: int, net: NetworkResult)
    requires ValidTable(s.cooldowns) && Authorised(s.allowedMethods, m)
    requires FreshCached(st.cache, RequestFingerprint(s.token, m, params), s.cacheDuration, now).None?
    requires Throttled(s.cooldowns, st, m, now)
    ensures Step(s, st, m, params, now, net) == (Refused(TooManyRequests), st)
  {
  }

  /* ---------------- state update ---------------- */

  /**
    A request that is sent returns the network's answer stamped with `now`,
    caches it under its fingerprint, records that fingerprint as the last
    request and advances the global timestamp.
   */
  lemma SentRequestUpdatesStores(s: Settings, st: Store, m: string, params: Entries<string>, now: int, net: NetworkResult)
    requires ValidTable(s.cooldowns) && Decide(s, st, m, params, now).Send?
    ensures var (r, st') := Step(s, st, m, params, now, net);
      var fp := RequestFingerprint(s.token, m, params);
      && r == Response(StoredResponse(net.body, net.httpCode, now))
      && st'.lastRequestHash == Some(fp)
      && st'.cache[fp] == StoredResponse(net.body, net.httpCode, now)
      && LogTime(st'.times, LAST_GLOBAL) == now
      && (s.cacheDuration <= 0 ==> st'.cache.Keys == {fp})
      && st'.times == LoggedTimes(st.times, m, now)
      && st'.cache == UpdatedCache(st.cache, s.cacheDuration, fp, StoredResponse(net.body, net.httpCode, now))
  {
  }

  /**
    The next request's 429 test reads what a sent request recorded: it
    escalates exactly when the network answered 429.
   */
  lemma TooManyRecordedAfterSend(s: Settings, st: Store, m: string, params: Entries<string>, now: int, net: NetworkResult)
    requires ValidTable(s.cooldowns) && Decide(s, st, m, params, now).Send?
    ensures PreviousTooMany(Step(s, st, m, params, now, net).1) <==> net.httpCode == TOO_MANY_REQUESTS
  {
  }

  /** The log keys the code spells out are those of the three shipped categories. */
  lemma LogKeyNames()
    ensures LogKey(GLOBAL) == LAST_GLOBAL
    ensures LogKey(POSTS_RECENT) == LAST_POSTS_RECENT
    ensures LogKey(POSTS_ALL) == LAST_POSTS_ALL
  {
  }

  /** The log key of a category names it back. */
  lemma LogKeyInjective(c: string, c': string)
    ensures LogKey(c) == LogKey(c') <==> c == c'
  {
    if LogKey(c) == LogKey(c') {
      assert c == LogKey(c)[5..];
      assert c' == LogKey(c')[5..];
    }
  }

  /**
    Only "last-global", "last-posts/recent" and "last-posts/all" ever advance:
    the timestamp of any other category, even one with its own cooldown entry,
    is what the log held before.
   */
  lemma OnlyFixedTimestampsAdvance(times: map<string, int>, m: string, now: int, c: string)
    requires c !in {GLOBAL, POSTS_RECENT, POSTS_ALL}
    ensures LogTime(LoggedTimes(times, m, now), LogKey(c)) == LogTime(times, LogKey(c))
  {
    LogKeyInjective(c, GLOBAL);
    LogKeyInjective(c, m);
  }

  /* ---------------- two requests ---------------- */

  /**
    A second request of the same method inside its cooldown is refused when the
    cache does not answer it, and leaves both stores as the first one left
    them. This holds for categories whose timestamp is recorded; whether the
    first response was a 429 does not matter.
   */
  lemma RepeatWithinCooldownThrottled(
    s: Settings, st: Store, m: string, p1: Entries<string>, t1: int, net1: NetworkResult,
    p2: Entries<string>, t2: int, net2: NetworkResult)
    requires ValidTable(s.cooldowns) && Decide(s, st, m, p1, t1).Send?
    requires CooldownCategory(s.cooldowns, m) in {GLOBAL, POSTS_RECENT, POSTS_ALL}
    requires t1 <= t2 < t1 + Get(s.cooldowns, CooldownCategory(s.cooldowns, m)).value
    requires var st2 := Step(s, st, m, p1, t1, net1).1;
      FreshCached(st2.cache, RequestFingerprint(s.token, m, p2), s.cacheDuration, t2).None?
    ensures var st2 := Step(s, st, m, p1, t1, net1).1;
      Step(s, st2, m, p2, t2, net2) == (Refused(TooManyRequests), st2)
  {
    var fp1 := RequestFingerprint(s.token, m, p1);
    var resp := StoredResponse(net1.body, net1.httpCode, t1);
    var times2 := LoggedTimes(st.times, m, t1);
    var st2 := Store(times2, Some(fp1), UpdatedCache(st.cache, s.cacheDuration, fp1, resp));
    assert Step(s, st, m, p1, t1, net1).1 == st2;
    var category := CooldownCategory(s.cooldowns, m);
    var cooldown := Get(s.cooldowns, category).value;
    CooldownAtMostMax(s.cooldowns, category);
    assert LogTime(times2, LAST_GLOBAL) == t1;
    if PreviousTooMany(st2) {
      assert CooldownWindow(s.cooldowns, st2, m) == Window(2 * MaxCooldown(s.cooldowns), LAST_GLOBAL);
    } else {
      if category == GLOBAL {
        LogKeyNames();
      } else {
        assert category == m && m in {POSTS_RECENT, POSTS_ALL};
      }
      assert LogTime(times2, LogKey(category)) == t1;
      assert CooldownWindow(s.cooldowns, st2, m) == Window(cooldown, LogKey(category));
    }
    assert Throttled(s.cooldowns, st2, m, t2);
  }

  /**
    A method with a cooldown of its own other than `posts/recent` and
    `posts/all` is not throttled by it: its timestamp is read but never
    written, so a repeat ten seconds later, inside its 100-second cooldown, is
    sent again.
   */
  lemma OwnCooldownRepeatSent(net: NetworkResult)
    ensures var s := Settings(["posts/get"], [(GLOBAL, 3), ("posts/get", 100)], 0, "token");
      && ValidTable(s.cooldowns)
      && var st2 := Step(s, Store(map[], None, map[]), "posts/get", [], 1000, net).1;
      (net.httpCode != TOO_MANY_REQUESTS ==> Decide(s, st2, "posts/get", [], 1010).Send?)
  {
    var t: CooldownTable := [(GLOBAL, 3), ("posts/get", 100)];
    assert t[1..] == [("posts/get", 100)] && t[1..][1..] == [];
    assert Keys(t[1..]) == {"posts/get"};
    assert Keys(t) == {t[0].0} + Keys(t[1..]) == {GLOBAL, "posts/get"};
    assert Distinct(t[1..]) && GLOBAL != "posts/get";
    assert ValidTable(t);
    var s := Settings(["posts/get"], t, 0, "token");
    var st := Store(map[], None, map[]);
    assert CooldownCategory(t, "posts/get") == "posts/get";
    assert CooldownWindow(t, st, "posts/get") == Window(100, LogKey("posts/get"));
    assert Decide(s, st, "posts/get", [], 1000).Send?;
    var times2 := LoggedTimes(map[], "posts/get", 1000);
    assert LogKey("posts/get") !in times2 by {
      LogKeyInjective("posts/get", GLOBAL);
      LogKeyNames();
    }
    var st2 := Step(s, st, "posts/get", [], 1000, net).1;
    assert st2.times == times2;
    if net.httpCode != TOO_MANY_REQUESTS {
      assert !PreviousTooMany(st2);
      assert CooldownWindow(t, st2, "posts/get") == Window(100, LogKey("posts/get"));
      assert !Throttled(t, st2, "posts/get", 1010);
    }
  }

  /**
    With caching on, the clamp of the cache duration means a repeat of the same
    request within the longest cooldown is answered from the cache with the
    first response, instead of being refused.
   */
  lemma RepeatWithinCooldownServedFromCache(
    configured: int, s: Settings, st: Store, m: string, params: Entries<string>,
    t1: int, net1: NetworkResult, t2: int, net2: NetworkResult)
    requires ValidTable(s.cooldowns) && configured > 0
    requires s.cacheDuration == EffectiveCacheDuration(configured, s.cooldowns)
    requires Decide(s, st, m, params, t1).Send?
    requires t1 <= t2 <= t1 + MaxCooldown(s.cooldowns)
    ensures var st2 := Step(s, st, m, params, t1, net1).1;
      Step(s, st2, m, params, t2, net2) == (Response(StoredResponse(net1.body, net1.httpCode, t1)), st2)
  {
  }

  /* ---------------- reset ---------------- */

  /**
    After the request log is reset, an authorised request at any time past the
    longest cooldown is answered: from the cache, or by being sent.
   */
  lemma ResetAdmitsNextRequest(s: Settings, cache: map<Fingerprint, StoredResponse>, m: string, params: Entries<string>, now: int)
    requires ValidTable(s.cooldowns) && Authorised(s.allowedMethods, m)
    requires now >= MaxCooldown(s.cooldowns)
    ensures !Decide(s, Store(ResetTimes(), None, cache), m, params, now).Deny?
  {
  }

  /* ---------------- the global timestamp is the latest ---------------- */

  /** No timestamp in the log is later than the global one. */
  ghost predicate GlobalLatest(times: map<string, int>)
  {
    forall k :: LogTime(times, k) <= LogTime(times, LAST_GLOBAL)
  }

  lemma ResetIsGlobalLatest()
    ensures GlobalLatest(ResetTimes())
  {
  }

  /** With a clock that does not run backwards, a sent request keeps the global timestamp the latest. */
  lemma SendKeepsGlobalLatest(times: map<string, int>, m: string, now: int)
    requires GlobalLatest(times) && now >= LogTime(times, LAST_GLOBAL)
    ensures GlobalLatest(LoggedTimes(times, m, now))
  {
    var times' := LoggedTimes(times, m, now);
    forall k
      ensures LogTime(times', k) <= LogTime(times', LAST_GLOBAL)
    {
      assert LogTime(times, k) <= LogTime(times, LAST_GLOBAL);
    }
  }

  /**
    The escalated window is the stricter one: whenever twice the longest
    (non-negative) cooldown has passed since the global timestamp, the
    method's ordinary cooldown has passed since its own timestamp too.
   */
  lemma EscalatedWindowCoversOrdinary(t: CooldownTable, times: map<string, int>, m: string, now: int)
    requires ValidTable(t) && GlobalLatest(times) && MaxCooldown(t) >= 0
    requires now - LogTime(times, LAST_GLOBAL) >= 2 * MaxCooldown(t)
    ensures now - LogTime(times, LogKey(CooldownCategory(t, m))) >= Get(t, CooldownCategory(t, m)).value
  {
  }
}
