# Pinboard API request gating, in Dafny

This project models the core of `pm-pinboard-api.php`, a PmWiki recipe that
proxies the Pinboard bookmarking API. Its core is the function
`PinboardAPIRequest` and the functions that maintain two persisted stores:

- the request log: a timestamp per cooldown category (`last-global`,
  `last-posts/recent`, `last-posts/all`) and the fingerprint of the last request;
- the response cache: the last response per request fingerprint, with its HTTP
  status and the time it was requested.

A request goes through these steps in order. First the method is authorised.
Then the query is built, with the fixed `format`/`auth_token` parameters merged
with the caller's. A fresh cache entry, if there is one, answers the request.
Otherwise the request is checked against its cooldown; the cooldown is
escalated to twice the longest one after an HTTP 429 (section 4 of RFC 6585).
Only then is the one HTTP call made, and the answer is cached and logged.

Modules:

- `Assoc` (`assoc.dfy`): PHP arrays with string keys as ordered entries, with
  lookup, in-place write and `array_merge`.
- `Gating` (`gating.dfy`): the decisions as pure functions. These are the
  cache-duration clamp, authorisation, the fingerprint, cache freshness, the
  cooldown category and window, the decision for one request (`Decide`), the
  state it leaves (`Step`) and the updates to both stores.
- `GatingProperties` (`properties.dfy`): lemmas about one request, about two
  requests in a row, about a reset, and about the log's global timestamp.
- `Proxy` (`proxy.dfy`): class `PinboardApi`. It holds the fixed configuration
  as constants and the two stores as `map` fields. Its `Request` method follows
  the source step by step and updates the fields in place. There is one
  exception: its authorisation step uses the intended `notes/` prefix test
  (`Authorised`), not the `preg_match` of line 69 as written (see
  "## Findings"). Each method's
  `ensures` ties the new state to the `Gating` functions.
- `Wrappers` (`wrappers.dfy`): `Option`.

The clock (`time()`) and the result of the HTTP call are parameters of
`Request`, not effects.

Behaviour worth knowing, as the code has it:

- The category test is a truthiness test. A method whose cooldown entry is
  missing or 0 is timed by `global`.
- The query parameters are not sorted. The same parameters in another order
  give a different fingerprint and so a different cache entry.
- Every request that reaches the network writes the log, whatever status
  it gets back (a 429 or a transport failure included). It writes only
  `last-global`, plus `last-posts/recent` or `last-posts/all` when the method
  is exactly that name. A method given its own cooldown in the configuration
  has its timestamp read but never written. Unless the stored log holds that
  timestamp, its own cooldown is measured from time 0.
- With caching off, updating the cache replaces the whole cache with the one
  new entry.
- A missing log key reads as 0. A fingerprint with no cache entry is never
  taken for a 429.

## Model

| member | source | states |
|---|---|---|
| `Assoc.Get` | pm-pinboard-api.php:103-104 | an array lookup finds a value exactly when the key is present, and the value is one stored under that key |
| `Assoc.Put` | pm-pinboard-api.php:81 | writing a key overwrites it in place or appends it; other keys keep their values and all keys keep their positions |
| `Assoc.Merge` | pm-pinboard-api.php:77-81 | `array_merge`: keys of both arrays; the first array's keys stay in front, in order; a key of the second overrides the first's value |
| `Assoc.MergeOfFreshKeys` | pm-pinboard-api.php:81 | `array_merge` of two PHP arrays with no key in common is the first followed by the second, in order |
| `Assoc.MergeLayout` | pm-pinboard-api.php:81 | `array_merge` of two PHP arrays is exactly the first array's entries in place, with the second's values where the keys clash, followed by the second's other entries in the second's order |
| `Gating.MaxCooldown` | pm-pinboard-api.php:42 | `max()` of the cooldown table is at least every cooldown and equal to one of them |
| `Gating.EffectiveCacheDuration` | pm-pinboard-api.php:41-43 | the duration is 0 when configured ≤ 0; otherwise it is ≥ the configured value and ≥ every cooldown, and equals the configured value or one cooldown |
| `Gating.RequestFingerprint` | pm-pinboard-api.php:76-85 | the query starts with `format` then `auth_token` and holds the caller's keys; caller values override; the fixed values remain when not overridden |
| `Gating.FreshCached` | pm-pinboard-api.php:93-98 | nothing is served with caching off, without an entry for the fingerprint, or from an entry older than `duration` seconds; what is served is the stored entry, unchanged and within the window |
| `Gating.AuthorisedAsWritten` | pm-pinboard-api.php:68-69 | the test as written admits only methods in the allowed list |
| `Gating.Authorised` | pm-pinboard-api.php:68-69 | the test as intended admits every listed method, and admits nothing unless it is listed or the `notes/ID` wildcard is |
| `Gating.CooldownCategory` | pm-pinboard-api.php:103 | the category is the method or `global`, always has an entry in the table, and is not `global` exactly when the method is not `global` itself and its entry is truthy |
| `Gating.CooldownWindow` | pm-pinboard-api.php:103-116 | the window is measured from `last-global` or from the method's own `last-<method>`, the latter only for a truthy table entry and never after a 429; when the longest cooldown is not negative, the window is never longer than twice it, and after a 429 it is at least the cooldown the method would otherwise get |
| `Gating.PreviousTooMany` | pm-pinboard-api.php:112-113 | a 429 is only ever read from the cache entry of the recorded last request |
| `Gating.Throttled` | pm-pinboard-api.php:105-118 | a request is never throttled once twice the longest cooldown has passed since the window's timestamp, when that cooldown is not negative |
| `Gating.Decide` | pm-pinboard-api.php:68-122 | the "not permitted" refusal comes exactly for unauthorised methods; a cache answer is the fresh entry for the request; the "too many requests" refusal comes exactly for an authorised, uncached, throttled request; a sent request carries its fingerprint and is not throttled |
| `Gating.LoggedTimes` | pm-pinboard-api.php:139-143 | after a sent request `last-global` is now; `last-posts/recent`/`last-posts/all` are now only for that exact method; no other key is added or changed |
| `Gating.UpdatedCache` | pm-pinboard-api.php:195-200 | the response is stored under its fingerprint; other entries are kept when the duration is positive; otherwise the cache holds just that one entry |
| `Gating.ResetTimes` | pm-pinboard-api.php:153-160 | the reset log has exactly the three timestamps and every log read on it gives 0 |
| `Gating.Step` | pm-pinboard-api.php:62-147 | a request that is not sent leaves both stores unchanged; the reply is a refusal exactly when the decision is one |
| `GatingProperties.CooldownAtMostMax` | pm-pinboard-api.php:104-114 | no cooldown in the table exceeds the longest one |
| `GatingProperties.ShippedDefaults` | pm-pinboard-api.php:34-43 | the shipped table is valid, caching is off by default, and the post-429 cooldown is 600 seconds |
| `GatingProperties.NotesPatternNeverCompiles` | pm-pinboard-api.php:69 | the pattern given to `preg_match` has no closing delimiter, so it never matches |
| `GatingProperties.AuthorisedAsWrittenIsMembership` | pm-pinboard-api.php:68-69 | as written, a method is authorised exactly when it is in the allowed list |
| `GatingProperties.NotesWildcardRefusedAsWritten` | pm-pinboard-api.php:68-73 | with the shipped list, `notes/<id>` is refused as written and admitted under the prefix reading |
| `GatingProperties.AuthorisedExtendsAsWritten` | pm-pinboard-api.php:68-69 | the prefix reading admits all that the written test admits; the only extra methods are unlisted `notes/` paths, and only when `notes/ID` is allowed |
| `GatingProperties.UnauthorisedChangesNothing` | pm-pinboard-api.php:68-73 | an unauthorised method gets the "not permitted" refusal; nothing is sent and both stores are unchanged |
| `GatingProperties.QueryLayout` | pm-pinboard-api.php:77-82 | the whole query: `format` then `auth_token`, each with the caller's value when given, then the caller's other parameters in the caller's order |
| `GatingProperties.QueryKeepsCallerOrder` | pm-pinboard-api.php:77-82 | caller keys that do not clash come after `format` and `auth_token`, in the caller's order |
| `GatingProperties.FingerprintDependsOnOrder` | pm-pinboard-api.php:81-85 | the same two parameters in two orders give two different fingerprints |
| `GatingProperties.CallerOverridesFixedParameters` | pm-pinboard-api.php:81 | a caller's `format` or `auth_token` replaces the fixed value in its leading position |
| `GatingProperties.FreshEntryServedUnchanged` | pm-pinboard-api.php:93-98 | a fresh entry for the request is returned unchanged, and neither store changes |
| `GatingProperties.CacheWindow` | pm-pinboard-api.php:93-95 | an entry recorded at T serves requests up to T+D inclusive (so at T+D-1) and not at T+D+1 |
| `GatingProperties.DisabledCacheNeverServes` | pm-pinboard-api.php:93 | with duration ≤ 0 the cache never answers |
| `GatingProperties.UnlistedMethodUsesGlobal` | pm-pinboard-api.php:103-105 | a method whose cooldown is missing or 0 is timed by the global cooldown from `last-global` |
| `GatingProperties.ListedMethodUsesOwnCooldown` | pm-pinboard-api.php:103-105 | a method with a nonzero cooldown is timed by it from `last-<method>` |
| `GatingProperties.EscalationAfterTooMany` | pm-pinboard-api.php:112-122 | after a 429, any authorised request not answered from cache is sent exactly when 2 × max cooldown has passed since `last-global`; otherwise it is refused as too many requests |
| `GatingProperties.ThrottledChangesNothing` | pm-pinboard-api.php:118-122 | a request inside its window is refused and neither store changes |
| `GatingProperties.SentRequestUpdatesStores` | pm-pinboard-api.php:129-146 | a sent request returns the network answer stamped with now, caches it under its fingerprint and records that fingerprint; `last-global` becomes now; with caching off the cache holds only that entry; the new log is `LoggedTimes` of the old and the new cache `UpdatedCache` of the old |
| `GatingProperties.TooManyRecordedAfterSend` | pm-pinboard-api.php:112-143 | after a sent request, the next request's 429 test holds exactly when the network answered 429 |
| `GatingProperties.LogKeyNames` | pm-pinboard-api.php:140-142 | the spelled-out log keys are `last-` followed by the three shipped categories |
| `GatingProperties.LogKeyInjective` | pm-pinboard-api.php:105 | distinct categories have distinct log keys |
| `GatingProperties.OnlyFixedTimestampsAdvance` | pm-pinboard-api.php:140-142 | a sent request never changes the timestamp of any category other than the three fixed ones |
| `GatingProperties.RepeatWithinCooldownThrottled` | pm-pinboard-api.php:103-122 | for a method timed by `global`, `posts/recent` or `posts/all`: after a sent request, a second one of the same method inside its cooldown that the cache does not answer is refused and changes nothing; this holds whatever status the first one got |
| `GatingProperties.OwnCooldownRepeatSent` | pm-pinboard-api.php:103-105 | with the table `global` 3 and `posts/get` 100 and caching off, a `posts/get` sent at 1000 that did not get a 429 does not stop a repeat at 1010 from being sent, because `last-posts/get` is never written |
| `GatingProperties.RepeatWithinCooldownServedFromCache` | pm-pinboard-api.php:41-43 | with caching on, the clamp means a repeat of the same request within the longest cooldown is answered from the cache with the first response |
| `GatingProperties.ResetAdmitsNextRequest` | pm-pinboard-api.php:153-160 | after a log reset, any authorised request at a time ≥ the longest cooldown is answered (from cache or sent), never refused |
| `GatingProperties.ResetIsGlobalLatest` | pm-pinboard-api.php:155-159 | in the reset log no timestamp is later than the global one |
| `GatingProperties.SendKeepsGlobalLatest` | pm-pinboard-api.php:140-143 | if the clock does not run backwards, a sent request keeps the global timestamp the latest |
| `GatingProperties.EscalatedWindowCoversOrdinary` | pm-pinboard-api.php:103-116 | when the global timestamp is the latest, a request the escalated window admits would also pass its ordinary cooldown |
| `Proxy.PinboardApi.constructor` | pm-pinboard-api.php:41-56 | clamps the cache duration; loads the stored log, or the reset log when none exists; loads the stored cache, or an empty one |
| `Proxy.PinboardApi.Request` | pm-pinboard-api.php:62-147 | reply and new stores are those of `Step`; refusals and cache hits change nothing; a sent request sets the log through `LogRequest`, records the fingerprint and sets the cache to `UpdatedCache` |
| `Proxy.PinboardApi.LogRequest` | pm-pinboard-api.php:139-143 | the log becomes `LoggedTimes` of the old log: the global timestamp and, for exactly `posts/recent` or `posts/all`, that method's timestamp are set to now |
| `Proxy.PinboardApi.UpdateResponseCache` | pm-pinboard-api.php:195-200 | the cache becomes `UpdatedCache` of the old cache |
| `Proxy.PinboardApi.ResetRequestLog` | pm-pinboard-api.php:153-160 | the log becomes the three zero timestamps with no last request; the cache is untouched |
| `Proxy.PinboardApi.ClearResponseCache` | pm-pinboard-api.php:180-183 | the cache becomes empty; the log is untouched |

## Left out

- The cURL call and the decoding of its answer (lines 125-134) are network I/O. Their result is the `NetworkResult` parameter (body and status); a transport failure is whatever status and body the caller passes. The payload is opaque text, and the merging of `http_code`/`request_time` into the decoded JSON is a record with three fields.
- File reads and writes, `json_encode`/`json_decode` and `mkdir` (lines 49-56 and 162-200). The persisted documents are the class's fields. The constructor receives what was loaded (`None` for a missing file). A corrupt file and a failing write are not modelled.
- `md5` and the byte-level encoding of `http_build_query` (lines 82-85). The fingerprint is the method path with the ordered, merged parameters. The hash is treated as collision-free, and the endpoint is left out because it is the same for every request.
- The global `$response_cache` is loaded once at setup (line 53), while `PinboardAPIUpdateResponseCache` re-reads and writes the file. The model keeps a single cache that every request reads, as if the cache were re-read per request.
- `PinboardAPIResetRequestLog` and `PinboardAPIClearResponseCache` only rewrite the files, not the in-process globals. In the model they overwrite the class's fields, which stand for the persisted documents.
- PmWiki configuration plumbing (`SDV`, `SDVA`, `$RecipeInfo`, lines 7-40) and the HTML/text error messages (lines 70-73, 119-122). Errors are the `Refusal` constructors.
- A cooldown table without a `global` entry: `ValidTable` requires one, which `SDVA`'s defaults supply. PHP's behaviour when it is missing is not modelled: null compared with an integer, and `max` of an empty array.
- PHP's loose comparison in `in_array` and `==` between numeric strings, and PHP's conversion of numeric-string array keys to integers (which `array_merge` renumbers). Keys and methods are compared as exact strings.
- PHP's 64-bit integers: timestamps, cooldowns and `2 * max` are unbounded integers, with no overflow to float.
- Regular-expression semantics of `preg_match` beyond the delimiter check and the intended prefix test.

## Findings

| source | as written | input that shows it | evidently intended | confidence | as-written member | corrected member |
|---|---|---|---|---|---|---|
| pm-pinboard-api.php:68-69 | the pattern passed to `preg_match` has no delimiters, so `^` is taken as the delimiter, no closing `^` is found, and `preg_match` fails; the `notes/ID` wildcard never admits anything | method `notes/8e5d6964bb810e0050b0` with the shipped allowed list is refused as "not permitted" | any method starting with `notes/` is admitted when `notes/ID` is in the allowed list | not executed | `Gating.AuthorisedAsWritten`, shown by `GatingProperties.NotesWildcardRefusedAsWritten` | `Gating.Authorised`, proved by `GatingProperties.AuthorisedExtendsAsWritten`; `Decide` and `PinboardApi.Request` use it |
