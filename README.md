# ipRequestLimiter admission engine in Dafny

This project models the `ipLimiter` Express middleware in `src/index.ts`. For each (route, client address) pair the middleware keeps a limit record in a key-value store, with these fields:

- `delay`, the current backoff in seconds (0 while free attempts are in use);
- `attemptsLeft`, the free-attempt quota;
- `nextRequestTime`, an optional timestamp;
- `freeAttemptsUnlockTime`, an optional timestamp.

On each request it reads the record, decides whether the request may pass, writes a new record back, and then either calls the next handler or answers 429 with the new record as the body.

The modules:

- `LimiterTypes` (`types.dfy`): the record, the settings, and the defaults the factory fills in.
- `RouteKey` (`route_key.dfy`): path normalisation (strip leading and trailing `/`) and the key `storeKey_path_ip`.
- `Engine` (`engine.dfy`): the pure decision. `GetDelay` is the record builder. `FindIndex` is the schedule lookup. `Escalate` is the 429 record. `Decide` is the whole `if` cascade. Beside them are one lemma per case of the cascade, the record invariant `Consistent` and the escalation order. `Consistent` is kept by every call under `SaneConfig`: positive delays and non-negative settings.
- `Replay` (`replay.dfy`): successive requests from one client fed through `Decide`. A fresh client always gets `freeAttempts + 1` requests through. Inside the unlock window the quota counts down by one per request. When `freeAttemptsUnlockDelay > 0`, `delays[0] >= 0` and `freeAttempts >= 0`, the next request at the same instant is refused.
- `Scenarios` (`scenarios.dfy`): worked request sequences as facts about `Decide`.
- `Middleware` (`middleware.dfy`): class `IpLimiter`. Its `store: map<string, LimitInfo>` field stands for the store. `Handle` derives the key, reads, decides, writes through `ContinueRequest` or `StopRequest`, and answers. Its contract states the new store and which keys it leaves alone.
- `Clients` (`clients.dfy`): a caller that sends two requests to one `IpLimiter`.

Time is whole seconds. Every `moment()` in one request is the single instant `now`. The seconds difference to a stored time `t` is `t - now`, and an absent time counts as `now` (difference 0). The client address and the route are plain string inputs.

Where the code differs from what the option names and record fields suggest, the model follows the code:

- The key is not injective. `KeyNotInjective` shows two (route, client) pairs with the same key. `KeyInjectiveForUnderscoreFreeClients` shows the key does determine the pair when the client part has no `_`.
- A record in free mode can have `attemptsLeft == 0` and still carry an unlock time. This is the record written when the last free attempt is spent.
- A stored delay that is not in the schedule, with `increaseByLimitReached == 0`, escalates to `delays[0]`. It does not clamp at the last entry. `DecideKeepsConsistent` shows that such a record cannot arise from the same settings.
- A fresh client gets `freeAttempts + 1` requests through, not `freeAttempts`. The request after the last free attempt only arms the first backoff.
- A stored value that does not parse is not treated as "absent". `JSON.parse` throws inside the callback of `client.get` (`src/redis.ts:19`). That callback runs outside the promise executor, so the promise from `getRedisValue` never settles and the request is never answered.
- An unlock window of zero seconds or less does not limit anything when `freeAttempts >= 2`. Each request finds the window closed and restarts the quota. `ClosedWindowNeverDenies` shows that such a client is never refused, as long as its requests arrive in time order.

## Model

| member | source | states |
|---|---|---|
| LimiterTypes.WithDefaults | src/index.ts:28-34 | each setting the caller gives is kept; each missing one gets its documented default (delays 10..60, key prefix ipLimiter, increase 0, 3 free attempts, 10 s window) |
| Engine.DefaultsAreSane | src/index.ts:29-34 | with no settings the schedule is non-empty and strictly ascending, the settings meet `SaneConfig`, and the quota and the window are positive, so limiting is on and the invariant and escalation lemmas apply |
| RouteKey.TrimLeading | src/index.ts:42 | the result is a suffix of the route with no leading `/`, and only `/` characters were removed |
| RouteKey.TrimTrailing | src/index.ts:42 | the result is a prefix of the route with no trailing `/`, and only `/` characters were removed |
| RouteKey.NormalizePath | src/index.ts:42 | the normalised route neither starts nor ends with `/` |
| RouteKey.NormalizeRemovesOnlyOuterSlashes | src/index.ts:42 | the route is a run of slashes, then the normalised route, then a run of slashes |
| RouteKey.NormalizeCharacterised | src/index.ts:42 | a middle with no outer `/`, wrapped in any runs of `/`, normalises to exactly that middle |
| RouteKey.NormalizeIdempotent | src/index.ts:42 | normalising twice gives the same route as normalising once |
| RouteKey.Key | src/index.ts:44 | the key is the prefix, `_`, the route, `_`, the client address, each at its own position |
| RouteKey.KeyNotInjective | src/index.ts:44 | two different (route, client) pairs can produce the same key |
| RouteKey.KeyInjectiveForUnderscoreFreeClients | src/index.ts:44 | for client addresses without `_`, equal keys (same prefix) mean equal route and client |
| Middleware.RequestKey | src/index.ts:42-44 | the request's key is the configured prefix, `_`, the route with its outer `/` runs removed, `_`, then the client address, each at its own position |
| Engine.SecondsDiff | src/index.ts:59 | the difference added to `now` gives the stored time; an absent time gives 0 |
| Engine.GetDelay | src/index.ts:49-57 | positive quota: free mode with delay 0, one attempt fewer, unlock at now + window, no next time; otherwise: backoff for `delays[index]` with 0 attempts, next time now + delay, no unlock time; exactly one timestamp is set either way |
| Engine.Fresh | src/index.ts:49 | the default call: full quota minus one in free mode when the quota is positive, the first schedule entry otherwise |
| Engine.FindIndex | src/index.ts:130 | -1 exactly when the delay is not in the schedule, otherwise the first position holding it |
| Engine.FindIndexIsFirst | src/index.ts:130 | the first position is unique, so the search returns it |
| Engine.Escalate | src/index.ts:130-149 | the 429 record is a backoff record due at now + delay; its delay is the next entry below the last position, the last entry again at the last position with no increase, old delay + increase at the last position or off the schedule with a non-zero increase, and `delays[0]` off the schedule with no increase |
| Engine.Decide | src/index.ts:91-149 | nothing is written exactly when the schedule is empty; every written record has exactly one timestamp, set from `now`; a request is refused if and only if the stored record has no quota and a next-request time not yet passed |
| Engine.EmptyScheduleBypasses | src/index.ts:36 | an empty schedule allows every request and writes nothing |
| Engine.AbsentRecordAllowed | src/index.ts:91-96 | no record: allowed, and the written record is the default `getDelay` with the full quota |
| Engine.QuotaLeftAllowed | src/index.ts:99-108 | quota left: allowed; a still-open window decrements the quota, a closed or absent window restarts it from the configured amount |
| Engine.FirstBackoffArmed | src/index.ts:119-128 | no quota and no next-request time: allowed, and a `delays[0]` backoff is written |
| Engine.BackoffElapsedResets | src/index.ts:110-118 | a next-request time strictly in the past: allowed with a fresh quota, whatever the delay had reached |
| Engine.InWindowDenied | src/index.ts:130-149 | a next-request time now or later: refused, and the escalated record is written |
| Engine.DecideKeepsConsistent | src/index.ts:91-149 | with positive delays and non-negative settings, a record Decide writes is consistent whenever the stored one was (or was absent): free mode with `0 <= attemptsLeft < freeAttempts`, or backoff with a positive delay that is a schedule entry unless increases are on |
| Engine.DenyEscalates | src/index.ts:130-144 | for a consistent stored record, under positive delays, non-negative settings and a strictly ascending schedule, a refusal lengthens the delay, except at the last entry with no increase, where it keeps it |
| Replay.Replay | src/index.ts:45-88 | one verdict per request when each request decides on the record the previous one stored |
| Replay.NoTimerAllowsQuotaPlusOne | src/index.ts:99-128 | a record without a next-request time lets through one request more than the smaller of its quota and the configured quota, at any arrival times |
| Replay.FreshClientAllowsQuotaPlusOne | src/index.ts:91-128 | a new client's first `freeAttempts + 1` requests all pass, at any arrival times |
| Replay.QuotaCountsDown | src/index.ts:99-108 | inside an open window, n requests at one instant all pass and spend n attempts, keeping the unlock time |
| Replay.CountsDownAnyTimes | src/index.ts:99-108 | from a free record with quota `a` and an open window, up to `a` requests, each before the window the previous one opened has closed, all pass. They spend one attempt each, and the last one leaves the unlock time at its own time + window |
| Replay.ClosedWindowNeverDenies | src/index.ts:91-108 | with a window of zero or less and at least two free attempts, requests in time order are never refused, starting from no record or from a free record whose window has closed |
| Replay.BurstDeniedAfterQuotaPlusOne | src/index.ts:91-149 | with a positive window, a non-negative first delay and a non-negative quota, `freeAttempts + 2` requests at one instant: the first `freeAttempts + 1` pass and the last is refused |
| Scenarios.FreeAttemptThenBackoffThenDeny | src/index.ts:91-149 | one free attempt: pass and spend it, pass and arm 10 s, refuse and escalate to 20 s |
| Scenarios.BackoffOverReleases | src/index.ts:110-118 | after the backoff has ended, a request passes with a fresh window |
| Scenarios.CeilingIncrease | src/index.ts:131-142 | at the last entry (20) with increase 5, a refusal sets the delay to 25, due at now + 25 |
| Scenarios.ArmedThenDenied | src/index.ts:91-149 | no free attempts: the first request arms 10 s, a second at its end is refused with 20 s |
| Middleware.Lookup | src/index.ts:45 | the read gives the stored record when the key is present and nothing otherwise |
| Middleware.IpLimiter.constructor | src/index.ts:28-35 | the limiter's settings are the given ones with defaults filled in, over the given store |
| Middleware.IpLimiter.ContinueRequest | src/index.ts:61-76 | the record is stored under the key and the request continues carrying it |
| Middleware.IpLimiter.StopRequest | src/index.ts:78-89 | the record is stored under the key and the reply is 429 with that record as body |
| Middleware.IpLimiter.Handle | src/index.ts:35-149 | empty schedule: continue, store untouched; otherwise the store is updated at the request's key with Decide's record for what was stored there, the reply follows Decide's verdict, every other key keeps its value, and a 429 body is the record now stored |
| Clients.TwoRequests | src/index.ts:91-149 | two calls of Handle on one limiter with no free attempts: the first continues with a 10 s backoff, the second is refused with 20 s |

## Left out

- `src/redis.ts`: the store is the `store` map field. A connection, read or write error (a rejected promise) is not modelled, nor is JSON encoding and parsing.
- A stored value that fails to parse: in the source the request then hangs with no reply. The model has no such state.
- Express: `request.path`, `next()` and `status(429).send`. These are inputs (`path`) and `Response` values.
- `requestIp.getClientIp`: the client address is a string input. When no address is found, the source's template inserts the text `null`, which a caller of `Handle` would pass as that string.
- The `Object.assign` onto the request object: the attached record is the payload of `Continue`.
- `moment` and ISO-8601 strings: times are integer seconds. The source truncates sub-second differences toward zero in `diff(..., 'second')`. That truncation, and the separate `moment()` calls drifting apart within one request, are not modelled.
- JavaScript number semantics: settings and fields are unbounded integers. `NaN`, fractions, `undefined` fields and non-numeric stored values are not modelled. The truthiness test on `increaseByLimitReached` is `!= 0`.
- The client created by `getRedisMethods` on every request: that is I/O and resource handling.
- The unprotected read-modify-write between concurrent requests for one key: the model is sequential.
