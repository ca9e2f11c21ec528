# JP Bids MCP: a verified model

A Dafny model of the parts of the JP Bids MCP server and its gateway whose promises range over whole runs: the OAuth
token life cycle, three rate limiters, bounded memories and caches, calendar arithmetic, the CSV and iCalendar
printers, and the catalogue index, merge, summaries and ranking.  `dafny verify dfyconfig.toml` checks it.

How it is laid out:

- `OAuthStore` has both stores as classes over the same specification functions, and the simulation between them.
  `Jwt` has signing as an ideal tag.  `OAuthFlow` is the server as a state machine: an event is one atomic step of one
  request (verify, consume, check and mint, store, reply), and a run is any list of events, so requests interleave
  freely and may stop anywhere.  `OAuthInvariant`, `OAuthSteps` and `OAuthMinting` prove the invariant step by step,
  `OAuthTheorems` draws the promises from it, and `OAuthFirestore` carries them to the server over Firestore.
  `OAuthService` proves the other half: each step succeeds exactly when it should, and an honest client is answered.
- `SpacingLimiter`, `SlidingLog` and `FixedWindow` are the limiters; `RecentBids`, `ToolCache`, `CacheKey`,
  `CachedCalls`, `WatchListedAwards`, `OverlappingChecks` and `SavedSearchAlert` the memories.
- `CivilDays`, `IsoDates`, `JapaneseDates` and `EventWindow` are the calendar; `IcsText`, `BidCalendar`, `Csv` and
  `CsvExports` the printers.
- `ListedCompany`, `TextMatches`, `CatalogMerge`, `AwardMapping`, `PastAwards` and `BidRanking` are the catalogue, the
  summaries and the ranking.
- `InsertionMap` is the JavaScript `Map`, `StableSort` its `sort`; `Lists`, `NamedLists`, `Counting`, `Bids`,
  `Options` and `Strings` are shared vocabulary.

Where the code does less than its intent, the model follows the code and the exact condition is proved:

- `upsertSavedSearch` puts the new entry first and then lets the last one win, so an update of a listed name is lost
  (`SavedSearchAlert.UpsertStoresIff`, `SavedSearchAlert.UpdateIsLost`); with tokens a check therefore never advances
  (`SavedSearchAlert.TokenChecksNeverAdvance`).
- `mergeCatalog` drops the existing name when a longer one replaces it (`CatalogMerge.MergeLosesNothingIff`,
  `CatalogMerge.LongerNameDropsTheBundled`).
- `buildCacheKey` passes a list of top-level names as replacer, which drops nested names that are not among them.  A
  key is its arguments' own exactly when they hold no object below the top level (`CacheKey.KeyIsOwnIffShallow`).
- The proxy caches whatever tool its server has a time to live for, although `docs/adr/0018-cache-strategy.md` forbids
  it for tools that are not read-only or not idempotent (`CachedCalls.CachedAgainstDecisionIff`).
- Shifting composes only where the first shift lands in years 0 to 9999 or on the first of a month, because a longer
  year is cut off by `slice(0, 10)` (`IsoDates.ShiftIsAnAction`).  Review dates and event windows have exceptions there
  too (`BidCalendar.ReviewIsTwoDaysBeforeIff`, `EventWindow.WindowIsInOrderIff`), and 9999-13-05 is a date text that
  gets there (`BidCalendar.ReviewAfterYear9999`).
- A review and a briefing on one day share an event identifier (`BidCalendar.UidsAreDistinctIff`,
  `BidCalendar.BriefingSharesIdentifier`).
- A check awaits its search between reading a watch and storing it, so overlapping checks report notices twice
  (`OverlappingChecks.ChecksAreExactIffSequential`) and undo a save (`OverlappingChecks.SaveStandsIff`).
- An instance that already knows a watch ignores a newer token (`WatchListedAwards.TokenIsHonouredIff`).
- A description is joined with backslash and `n` before it is escaped, so a calendar shows those two characters
  (`BidCalendar.DescriptionsKeepBackslashN`), and a document URI is not escaped at all
  (`BidCalendar.FileSplitsIntoLines`).
- The fixed window admits 2 * max in a closed interval of its length, but only 2 * max - 1 in a half-open one.

Clocks, fresh ids, search results, child answers and timer readings are parameters of the operations that read them.
Ids, keys and texts that are only compared for equality are integers in the OAuth, cache and watch modules, with 0
for the empty text where it matters; wherever characters matter texts are strings.

## Model

| member | source | states |
|---|---|---|
| `OAuthStore.MemoryOAuthStore.RegisterClient` | src/oauth/store.ts:63-76 | registers under a fresh id for ninety days and answers the stored client |
| `OAuthStore.MemoryOAuthStore.GetClient` | src/oauth/store.ts:78-83 | answers the client unless it is unknown or its expiry second has come |
| `OAuthStore.MemoryOAuthStore.StoreAuthorizationCode` | src/oauth/store.ts:85-87 | stores the code under its id, everything else unchanged |
| `OAuthStore.MemoryOAuthStore.ConsumeAuthorizationCode` | src/oauth/store.ts:89-98 | answers an unexpired unconsumed code and marks it consumed, else changes nothing |
| `OAuthStore.MemoryOAuthStore.StoreRefreshToken` | src/oauth/store.ts:100-102 | stores the token under its id, everything else unchanged |
| `OAuthStore.MemoryOAuthStore.ConsumeRefreshToken` | src/oauth/store.ts:104-119 | the four outcomes in order: missing or expired, compromised, reused (which compromises the family), consumed |
| `OAuthStore.MemoryOAuthStore.ConsumeRateLimit` | src/oauth/store.ts:121-133 | opens, counts in or refuses from the bucket of the key |
| `OAuthStore.FirestoreOAuthStore.RegisterClient` | src/oauth/store.ts:145-158 | the same operation as a document write |
| `OAuthStore.FirestoreOAuthStore.GetClient` | src/oauth/store.ts:160-166 | the same operation as a document read |
| `OAuthStore.FirestoreOAuthStore.StoreAuthorizationCode` | src/oauth/store.ts:168-170 | the same operation as a document write |
| `OAuthStore.FirestoreOAuthStore.ConsumeAuthorizationCode` | src/oauth/store.ts:172-183 | the same operation as one transaction that updates only `consumedAt` |
| `OAuthStore.FirestoreOAuthStore.StoreRefreshToken` | src/oauth/store.ts:185-187 | the same operation as a document write |
| `OAuthStore.FirestoreOAuthStore.MergeFamilyDocument` | src/oauth/store.ts:203-212 | a merging write keeps every field it does not name |
| `OAuthStore.FirestoreOAuthStore.ConsumeRefreshToken` | src/oauth/store.ts:189-215 | the same operation as one transaction over token and family documents |
| `OAuthStore.FirestoreOAuthStore.ConsumeRateLimit` | src/oauth/store.ts:217-240 | the same operation as one transaction on the document of the hashed key |
| `OAuthStore.CallSimulates` | src/oauth/store.ts:56-240 | any one call on related states answers the same and leaves related states |
| `OAuthStore.LockStep` | src/oauth/store.ts:56-240 | every sequence of calls on related states, same clock and ids, gets the same replies and ends related |
| `OAuthStore.StoresAreInterchangeable` | src/oauth/store.ts:46-54 | from empty, no sequence of interface calls tells the two stores apart |
| `OAuthStore.FirestoreCompromiseSticks` | src/oauth/store.ts:203-212 | no call ever clears a compromised family, although a successful consume writes `compromised: false` |
| `OAuthStore.ConsumedCodeIsSpent` | src/oauth/store.ts:95-97 | a consume that answers a record leaves the code spent |
| `OAuthStore.SpentCodeStaysSpent` | src/oauth/store.ts:89-98 | a spent code is never answered again in any continuation that does not store its id again |
| `OAuthStore.ReplayCompromises` | src/oauth/store.ts:107-116 | presenting a consumed, unexpired token of a sound family compromises the family |
| `OAuthStore.CompromisedFamilyIsDead` | src/oauth/store.ts:110-112 | in every continuation no consume answers "ok" for a compromised family, whenever its token was stored (section 4.14.2 of RFC 9700) |
| `OAuthStore.OtherFamiliesUnaffected` | src/oauth/store.ts:104-119 | two runs from states that agree outside a family get the same replies except where its tokens are presented |
| `OAuthStore.ReplayIsLocal` | src/oauth/store.ts:113-116 | the replay leaves everything outside the family as it was, so no other client notices it |
| `OAuthStore.RegisteredClientIsFoundIff` | src/oauth/store.ts:63-83 | in every continuation that does not register the id again, a registered client is answered with its name and redirects exactly for ninety days, and a client never registered is not |
| `OAuthStore.RegisteredDocumentIsFoundIff` | src/oauth/store.ts:145-166 | the same for the documents of the Firestore store |
| `Jwt.AcceptedScopeGrantsRead` | src/oauth/router.ts:556-560 | any accepted scope, with any white space or repetition, is recorded as one that grants exactly `mcp:read` |
| `Jwt.ScopesAreWords` | src/oauth/router.ts:556-560 | the words of a scope are exactly its longest stretches without white space |
| `OAuthMinting.StepKeeps` | src/oauth/router.ts:226-543 | one atomic step of any request keeps the whole invariant: roles of ids, chains, consents, signed claims, holders in flight |
| `OAuthMinting.RunKeeps` | src/oauth/router.ts:226-543 | every interleaving keeps the invariant, and its history only grows |
| `OAuthMinting.EveryRunKeeps` | src/oauth/router.ts:226-543 | the invariant holds after every run from the empty server |
| `OAuthSteps.UnconsumedCodeIsFree` | src/oauth/store.ts:89-98 | a stored code that is still unconsumed opened no family and is carried by no request |
| `OAuthMinting.UnconsumedTokenIsLast` | src/oauth/router.ts:480-519 | an unconsumed stored token is the last of its chain and carried by no request |
| `OAuthMinting.LastIsHeldOnce` | src/oauth/router.ts:480-519 | two requests that hold the last token of one family are one request |
| `OAuthTheorems.OneHolderPerFamily` | src/oauth/router.ts:449-543 | in every interleaving, per family, unconsumed stored tokens plus requests between consume (or creation) and store are at most one |
| `OAuthTheorems.FamiliesAreChains` | src/oauth/router.ts:492-519 | every stored refresh token stands at one place of one chain and only the last can be unconsumed, so rotation never branches (section 10.4 of RFC 6749) |
| `OAuthTheorems.AccessTokensTrace` | src/oauth/router.ts:401-413 | every access token ever signed stands at one place of one family and repeats issuer, client, scope and resource of its one consent |
| `OAuthTheorems.RefreshTokensTrace` | src/oauth/router.ts:424-437 | the same for every refresh token ever signed, within the chain it names |
| `OAuthTheorems.OnlyAccessTokensAreAccepted` | src/oauth/jwt.ts:77-95 | each signed access token passes the resource check for its issuer and resource; no code or refresh token passes any |
| `OAuthTheorems.CodesAreExchangedOnce` | src/oauth/router.ts:365-423 | no two families come from one code, and a code that opened a family is spent (section 4.1.2 of RFC 6749) |
| `OAuthTheorems.FailedExchangeSpendsCode` | src/oauth/router.ts:365-394 | an exchange that consumed a code and then fails verifier, redirect, client or issuer check has spent it for ever (section 4.6 of RFC 7636) |
| `OAuthTheorems.CompromiseIsForEver` | src/oauth/router.ts:449-543 | no step of any request lifts a compromise |
| `OAuthTheorems.CompromisedTokenIsRejected` | src/oauth/router.ts:479-490 | every later request presenting a token of a compromised family is rejected, also for a successor stored by a request already in flight |
| `OAuthTheorems.ReplayEndsFamily` | src/oauth/router.ts:479-490 | a verified request whose token is consumed and unexpired is rejected, and the family its claims name is compromised from then on in every continuation (section 4.14.2 of RFC 9700) |
| `OAuthTheorems.CompromiseStopsMinting` | src/oauth/router.ts:492-519 | after a compromise at most one more token is minted in the family, in any continuation |
| `OAuthFirestore.SilentStep` | src/oauth/router.ts:281-296 | a step between two store calls neither reads nor writes the store |
| `OAuthFirestore.CallingStep` | src/oauth/router.ts:226-543 | any other step is one call of the store interface and local work on its reply |
| `OAuthFirestore.StepMirrors` | src/oauth/router.ts:226-543 | one step of the server over Firestore mirrors the same step over memory |
| `OAuthFirestore.RunMirrors` | src/oauth/router.ts:226-543 | in every interleaving the two servers have the same requests, signed tokens and history, and related stores |
| `OAuthFirestore.FirestoreOneHolderPerFamily` | src/oauth/store.ts:185-215 | with Firestore too a family has at most one unconsumed token or request in flight |
| `OAuthFirestore.FirestoreCompromiseStopsMinting` | src/oauth/store.ts:200-212 | and after its document says compromised, at most one more token is minted in it |
| `OAuthService.ClientsWereRegistered` | src/oauth/router.ts:122-168 | every client of every run was registered in it, under its id, with the name and redirects it posted, for ninety days |
| `OAuthService.ConsentIsAgreedIff` | src/oauth/router.ts:226-296 | in every run a posted form is agreed to iff a registered, unexpired client has the redirect and the form asks for S256, read scope and this server; what is recorded is the form |
| `OAuthService.ExchangeMintsIff` | src/oauth/router.ts:365-437 | in every run a request that holds a code gets tokens iff its verifier hashes to the challenge of the consent, and redirect, client and issuer are the consent's where posted; else it is refused |
| `OAuthService.FirestoreExchangeMintsIff` | src/oauth/router.ts:365-437 | the same over Firestore |
| `OAuthService.CodesWereKept` | src/oauth/router.ts:275-285 | every stored code of every run was stored in it and expires five minutes after |
| `OAuthService.TokensWereMinted` | src/oauth/router.ts:396-519 | every refresh token of every run was minted in it and expires thirty days after |
| `OAuthService.ClaimsWereSigned` | src/oauth/router.ts:281-535 | every signed token of every run was signed in it: codes for five minutes, access tokens for an hour, refresh tokens for thirty days |
| `OAuthService.PostedCodeGoesOn` | src/oauth/router.ts:353-363 | a posted code goes on iff it is a code signed here whose expiry second has not passed |
| `OAuthService.PostedRefreshGoesOn` | src/oauth/router.ts:455-478 | a posted refresh token goes on iff it is one signed here, unexpired, of this issuer |
| `OAuthService.CodeIsTakenIff` | src/oauth/store.ts:89-98 | in every run a verified code is taken iff it is unconsumed and was stored less than five minutes ago; else nothing changes |
| `OAuthService.TokenIsTakenIff` | src/oauth/store.ts:104-119 | a verified refresh token is taken iff it is stored, unconsumed and unexpired and its family is not compromised; else it is refused |
| `OAuthService.HonestClientIsAnswered` | src/oauth/router.ts:122-447 | from any state a new client that registers, posts a sound form and presents its code and verifier in time is answered with both tokens of its consent, and its refresh token is stored |
| `OAuthService.FirestoreHonestClientIsAnswered` | src/oauth/router.ts:122-447 | the same after any run over Firestore |
| `OAuthService.HonestRefreshIsAnswered` | src/oauth/router.ts:449-543 | after any run a live refresh token presented in time is answered with the next tokens of its consent |
| `SpacingLimiter.TokenBucketRateLimiter.Wait` | src/lib/rate-limiter.ts:6-13 | the caller is released at its place in the schedule of all arrivals so far |
| `SpacingLimiter.ReleaseIsMaximum` | src/lib/rate-limiter.ts:8-9 | the n-th release is the maximum over k <= n of arrival k plus (n - k) intervals |
| `SpacingLimiter.ReleasesAreSpaced` | src/lib/rate-limiter.ts:8-9 | releases are first come first served, never before arrival, and any two are their distance in intervals apart |
| `SpacingLimiter.ReleasesAreEarliest` | src/lib/rate-limiter.ts:8-9 | no schedule with these two properties releases any caller earlier |
| `SpacingLimiter.FetchWithRetry` | src/api/kkj-client.ts:113-133 | waits once before each attempt, tries again exactly after retryable failures, at most maxRetries + 1 times, with doubling delays |
| `SpacingLimiter.DelaysDouble` | src/api/kkj-client.ts:128-130 | the first delay is the base and each is twice the one before |
| `SpacingLimiter.AttemptsAreBounded` | src/api/kkj-client.ts:113-133 | however searches interleave, none waits more than maxRetries + 1 times |
| `SpacingLimiter.ConcurrentAttemptsAreSpaced` | src/api/kkj-client.ts:113-133 | attempts of concurrent retrying searches stay at least an interval apart |
| `SlidingLog.PolicyEngine.CheckRateLimit` | gateway/src/policy/policy-engine.ts:26-35 | admits iff fewer than the limit are recent; a refusal leaves the log untouched |
| `SlidingLog.PolicyEngine.EvaluateCall` | gateway/src/policy/policy-engine.ts:42-150 | the limiter is consulted only after the earlier denials, and a later denial still uses up its place |
| `SlidingLog.LogKeepsRecent` | gateway/src/policy/policy-engine.ts:28-33 | the forgetting log and the full list of admissions agree on what is recent, from now on |
| `SlidingLog.AdmissionsAreBounded` | gateway/src/policy/policy-engine.ts:26-35 | for every run with a non-decreasing clock, any window (w - 1000, w] holds at most limit admissions of a server |
| `SlidingLog.AllowedCallsAreBounded` | gateway/src/policy/policy-engine.ts:98-103 | the same bound for calls finally allowed |
| `SlidingLog.AdmittedIffBelowLimit` | gateway/src/policy/policy-engine.ts:30-31 | a call that reaches the limit is admitted iff fewer than limit admissions fall in the second ending with it |
| `SlidingLog.DecisionIs` | gateway/src/policy/policy-engine.ts:42-150 | in every run a call is denied uncounted when OAuth, tier or allowlist stop it, rate limited when its server admitted the limit in the second before, else decided by its tool's policy |
| `SlidingLog.ServersAreIndependent` | gateway/src/policy/policy-engine.ts:19-35 | a server's log follows its own calls alone |
| `FixedWindow.EntriesTrack` | src/oauth/store.ts:121-133 | the stored bucket always is that of the last admission, and admissions fill buckets place by place |
| `FixedWindow.BucketsAreBounded` | src/oauth/store.ts:128-131 | at most max admissions share a bucket |
| `FixedWindow.ClosedWindowBound` | src/oauth/store.ts:121-133 | any closed interval of length windowMs holds at most 2 * max admissions |
| `FixedWindow.HalfOpenWindowBound` | src/oauth/store.ts:121-133 | any half-open one holds at most 2 * max - 1 |
| `FixedWindow.ClosedBoundIsReached` | src/oauth/store.ts:121-133 | for every window and limit a run reaches 2 * max in a closed interval |
| `FixedWindow.RefusedIffFull` | src/oauth/store.ts:124-130 | a hit is refused iff its bucket is open and all places are taken |
| `RecentBids.KkjClient.RecordBids` | src/api/kkj-client.ts:181-183 | after the first loop each key maps to the last bid of the search that has it |
| `RecentBids.KkjClient.DropForgotten` | src/api/kkj-client.ts:192-196 | the last loop keeps exactly the bids whose key is still listed |
| `RecentBids.KkjClient.RememberBidKeys` | src/api/kkj-client.ts:180-197 | the three bounded memories keep agreeing with the whole unbounded history of searches |
| `RecentBids.KkjClient.GetCachedBid` | src/api/kkj-client.ts:160-172 | a remembered key gives the bid of the newest search that returned it, another key the first cached bid |
| `RecentBids.StepwiseEqualsWhole` | src/api/kkj-client.ts:184-185 | cutting to 200 after every search equals cutting the whole history once |
| `RecentBids.RememberedKeysAreBids` | src/api/kkj-client.ts:192-196 | remembered keys never repeat, are at most 200, and each has a newest bid |
| `RecentBids.NamesAreOfBids` | src/api/kkj-client.ts:186-191 | the names of the history are exactly the organization names of all bids ever returned |
| `ToolCache.Cache.GetCached` | gateway/src/cache/tool-cache.ts:40-48 | answers a stored value until its expiry has passed, then deletes it |
| `ToolCache.Cache.SetCached` | gateway/src/cache/tool-cache.ts:55-66 | evicts the oldest entry when full, then stores |
| `ToolCache.Cache.BeginCall` | gateway/src/proxy/mcp-proxy.ts:38-52 | the cache decision, hit or miss with their counters, up to the fetch |
| `ToolCache.Cache.EndCall` | gateway/src/proxy/mcp-proxy.ts:54-65 | only a cacheable call fills the cache |
| `ToolCache.CachedAnswersAreFetched` | gateway/src/proxy/mcp-proxy.ts:35-66 | over every interleaved run each cached answer was returned by a real fetch under its key at most ttl seconds earlier, never for a financial or bypassing call, and the store never exceeds 1000 entries |
| `ToolCache.FetchesWereAsked` | gateway/src/proxy/mcp-proxy.ts:54-65 | every fetch that filled the cache was made for a call that was asked for |
| `ToolCache.CallsAreSettled` | gateway/src/proxy/mcp-proxy.ts:35-66 | in every run each call taken up is answered, failed or still being fetched |
| `ToolCache.FetchAnswers` | gateway/src/proxy/mcp-proxy.ts:54-65 | a fetch that returns answers the call taken up under its id, cacheable or not, with what it returned |
| `CachedCalls.ShallowAnswersAreTheirOwn` | gateway/src/proxy/mcp-proxy.ts:35-66 | over every interleaved run, an answer from the cache to a request with no object below its arguments was fetched for the same server, tool and arguments within its time to live |
| `CachedCalls.CachedAgainstDecisionIff` | docs/adr/0018-cache-strategy.md:23-36 | a repeated call is answered from the cache although the decision forbids it iff there is a time to live, neither a financial server nor a bypass, and the tool is not both read-only and idempotent |
| `ToolCache.FilledIsFound` | gateway/src/cache/tool-cache.ts:40-66 | a filled key is found exactly until it expires |
| `ToolCache.FillEvictsOldestOnly` | gateway/src/cache/tool-cache.ts:59-65 | a fill takes away at most one other entry, the oldest, and only when full |
| `ToolCache.CountersAgree` | gateway/src/proxy/mcp-proxy.ts:44-53 | in every run the hits are the answers from the cache, and hits and misses together the cacheable calls |
| `CacheKey.KeptIsStable` | gateway/src/cache/tool-cache.ts:30 | what the replacer list keeps is kept again unchanged |
| `CacheKey.KeysIgnoreArgumentOrder` | gateway/src/cache/tool-cache.ts:27-32 | reordering top-level arguments does not change the key |
| `CacheKey.KeysSeparateArguments` | gateway/src/cache/tool-cache.ts:22-33 | any two calls share a key iff server, tool and arguments are the same, up to property order and to the nested properties whose name is no top-level one; arguments that lose nothing count whole |
| `CacheKey.FlatArgumentsLoseNothing` | gateway/src/cache/tool-cache.ts:30 | flat arguments drop nothing |
| `CacheKey.UncoveredArgumentsCollide` | gateway/src/cache/tool-cache.ts:30 | the key hashes the whole arguments iff every nested name is also a top-level one; otherwise arguments that lose nothing share the key |
| `CacheKey.ShallowKeysAreTheirOwn` | gateway/src/cache/tool-cache.ts:22-33 | whatever shares the key of arguments with no object below the top level is those arguments |
| `CacheKey.KeyIsOwnIffShallow` | gateway/src/cache/tool-cache.ts:22-33 | no other well-formed arguments share a key iff there is no object below the top level; losing nothing is not enough |
| `CacheKey.EmptyObjectCollides` | gateway/src/cache/tool-cache.ts:30 | an empty nested object loses nothing, yet shares its key with one that holds a property |
| `CacheKey.EmptyObjectWitness` | gateway/src/cache/tool-cache.ts:30 | a concrete pair of such arguments |
| `CacheKey.ShallowArgumentsLoseNothing` | gateway/src/cache/tool-cache.ts:30 | arguments with no object below the top level, lists of leaves included, lose nothing |
| `CacheKey.KeyTextsSeparate` | gateway/src/cache/tool-cache.ts:32 | the joined key text determines its three parts when server ids hold no colon |
| `NamedLists.Dedupe` | src/tools/saved-search-alert.ts:318-324 | the loop over a map by name keeps the last entry of each name at the place of the first |
| `NamedLists.DedupedFinds` | src/tools/saved-search-alert.ts:318-324 | names become unique and each finds its last entry |
| `WatchListedAwards.Upsert` | src/tools/watch-listed-awards.ts:158-162 | the list it builds has unique names, holds the new entry, and the last entry of every other name |
| `WatchListedAwards.MergeEntries` | src/tools/watch-listed-awards.ts:164-170 | the list it builds has unique names and per name the last entry of the memory, else of the token |
| `WatchListedAwards.UpsertStores` | src/tools/watch-listed-awards.ts:158-162 | the new entry is stored, every other name keeps its last entry, names are unique |
| `WatchListedAwards.MergePrefersMemory` | src/tools/watch-listed-awards.ts:164-170 | per name the memory wins over the token |
| `WatchListedAwards.WatchTool.Call` | src/tools/watch-listed-awards.ts:53-138 | save, list and check change the memory and answer as specified; failures leave the memory alone |
| `WatchListedAwards.ChecksReportTheNew` | src/tools/watch-listed-awards.ts:103-118 | along any chain of calls without a save of the name, within or across instances given the last token, a check reports exactly the keys no earlier check was given |
| `WatchListedAwards.EachKeyIsReportedOnce` | src/tools/watch-listed-awards.ts:103-118 | after a save each notice key is new in exactly one check: the first whose search returned it |
| `WatchListedAwards.TokenIsHonouredIff` | src/tools/watch-listed-awards.ts:56-111 | an instance reports against the token's seen set iff it does not know the watch or has seen the same keys |
| `WatchListedAwards.NewerTokenIsIgnored` | src/tools/watch-listed-awards.ts:56-111 | a concrete newer token that is ignored, so a seen key is reported again |
| `OverlappingChecks.HalvesAreCheck` | src/tools/watch-listed-awards.ts:74-118 | reading the watch and then storing it, with nothing in between, is the handler's check; a save is its save |
| `OverlappingChecks.SequentialIsExact` | src/tools/watch-listed-awards.ts:74-118 | when nobody writes the watch between a check's read and store, each check works for the last save and reports exactly the keys no check since was given, whether the instance or only the tokens know the watch |
| `OverlappingChecks.OverlapReportsTwice` | src/tools/watch-listed-awards.ts:103-118 | wherever somebody does, there are results of which a key is reported twice, or the check works for a watch that a save replaced |
| `OverlappingChecks.ChecksAreExactIffSequential` | src/tools/watch-listed-awards.ts:74-118 | for any order of reads, stores and saves: checks are exact for all results and saves iff nobody writes the watch between a check's read and store |
| `OverlappingChecks.SaveStandsIff` | src/tools/watch-listed-awards.ts:74-118 | a save stands up to the next one, whatever is saved and returned, iff no check that read before it stores in between |
| `OverlappingChecks.TwoChecksOverlap` | src/tools/watch-listed-awards.ts:103-118 | two checks that both read before either stores: a concrete overlap with results of which a key is reported twice |
| `OverlappingChecks.SaveDuringCheckIsLost` | src/tools/watch-listed-awards.ts:74-118 | a save between a check's read and store: a concrete save that is lost |
| `SavedSearchAlert.UpsertSavedSearch` | src/tools/saved-search-alert.ts:311-316 | the list it builds has unique names and keeps a listed entry over the new one |
| `SavedSearchAlert.UpsertKeepsTheOld` | src/tools/saved-search-alert.ts:311-324 | last-wins over a list headed by the new entry keeps an entry already listed |
| `SavedSearchAlert.UpsertStoresIff` | src/tools/saved-search-alert.ts:311-324 | the given entry is stored iff its name is new or already has these contents |
| `SavedSearchAlert.UpdateIsLost` | src/tools/saved-search-alert.ts:311-324 | a concrete update that is lost |
| `SavedSearchAlert.SavedSearchTool.Call` | src/tools/saved-search-alert.ts:118-224 | save and check change the memory and answer as specified; the token is searched first; what a chain of them reports is in the rows below |
| `SavedSearchAlert.ListSearches` | src/tools/saved-search-alert.ts:244-249 | lists the tokens' entries, or the memory when they hold none, one per name |
| `SavedSearchAlert.TokenEntryIsFrozen` | src/tools/saved-search-alert.ts:134-195 | once a name is in the token no chain of saves and checks changes its entry there |
| `SavedSearchAlert.TokenChecksNeverAdvance` | src/tools/saved-search-alert.ts:170-195 | with tokens every check repeats the first previous check and criteria |
| `SavedSearchAlert.ChecksFollowTheSave` | src/tools/saved-search-alert.ts:118-195 | along any chain without tokens a check of a saved name reports the criteria of its last save and the time of the last check since, none if there is none |
| `SavedSearchAlert.UnsavedIsNotFound` | src/tools/saved-search-alert.ts:170-182 | a name never saved is not found, and a check whose search fails changes nothing |
| `SavedSearchAlert.TokenTakesNewNames` | src/tools/saved-search-alert.ts:134-195 | a call that succeeds puts what it saved or checked into a token that lacks the name, and nothing else |
| `SavedSearchAlert.MemoryChecksAdvance` | src/tools/saved-search-alert.ts:192-194 | without tokens the next check starts where the last ended |
| `CivilDays.DateOf` | src/api/jquants-client.ts:336-340 | the date of a day number is a real date with that number |
| `CivilDays.DateOfDayOf` | src/api/jquants-client.ts:336-340 | dates and day numbers correspond one to one over all years |
| `CivilDays.DaysOrderDates` | src/api/jquants-client.ts:336-340 | day numbers order dates as year, month, day do |
| `IsoDates.ShiftByZero` | src/api/jquants-client.ts:336-340 | shifting a real date by 0 gives it back |
| `IsoDates.ShiftIsAnAction` | src/api/jquants-client.ts:336-340 | shift(shift(d,a),b) = shift(d,a+b) for every b iff the first shift lands in range and in year 0-9999 or on the first of a month (section 21.4.1 of ECMA-262) |
| `IsoDates.ShiftAcrossTheEnd` | src/api/jquants-client.ts:336-340 | from 9999-12-31 two days on and two days back is not 9999-12-31 |
| `IsoDates.ShiftMovesDays` | src/api/jquants-client.ts:336-340 | within years 0-9999 a shift by a moves the day number by a |
| `IsoDates.StringOrderIsDateOrder` | src/api/jquants-client.ts:346 | string order on real YYYY-MM-DD is the order of days |
| `JapaneseDates.PlainIsFound` | src/domain/date-range.ts:60-66 | every YYYY-MM-DD is read back as its own year, month and day |
| `JapaneseDates.WarekiIsFound` | src/domain/date-range.ts:67-77 | a Reiwa date anywhere in a text, by era name or letter, with any white space and leading zeros, is read as 2018 years later, if it is the first and there is no western date |
| `JapaneseDates.PlainWarekiIsFound` | src/domain/date-range.ts:67-77 | a text that is a Reiwa date in any such spelling and nothing else is always read so |
| `JapaneseDates.WarekiMatchesIff` | src/domain/date-range.ts:67 | a match begins at a position iff a Reiwa date is spelled there |
| `JapaneseDates.NothingIsFoundIff` | src/domain/date-range.ts:57-79 | nothing is found iff there is no western date and no Reiwa date in any spelling |
| `JapaneseDates.FoundDatesAreInRange` | src/domain/date-range.ts:53-54 | no date that can be found is invalid, also with month or day past their end |
| `JapaneseDates.NormalizeIsIdempotentIff` | src/domain/bid-calendar.ts:128-134 | normalising again changes nothing iff the year is 0100-9999 |
| `JapaneseDates.MonthThirteenIsFound` | src/domain/date-range.ts:53-66 | 9999-13-05 is read as the fifth of January 10000 |
| `JapaneseDates.MonthThirteenNormalizesOnce` | src/domain/bid-calendar.ts:128-134 | its normal form does not normalise to itself |
| `BidCalendar.ReviewIsTwoDaysBefore` | src/domain/bid-calendar.ts:29-35 | the review is the text of the day two before the submission, for every submission up to year 9999 |
| `BidCalendar.ReviewIsTwoDaysBeforeIff` | src/domain/bid-calendar.ts:29-35 | for every submission date the review is the text of the day two before iff the year is at most 9999, or the day is the first of a month, or the second but not of January 10000 |
| `BidCalendar.ReviewAfterYear9999` | src/domain/bid-calendar.ts:29-35 | a submission on 9999-13-05 is reviewed on another date than two days before |
| `BidCalendar.ReviewShiftsTheSubmissionDayIff` | src/domain/bid-calendar.ts:136-140 | the day that gets shifted is the submission day iff the year is at most 9999 or it is the first of a month |
| `EventWindow.LastCloseOnOrBefore` | src/api/jquants-client.ts:342-351 | the backward scan answers the adjusted close of the last bar not after the date, its raw close without one, and none without such a bar |
| `EventWindow.ScanFindsLast` | src/api/jquants-client.ts:342-351 | the scan stops at the last position not after the date, and finds none only if there is none |
| `EventWindow.SelectionIsLatest` | src/api/jquants-client.ts:186-189 | for rows in any order the selected one has the greatest date on or before the event, none iff no row does |
| `EventWindow.SelectionIsLastGiven` | src/api/jquants-client.ts:186-189 | among rows of that date it is the last given |
| `EventWindow.WindowClosesAreLatest` | src/api/jquants-client.ts:203-214 | both closes of a window are those of the selected rows, adjusted before raw, a missing end close being the event's; the change is the percentage between them, none iff a close is missing or the first is 0 |
| `EventWindow.WindowSurroundsEvent` | src/api/jquants-client.ts:200-201 | the ends of every window are the texts of the days windowDays before and after the event; within years 0-9999 they are dates, in this order as strings |
| `EventWindow.WindowIsInOrderIff` | src/api/jquants-client.ts:200-201 | for every window from <= event as strings, and event <= to iff the window ends by year 9999 |
| `EventWindow.WindowExistsIff` | src/api/jquants-client.ts:200-201 | a window exists iff both its ends are in the range of Date |
| `EventWindow.LateWindowIsOutOfOrder` | src/api/jquants-client.ts:200-201 | every window that ends after year 9999, where it exists, ends as a string before the event |
| `EventWindow.LastDayIsOutOfOrder` | src/api/jquants-client.ts:200-201 | so do the windows of up to a month around 9999-12-31 |
| `EventWindow.EndBarIsNotEarlier` | src/api/jquants-client.ts:203-204 | when the window ends by year 9999, the bar for its end is never earlier than the bar for the event |
| `EventWindow.EndCloseFallsBack` | src/api/jquants-client.ts:203-204 | otherwise no dated row is on or before its end, so the end close is that of the event |
| `IcsText.EscapeIsCharacterwise` | src/domain/bid-calendar.ts:154-160 | the four successive replacements equal one character-wise map |
| `IcsText.DecodeOfEscape` | src/domain/bid-calendar.ts:154-160 | TEXT decoding (section 3.3.11 of RFC 5545) undoes the escape for every text |
| `IcsText.EscapeIsInjective` | src/domain/bid-calendar.ts:154-160 | different texts stay different |
| `IcsText.EscapeHasNoLineFeed` | src/domain/bid-calendar.ts:157 | escaped text holds no raw LF |
| `IcsText.DescriptionKeepsBackslashN` | src/domain/bid-calendar.ts:111-119 | parts joined with backslash and n decode to those two characters, never to separate lines |
| `IcsText.SplitOfJoin` | src/domain/bid-calendar.ts:125 | splitting at CRLF gives the joined lines back iff none of them holds one |
| `BidCalendar.BuildEvents` | src/domain/bid-calendar.ts:24-77 | the events of the four dates with their fallbacks, identifiers distinct iff the briefing is not on the review date |
| `BidCalendar.PushEvents` | src/domain/bid-calendar.ts:29-76 | each known date pushes its events in the fixed order |
| `BidCalendar.ToIcs` | src/domain/bid-calendar.ts:96-126 | the pushed lines, joined |
| `BidCalendar.PushEventLines` | src/domain/bid-calendar.ts:104-123 | the loop appends the lines of each event in order |
| `BidCalendar.UidsAreEqualIff` | src/domain/bid-calendar.ts:107 | two identifiers of one bid are equal iff kind and date are |
| `BidCalendar.UidsAreDistinctIff` | src/domain/bid-calendar.ts:24-77 | identifiers are pairwise distinct (section 3.8.4.7 of RFC 5545) iff the briefing date is not the submission date minus 2 days |
| `BidCalendar.BriefingTwoDaysBefore` | src/domain/bid-calendar.ts:24-77 | a briefing two days before a submission up to year 9999 makes two identifiers equal |
| `BidCalendar.BriefingSharesIdentifier` | src/domain/bid-calendar.ts:24-77 | submission 2024-03-03 and briefing 2024-03-01: a concrete bid with two equal identifiers |
| `BidCalendar.FileSplitsIntoLines` | src/domain/bid-calendar.ts:96-126 | the file splits back into its content lines iff the unescaped document URI holds no CRLF |
| `BidCalendar.CrlfBreaksTheFile` | src/domain/bid-calendar.ts:120 | a document URI with CRLF anywhere in it breaks the lines of the file |
| `BidCalendar.ExportSplitsIntoLines` | src/domain/bid-calendar.ts:7-22 | the same for the events the bid itself yields |
| `BidCalendar.DescriptionsKeepBackslashN` | src/domain/bid-calendar.ts:111-119 | every exported description keeps backslash-n between its parts |
| `Csv.ReadOfPrint` | src/domain/bid-shortlist.ts:42 | a reader after section 2 of RFC 4180 (LF ending records) undoes printing for every table of non-empty rows |
| `Csv.CellReads` | src/domain/bid-shortlist.ts:91-96 | every cell, with any quotes, commas, CR or LF, reads back |
| `Csv.QuotedIff` | src/domain/bid-shortlist.ts:91-96 | a cell is printed as it is iff it holds no quote, comma, LF or CR, and in quotes otherwise |
| `CsvExports.ExportReadsBack` | src/jobs/export-bids.ts:68-101 | the job's file reads back as header and cells, each row as long as the header |
| `CsvExports.ExportCells` | src/jobs/export-bids.ts:68-101 | column names differ, and in every record each field of the bid stands under the column of its name |
| `CsvExports.UnderIsUnique` | src/jobs/export-bids.ts:68-101 | so a column name determines the cell |
| `CsvExports.ShortlistReadsBack` | src/domain/bid-shortlist.ts:35-89 | the same for the shortlist, with and without extracted requirements |
| `CsvExports.ShortlistCells` | src/domain/bid-shortlist.ts:44-89 | the same for the shortlist: ranking, bid and, where any were extracted, requirements |
| `ListedCompany.KeyTextsDiffer` | src/domain/listed-company.ts:198-203 | keys of the two kinds, and of one kind, never coincide as texts |
| `ListedCompany.IndexListedCompanies` | src/domain/listed-company.ts:193-208 | the nested loops build the index entry by entry, later companies overwriting |
| `ListedCompany.CodeLookupIsScan` | src/domain/listed-company.ts:193-225 | for every catalogue a code in the index finds the last company that has it |
| `ListedCompany.NameLookupIsScan` | src/domain/listed-company.ts:193-230 | a name of at least two characters finds the last company going by it |
| `ListedCompany.FindListedCompany` | src/domain/listed-company.ts:210-237 | the indexed lookup answers what a scan without an index answers |
| `ListedCompany.ScanFindsTheLast` | src/domain/listed-company.ts:219-236 | by code iff some company has the code, else the last by name, "exact" iff its own name matches, nothing iff no company has the code and the name is under two characters or nobody goes by it |
| `ListedCompany.TickerCodeIff` | src/domain/listed-company.ts:182-191 | a query has a code iff its digits are that code of four, or it and a 0 |
| `TextMatches.MatchListedCompaniesInText` | src/domain/listed-company.ts:239-269 | the loops with break and the seen set compute the specified matches |
| `TextMatches.NeedleIsLongest` | src/domain/listed-company.ts:250-257 | a company is recognised iff one of its names of two or more characters occurs, and by a longest such |
| `TextMatches.NeedleIsFirstGiven` | src/domain/listed-company.ts:250-257 | among those of that length by the first given |
| `TextMatches.CodesAreMentioned` | src/domain/listed-company.ts:248-261 | the codes found are exactly those of mentioned companies, each once |
| `TextMatches.MatchesAreMentions` | src/domain/listed-company.ts:249-267 | each match is of the first mentioned company of its code, "contains" iff by its name |
| `TextMatches.MatchesAreMatchesIn` | src/domain/listed-company.ts:243-246 | the early return for texts under two characters answers what the loops would |
| `CatalogMerge.MergeCatalog` | src/api/jquants-client.ts:315-334 | the loop over a map by code computes the specified merge |
| `CatalogMerge.EntryIsFold` | src/api/jquants-client.ts:317-333 | the entry of a code combines all its companies in order |
| `CatalogMerge.OneEntryPerCode` | src/api/jquants-client.ts:316-333 | one entry per code, in order of first appearance |
| `CatalogMerge.CombineCarries` | src/api/jquants-client.ts:323-331 | one combination loses exactly the existing name, and only when the new one is longer |
| `CatalogMerge.SurvivesIff` | src/api/jquants-client.ts:323-331 | over a whole list a name survives iff it was given and was not, as first longest name, replaced by a longer one with nothing after carrying it |
| `CatalogMerge.MergedCarriesIff` | src/api/jquants-client.ts:315-334 | what the merged entry of each code carries |
| `CatalogMerge.MergedHasSector` | src/api/jquants-client.ts:323-331 | the merged entry of a code has the first sector known among its companies, and no alias twice |
| `CatalogMerge.MergeLosesNothingIff` | src/api/jquants-client.ts:315-334 | the merge loses no name or alias iff no such replacement happens for any code |
| `CatalogMerge.PairLosesNothingIff` | src/api/jquants-client.ts:323-331 | for one bundled and one fetched company: iff the fetched name is not longer |
| `CatalogMerge.LongerNameDropsTheBundled` | src/api/jquants-client.ts:328-330 | a concrete pair whose merged catalogue lacks the bundled name |
| `AwardMapping.MapAwards` | src/tools/map-awards-to-listed.ts:79-88 | mapped plus unmapped are the notices read, in order |
| `AwardMapping.SummarizeListedAwards` | src/domain/award-signal.ts:47-92 | the bucket loops compute the specified facts |
| `AwardMapping.BucketHoldsHits` | src/domain/award-signal.ts:60-69 | a bucket holds the notices found for its code, in order |
| `AwardMapping.BucketNamesFirst` | src/domain/award-signal.ts:62-65 | and names the first company found with it |
| `AwardMapping.NoticeCountsSumToMatches` | src/domain/award-signal.ts:60-83 | notice counts of all companies sum to the number of matches |
| `AwardMapping.BreakdownsSumToNotices` | src/domain/award-signal.ts:84-85 | each breakdown sums to its notice count, part by part the notices it names |
| `AwardMapping.LatestNoticeIsFirstLatest` | src/domain/award-signal.ts:73-83 | the latest notice is the first with the greatest date |
| `AwardMapping.SummaryIsOrdered` | src/domain/award-signal.ts:89-92 | more notices first, equal counts by code in locale order |
| `AwardMapping.NoticesAreMentions` | src/tools/map-awards-to-listed.ts:79-89 | from search to summary: a code counts exactly the notices that mention a company of it, each once |
| `AwardMapping.CodeIsMentionedIff` | src/tools/map-awards-to-listed.ts:60-83 | a notice mentions a code iff a normalised name of two or more characters of a company of it occurs in its name, description and organization |
| `Counting.CountBy` | src/domain/award-signal.ts:29-35 | the counting loop |
| `Counting.CountsAreOccurrences` | src/domain/award-signal.ts:29-35 | counts sum to the list's length and are the numbers of occurrences |
| `PastAwards.AggregateOrganizations` | src/domain/past-awards.ts:38-94 | the bucket loop, the sort and the cut |
| `PastAwards.BucketIsWhole` | src/domain/past-awards.ts:50-69 | each organisation counts exactly its notices, lists their categories and procedures once each and keeps the latest |
| `PastAwards.RecentIsFirstLatest` | src/domain/past-awards.ts:65-67 | the recent notice is the first with the greatest day |
| `PastAwards.ListedIsTrue` | src/domain/past-awards.ts:71-94 | every organisation listed is shown with the number of its notices, each of their categories and procedures once, and key and date of the first latest |
| `PastAwards.DayIsOfNotice` | src/domain/past-awards.ts:102-107 | a notice is dated by the first ten characters of its issue date, else of its date |
| `PastAwards.MonthIff` | src/domain/past-awards.ts:112-115 | a month is four digits, a hyphen and two digits |
| `PastAwards.MonthIsOfNotice` | src/domain/past-awards.ts:112 | a notice's month is the first seven characters of its issue date, else of its date |
| `PastAwards.CountsSumToBids` | src/domain/past-awards.ts:50-69 | before the cut the counts sum to the number of notices |
| `PastAwards.KeptAreTheTop` | src/domain/past-awards.ts:71-77 | ten or all are kept, nothing is lost or invented, none cut precedes one kept |
| `PastAwards.CountByMonth` | src/domain/past-awards.ts:109-121 | the month loop with its skip, and the sort |
| `PastAwards.MonthsSumToDatedBids` | src/domain/past-awards.ts:109-121 | monthly counts sum to the notices with a readable month |
| `PastAwards.MonthsAscend` | src/domain/past-awards.ts:118-120 | months ascend, each once, with its number of notices |
| `PastAwards.MonthIsCounted` | src/domain/past-awards.ts:109-121 | every month, a lone or last one too, has its number of notices |
| `BidRanking.RankFacts` | src/domain/bid-ranking.ts:46-73 | the stepwise score, reasons and risks of what a notice shows |
| `BidRanking.ApplyKeywordFit` | src/domain/bid-ranking.ts:97-128 | the two keyword loops |
| `BidRanking.RankBid` | src/domain/bid-ranking.ts:38-95 | the stepwise score, and a priority from all risks before they are cut to six |
| `BidRanking.StartOfDayIsIdentity` | src/domain/bid-ranking.ts:177-179 | the second construction of a date moves only years 0 to 99 |
| `BidRanking.DaysUntilAreCalendarDays` | src/domain/bid-ranking.ts:141-145 | from year 100 on the days until a deadline are calendar days |
| `BidRanking.ScoreIsSum` | src/domain/bid-ranking.ts:46-95 | the score before it is cut: 45 points, each fact, 7 for a preferred and 15 off for an avoided keyword that occurs, the deadline and the procedure |
| `BidRanking.RankIsReadable` | src/domain/bid-ranking.ts:79-95 | the score is that sum cut to 0..100, and pursue, review or skip can be told from score and number of risks shown |
| `BidRanking.DeadlinesCompare` | src/domain/bid-ranking.ts:130-160 | two bids alike but in readable deadlines differ by the worth of the deadlines alone, which is greatest exactly for more than three days ahead and within the window |
| `BidRanking.ReasonsHold` | src/domain/bid-ranking.ts:46-175 | the reasons are exactly those that hold of the notice; the one about the deadline names its days |
| `BidRanking.RisksHold` | src/domain/bid-ranking.ts:46-160 | the risks are exactly those that hold of the notice |
| `BidRanking.SixAreShown` | src/domain/bid-ranking.ts:90-92 | the result shows the first six of each, or all if they are fewer |
| `BidRanking.TextsAreSearched` | src/domain/bid-ranking.ts:103-113 | keywords are looked for in name, description, organization, category and procedure, in one text without regard to case |
| `BidRanking.PassedDeadlineBound` | src/domain/bid-ranking.ts:46-95 | with a passed deadline and m matching keywords the score is at most 39 + 7m, met iff everything else counts; m = 0 is always skip, pursue needs m >= 5 |
| `BidRanking.PreferredKeywordsRaise` | src/domain/bid-ranking.ts:115-120 | one more preferred keyword anywhere never lowers score or priority |
| `BidRanking.AvoidedKeywordsLower` | src/domain/bid-ranking.ts:122-127 | one more avoided keyword never raises them |
| `BidRanking.ShortlistIsBest` | src/domain/bid-ranking.ts:22-25 | the shortlist is the best of the search under (score descending, resultId ascending), as many as the limit allows, also a negative one |
| `StableSort.SortSorts` | src/domain/bid-ranking.ts:24 | sorting sorts, for every total preorder |
| `StableSort.SortKeeps` | src/domain/bid-ranking.ts:24 | and neither loses nor invents an element |
| `StableSort.SortIsStable` | src/domain/listed-company.ts:253 | and keeps the order of equals |

## Left out

- Express wiring, MCP transports and registration, `fetch`, the Firestore client, billing, chat and model services: input and output only.
- Cryptography: a token verifies iff its claims were signed before; SHA-256 is injective; random ids are fresh. The token layers (base64url, JSON) are not modelled.
- Firestore transactions are taken to be serialisable; contention and retries inside the library are not modelled.
- The clock of one store call is read once; `registerClient` reads it twice and could record two different seconds.
- The text form of a redirect URI: `isValidRedirectUri` is a field of the posted form. An action other than "deny" counts as consent, as in the code.
- `GET /oauth/authorize`, metadata and registration validation: they store nothing that the token endpoints read besides the client.
- Rate limiting in front of the OAuth routes: the flow lets every request through, so its theorems hold with and without refusals.
- `lru-cache` inside the two clients: a hit returns without touching the recent lists; eviction and age are not modelled.
- `JquantsClient` retries: the same loop as `fetchWithRetry`.
- Timer lateness: limiter results are about scheduled release times.
- The chain theorems of `WatchListedAwards` take a check as one step; `OverlappingChecks` splits it for the checks and saves of one watch on one instance.
- Parsing and schema checks of watch and saved-search tokens: a token is the list it carries, and a rejected token is a failed call.
- JSON text is represented by its tree, property values by integers for leaves; number formatting and `toJSON` are not modelled.
- Property names of objects used as counters that collide with `Object.prototype` (such as `__proto__`).
- Company name normalisation, NFKC, `toLowerCase` and locale order: parameters, locale order any total preorder. For dates and months locale order is plain string order.
- Price arithmetic is over the reals; floating-point rounding is not modelled.
- Date texts that are no real dates (such as 2024-02-30) are left to the implementation by ECMA-262; they are unreadable here. The guarantees on shifts are about real dates.
- A CR alone is not escaped in calendar texts by the code; line folding is not done by the code either.
- `findMissingDates`, `sanitizeFilename`, `formatUtcDateTime` and the wording of reasons, risks and insights: formatting. Reasons and risks are constructors.
- `completeBidKeys`, `completeOrganizationNames`, `pickDominant`, `buildInsights`: one filter or one maximum over lists modelled here.
- The approval and compliance branches of `evaluate` are two flags of a call.
- `countBy` of `src/domain/past-awards.ts` is the fold form of `Counting.CountBy`; its breakdowns have no theorem of their own.
- `parseArgs` and the configuration of the export job, `daysAgoDate` and `normalizeParams`.
- Document fetching, the XML reader, the views, scripts and deployment.
- OverlappingChecks.ChecksAreExactIffSequential: where the instance does not have the watch, the tokens that have it agree on it; tokens of different age are the subject of `WatchListedAwards.TokenIsHonouredIff`.
- RecentBids.KkjClient.GetCachedBid: the cached results are given in the order the cache lists them.
