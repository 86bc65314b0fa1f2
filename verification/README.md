# Verified model of the user and session service

A Dafny model of the stateful parts of the Go service, with proofs of what they guarantee. `dafny verify dfyconfig.toml`
checks all of it.

## What is modelled

**Refresh tokens.** `RedisStore.dfy` is the store: a map from string keys to values with deadlines, a clock, and the
transactions and the redeem script as functions on it. It refines one small machine per token: absent, live, used until a
deadline. `JwtService.dfy` has the methods of `JWTService` and the refresh use case as imperative code on that store, each
with an arbitrary number of executions whose replies were lost. `RefreshProtocol.dfy` interleaves any number of callers,
one Redis round trip at a time, with retries, lost replies, expiry, failed clean-ups, half-finished and restarted
revocations; `RefreshGuarantees.dfy` says what every run keeps: one redemption per token, lineages that do not fork,
complete indexes, what a revoke-all leaves alive, and that sessions never outnumber logins. `RefreshRuns.dfy` shows that
the sequential use case is a run of that machine, and `DeadLineages.dfy` says when a lineage of tokens can never be used
again.

**Calls to a dependency.** `CircuitBreaker.dfy`, `Retry.dfy` and `Resilience.dfy` are the breaker, the backoff loop and
their combination. The breaker's fields are shown to be a function of what was recorded, and `RecoversIffNotWedged` says
exactly when it can recover. `GuardedCalls.dfy` carries the redemption out through them.

**Rate limits.** `RateLimit.dfy` is the map of token buckets with eviction, as objects and as a machine of concurrent
requests and sweeps, compared with a map that never evicts.

**Accounts.** `PostgresAccounts.dfy` interleaves the use cases on the users table, each caller holding copies that may be
stale, under the two unique indexes. `MemoryAccounts.dfy` has the in-memory repository with its aliased user objects and
the use cases that change them. `Listing.dfy` and `ListUsers.dfy` are the ordered pages of both.

**Texts.** `Email.dfy` (normal forms), `Uuid.dfy` (identifiers), `Encodings.dfy` and `Argon2Hasher.dfy` (PHC strings).

## Where the code is not what it says

- A half-open probe that ends in a non-retryable error records nothing, so the breaker can reject for ever, although its
  comment says that the probe's outcome decides whether it closes or opens again (`NonRetryableProbeWedges`,
  `ReachedRecoversIffNotWedged`). The one such error of the Redis calls is the answer to a lookup of an absent key, which
  `isRedisRetryable` excludes; only `FindUserIDByRefreshToken` looks keys up that way, and no use case calls it.
- A redemption whose reply is lost is answered REUSED by the retry, so one lost reply logs an honest user out everywhere
  (`LostReplyEndsSessions`).
- The audit event of a reuse says that all sessions were revoked whether they were or not, since the error of the
  revoke-all is dropped (refresh_token.go:33-39). `FailedRevokeIsRecorded` is a run in which they were not; the owner has
  no session left exactly if the revoke-all got to the index key of every live token (`SessionsEndIff`,
  `ExecuteOnReused`).
- A revoke-all that succeeds does not always end the lineage: a caller that has redeemed a token of it goes on to reissue
  (`ReissueSurvives`). `DeadForGoodIff` says when the lineage is dead for good.
- The in-memory repository lets an owner appoint a second one, which the database refuses. It has at most one owner at
  every point of a sequence of use cases exactly if none of them does that (`SingleOwnerIff`, `SecondOwnerRun`).
- Updates write whole records back from copies that may be stale: a profile update undoes a role change or a password
  change made meanwhile. A field that an update does not set is preserved exactly when its copy agrees with the row
  (`LostUpdates`, `RoleChangeUndone`, `PasswordChangeUndone`).
- Verifying a password looks at neither the algorithm's name nor its version in the stored string (`ReadIgnoresLabel`).
- Eviction from the limiter is invisible only if the rate refills the burst in the idle time (`EvictionUnobservableIff`,
  `WindowBoundFails`); the limiters the router installs satisfy this (`RouterLimitersQualify`).

## Assumptions

- Each execution of a transaction or script is atomic, and a full scan returns every key that was there throughout it.
- Drawn identifiers are fresh. Nobody presents a refresh token before the call that issues it has returned, and no
  execution of its issuing transaction takes place after that; `LateIssueRevivesToken` shows what would follow otherwise.
- The refresh TTL is positive (`ttl > 0`); clocks do not run backwards; token counts of the limiter are real numbers.
- `Sane` lists the facts about Unicode used: lower-casing twice is lower-casing once and does not change what is white
  space, and a character has at least one byte.

## Model

| member | source | states |
|---|---|---|
| `RefreshGuarantees.SessionConservation` | internal/application/usecase/refresh_token.go:26-61 | in every run, with any number of callers, a user's live tokens, issues in flight and refreshes between redeeming and reissuing never outnumber that user's logins and registrations |
| `RefreshGuarantees.SessionsFitRoots` | internal/application/usecase/refresh_token.go:26-61 | the step behind it: each such session has a login of its own at the root of its lineage |
| `RefreshGuarantees.RootsCountLogins` | internal/application/usecase/login_user.go:70 | over any run the lineages begun for a user grow by exactly the logins; reissuing begins none |
| `RefreshGuarantees.AtMostOneOK` | internal/infrastructure/security/jwt_service.go:53-65 | the log of OK answers of every run has no repetition |
| `RefreshGuarantees.SecondRedeemIsNeverOK` | internal/infrastructure/security/jwt_service.go:186-236 | after one execution answered OK, no later execution for that token is, through any retries, lost replies, expiries and revocations |
| `RefreshGuarantees.OneSuccessor` | internal/application/usecase/refresh_token.go:45-61 | a token has at most one successor, which has the same owner, and only a redeemed token has one |
| `RefreshGuarantees.LineageIsAChain` | internal/application/usecase/refresh_token.go:25-61 | rotation lineages never fork: of two descendants of a token one descends from the other |
| `RefreshGuarantees.DescendantsShareOwner` | internal/application/usecase/refresh_token.go:45-58 | every descendant has the owner and the login of its ancestor, and was drawn later |
| `RefreshGuarantees.NeverLiveAndUsed` | internal/infrastructure/security/jwt_service.go:53-65 | no reachable store has a token both live and tombstoned |
| `RefreshGuarantees.ProtocolRefinesTokenMachine` | internal/infrastructure/security/jwt_service.go:43-65 | every protocol step moves every token as the abstract per-token machine does, and no other way |
| `RefreshGuarantees.TokenLifeCycle` | internal/infrastructure/security/jwt_service.go:43-65 | a token becomes live only by its own issue and never once used, used only from live by its own redemption and until five minutes later, and leaves the used state only when that time is up |
| `RefreshGuarantees.RedeemedStaysDead` | internal/infrastructure/security/jwt_service.go:58-64 | a token once answered OK is never live again |
| `RefreshGuarantees.IndexComplete` | internal/infrastructure/security/jwt_service.go:119-126 | every live token has an entry in its owner's index that expires no earlier, through failed clean-ups and half-finished revocations |
| `RefreshGuarantees.SurvivorsAreNew` | internal/infrastructure/security/jwt_service.go:278-305 | when a revoke-all returns nil, only tokens whose issuing transaction ran after its last scan began can still be live for the user |
| `RefreshGuarantees.QuietRevokeLeavesNothing` | internal/infrastructure/security/jwt_service.go:278-305 | with no issue for the user meanwhile, a revoke-all that returns nil leaves the user no live token, whatever else runs |
| `RefreshGuarantees.RevokeSparesOthers` | internal/infrastructure/security/jwt_service.go:288-296 | revoking one scanned key changes no tombstone and nothing of any other user |
| `RefreshGuarantees.ReusedAnswerRevokesOwner` | internal/application/usecase/refresh_token.go:31-33 | a caller told REUSED learns the token's owner from the reply, and the revoke-all it begins scans that owner's index |
| `RefreshGuarantees.ReuseKillsDescendants` | internal/application/usecase/refresh_token.go:31-40 | whatever runs beside it, when the revoke-all set off by a REUSED answer returns nil, the token's descendants are dead or were written after the scan began |
| `RefreshGuarantees.RevokeKillsDescendants` | internal/infrastructure/security/jwt_service.go:278-305 | the same for any revoke-all of the owner |
| `RefreshGuarantees.ReusedResultIsOwners` | internal/infrastructure/security/jwt_service.go:186-219 | a call answered REUSED, with any number of lost replies, names the owner of the token |
| `RefreshGuarantees.SequentialReuseKillsLineage` | internal/application/usecase/refresh_token.go:26-40 | without interference, a refresh answered REUSED names the owner, and its completed revoke-all kills every descendant of the token and no other user's token |
| `RefreshGuarantees.ExecuteOnReused` | internal/application/usecase/refresh_token.go:26-40 | the use case itself on a reachable store: refused, recorded for the owner, other users untouched even by a failed revoke-all, every descendant dead after a successful one, and no session of the owner left exactly if the index key of every live token was got to |
| `DeadLineages.DeadForGoodIff` | internal/application/usecase/refresh_token.go:31-61 | in every reachable state no continuation ever gives a lineage a live token again exactly if none of its tokens is live and no caller is issuing one or has redeemed one and not yet reissued |
| `DeadLineages.RevokedLineageIsDead` | internal/application/usecase/refresh_token.go:31-40 | when the revoke-all set off by a reused token returns nil, with no issue of the lineage since its scan began, the lineage is dead for good exactly if no caller is about to extend it |
| `DeadLineages.RunDead` | internal/application/usecase/refresh_token.go:31-61 | the lasting half, over every run |
| `DeadLineages.PendingRevives` | internal/application/usecase/refresh_token.go:58 | the other half: a caller that extends the lineage can give it a live token |
| `DeadLineages.ReissueSurvives` | internal/application/usecase/refresh_token.go:31-58 | a run in which the revoke-all returns nil and a caller that had redeemed the token then reissues: the successor is live |
| `RefreshRuns.ExecuteIsARun` | internal/application/usecase/refresh_token.go:25-80 | every sequential refresh is a legal run of the concurrent protocol that leaves the same store, and ends a completed revoke-all with the end of its scan |
| `RefreshRuns.RefreshRun` | internal/application/usecase/refresh_token.go:25-80 | the run, built step by step for every outcome |
| `RefreshRuns.LoginIsARun` | internal/infrastructure/security/jwt_service.go:101-135 | so is the issue of a token at login |
| `RefreshGuarantees.ReachableIsIndexed` | internal/infrastructure/security/jwt_service.go:119-126 | in every reachable store the indexes are complete and name their own users' tokens only |
| `RefreshProtocol.StepKept` | internal/infrastructure/security/jwt_service.go:101-305 | every step of the protocol keeps the store, index, lineage and caller invariants |
| `RefreshProtocol.RunKept` | internal/infrastructure/security/jwt_service.go:101-305 | so does every run |
| `RefreshProtocol.RedeemOKIsFirst` | internal/infrastructure/security/jwt_service.go:53-65 | an OK answer names the owner the token was drawn for, in a text that parses, and the token was not answered OK before |
| `RefreshProtocol.ReusedNamesOwner` | internal/infrastructure/security/jwt_service.go:53-57 | a REUSED answer names the owner the token was drawn for, in a text that parses, and the token was answered OK before |
| `RefreshProtocol.FirstAnswerKept` | internal/application/usecase/refresh_token.go:45-58 | at an OK answer the token has no successor and every other token of its lineage has been redeemed |
| `RedisStore.KeysApart` | internal/infrastructure/security/jwt_service.go:309-323 | the three key families never collide for any token texts, and each builder is injective |
| `RedisStore.PrefixSelectsUser` | internal/infrastructure/security/jwt_service.go:289 | a key under a user's prefix is that user's index key for exactly the trimmed text, and no other user's |
| `RedisStore.ScanPatternIsPrefix` | internal/infrastructure/security/jwt_service.go:281-284 | the scan pattern matches exactly the keys with the user's prefix, by the store's glob rules |
| `RedisStore.IssueEffect` | internal/infrastructure/security/jwt_service.go:119-126 | the issuing transaction sets one token and one index entry, with equal deadlines, and nothing else |
| `RedisStore.RedeemEffect` | internal/infrastructure/security/jwt_service.go:53-65 | the script answers by tombstone, then by token, and on OK alone replaces the token by a tombstone with its owner |
| `RedisStore.ReuseIsDetectedForFiveMinutes` | internal/infrastructure/security/jwt_service.go:41-65 | a token answered OK is answered REUSED with the same user for exactly 300,000 ms and is unknown from then on |
| `RedisStore.TokenLastsItsTTL` | internal/infrastructure/security/jwt_service.go:119-126 | an issued token is answered OK for exactly its TTL, and its index entry is there as long |
| `RedisStore.KeySpelling` | internal/infrastructure/security/jwt_service.go:309-323 | the keys as they are written in the store |
| `RedisStore.RevokeEffect` | internal/infrastructure/security/jwt_service.go:289-295 | the transaction for one index key removes that token and that entry only |
| `RedisStore.StoreRefinesTokenMachine` | internal/infrastructure/security/jwt_service.go:43-65 | each command on string keys refines one abstract machine per token (absent, live, used), given that no used token is issued again |
| `RedisStore.LateIssueRevivesToken` | internal/infrastructure/security/jwt_service.go:119-126 | that proviso is needed: an issuing transaction repeated after the redemption makes a token answer OK twice |
| `JwtServices.JWTService.GeneratePair` | internal/infrastructure/security/jwt_service.go:101-135 | one token stored however often the transaction is sent; error when no reply came, the token then stored or not |
| `JwtServices.JWTService.RedeemRefreshToken` | internal/infrastructure/security/jwt_service.go:186-251 | consumed at most once; answered REUSED instead of OK when a reply was lost; the index entry removed only after OK |
| `JwtServices.JWTService.RotateRefreshToken` | internal/infrastructure/security/jwt_service.go:256-266 | a successor only for an unused token of the given user; another user's live token is used up |
| `JwtServices.JWTService.FindUserIDByRefreshToken` | internal/infrastructure/security/jwt_service.go:161-182 | the owner of a live token, none for an absent one, an error for an unreadable value |
| `JwtServices.JWTService.RevokeRefreshToken` | internal/infrastructure/security/jwt_service.go:268-274 | removes the one token key, leaving tombstone and index entry |
| `JwtServices.JWTService.RevokeRun` | internal/infrastructure/security/jwt_service.go:281-302 | one scan loop, for all ways of batching and any failing command: what was revoked is a subset of the user's index, all of it when the loop returns nil |
| `JwtServices.JWTService.RevokeAllRefreshTokens` | internal/infrastructure/security/jwt_service.go:278-305 | the same over all retries |
| `JwtServices.RefreshToken.Execute` | internal/application/usecase/refresh_token.go:25-77 | store, audit log and answer for every outcome of redeeming, finding the user, and issuing |
| `JwtServices.RedeemTells` | internal/infrastructure/security/jwt_service.go:186-236 | what a redemption answers, by tombstone, token, lost replies and how the call went |
| `JwtServices.RefreshStores` | internal/application/usecase/refresh_token.go:45-61 | which token a refresh stores: the successor of a live token of an existing, active user whose issue ran, and none for anyone else; the presented token is gone and every other as it was |
| `JwtServices.RefreshIndexes` | internal/application/usecase/refresh_token.go:45-61 | the index entries after it, for every user and token |
| `JwtServices.RefreshFails` | internal/application/usecase/refresh_token.go:26-44 | a refresh with no answer or a token not known consumes the presented token at most |
| `JwtServices.SessionsEndIff` | internal/infrastructure/security/jwt_service.go:284-301 | a revoke-all, finished or not, leaves the user no live token exactly if it got to the index key of each |
| `JwtServices.FailedRevokeIsRecorded` | internal/application/usecase/refresh_token.go:32-40 | from a new store: login, rotation, and the old token again while scans fail; the event that says all sessions were revoked is recorded, and the session is live |
| `GuardedCalls.RedeemGuarded` | internal/infrastructure/security/jwt_service.go:187-207 | a redemption through breaker and retry loop, for every fate of every attempt: the result and the store are those of a call as the service methods take it, executed at most max(1, attempts) times |
| `GuardedCalls.StoreIsConsumed` | internal/infrastructure/security/jwt_service.go:187-201 | the store after any attempts depends only on whether one of them executed the script |
| `JwtServices.RedeemAgain` | internal/infrastructure/security/jwt_service.go:54-64 | repeating the script changes nothing and turns an OK answer into REUSED |
| `JwtServices.LostReplyEndsSessions` | internal/infrastructure/security/jwt_service.go:186-219 | a live token presented once is taken for reused as soon as one reply is lost, and the revoke-all then ends its owner's sessions and no others |
| `JwtServices.PurgeEffect` | internal/infrastructure/security/jwt_service.go:288-296 | revoking some index keys kills exactly the tokens they name; tombstones stay |
| `JwtServices.PurgeAllKillsExactlyTheUsers` | internal/infrastructure/security/jwt_service.go:278-305 | with a complete index a full revoke kills exactly the user's live tokens |
| `JwtServices.RotationReplacesToken` | internal/application/usecase/refresh_token.go:45-61 | a rotation uses up the old token, makes the successor live for the same user, and leaves every other token as it was |
| `Uuids.ParseRoundTrip` | internal/infrastructure/security/jwt_service.go:246 | the text of an identifier (section 4 of RFC 9562) parses back to it, so texts are distinct |
| `Uuids.ParseIff` | internal/infrastructure/security/jwt_service.go:246-249 | a text parses to an identifier exactly if it is the printed text with its letters in either case |
| `Uuids.TextLayout` | internal/infrastructure/security/jwt_service.go:318 | the printed text is groups of 4, 2, 2, 2 and 6 bytes joined by dashes |
| `Uuids.HexAt` | internal/infrastructure/security/jwt_service.go:318 | each byte is its two lower-case hexadecimal digits, the high one first |
| `Uuids.TextChars` | internal/infrastructure/security/jwt_service.go:318 | an identifier's text is 36 hexadecimal digits and dashes: no colon and no glob character |
| `Uuids.TextOrderIsByteOrder` | internal/infrastructure/persistence/memory/user_repository.go:87-92 | lexicographic order of the texts is byte order of the identifiers |
| `Uuids.LessAtFirstDifference` | internal/infrastructure/persistence/memory/user_repository.go:87-92 | that order is decided at the first byte or character that differs |
| `CircuitBreakers.FieldsAreHistory` | internal/infrastructure/resilience/circuit_breaker.go:56-93 | every field is a function of the event history; the stored state is never half-open; the probe flag implies stored open |
| `CircuitBreakers.VisibleStateIsHistory` | internal/infrastructure/resilience/circuit_breaker.go:41-72 | the visible state is the failure streak and the time since the latest failure; a request is admitted by these and whether a probe is out |
| `CircuitBreakers.OneProbeBetweenRecords` | internal/infrastructure/resilience/circuit_breaker.go:56-72 | between two records a breaker that is not closed admits at most one request, and none before the timeout |
| `CircuitBreakers.RecordedProbeClearsFlag` | internal/infrastructure/resilience/circuit_breaker.go:74-93 | a probe ending in success or a retryable error clears the flag: closed, or open for exactly one more timeout |
| `CircuitBreakers.RecordDecides` | internal/infrastructure/resilience/circuit_breaker.go:41-93 | after a success every request is admitted; after a failure at the threshold exactly those from one reset timeout after it; after a lesser one all |
| `CircuitBreakers.StreakCounts` | internal/infrastructure/resilience/circuit_breaker.go:74-93 | failures add one to the streak, a success starts it anew, requests leave it |
| `CircuitBreakers.RecoversIffNotWedged` | internal/infrastructure/resilience/resilience.go:36-41 | the breaker can close again exactly when no probe is out without a call to report on it |
| `CircuitBreakers.RunIsReplay` | internal/infrastructure/resilience/circuit_breaker.go:56-93 | concurrent callers leave the breaker as the events they cause, replayed in order, do |
| `CircuitBreakers.ReachedIsSound` | internal/infrastructure/resilience/circuit_breaker.go:56-93 | so every breaker that callers can bring about is a function of a history, never stored half-open, and with the probe flag only while open |
| `CircuitBreakers.ReachedRecoversIffNotWedged` | internal/infrastructure/resilience/resilience.go:36-41 | for every breaker that callers can bring about from a new one |
| `CircuitBreakers.WedgedForever` | internal/infrastructure/resilience/resilience.go:36-41 | in that situation it rejects for ever |
| `CircuitBreakers.NonRetryableProbeWedges` | internal/infrastructure/resilience/resilience.go:36-41 | for every threshold a new breaker is brought there: as many failures, then a probe that ends in a non-retryable error |
| `CircuitBreakers.CircuitBreaker.constructor` | internal/infrastructure/resilience/circuit_breaker.go:33-39 | an empty history |
| `CircuitBreakers.CircuitBreaker.State` | internal/infrastructure/resilience/circuit_breaker.go:41-52 | the visible state of the history |
| `CircuitBreakers.CircuitBreaker.AllowRequest` | internal/infrastructure/resilience/circuit_breaker.go:56-72 | admits exactly as the history says |
| `CircuitBreakers.CircuitBreaker.RecordSuccess` | internal/infrastructure/resilience/circuit_breaker.go:74-81 | one success is added to the history, and the fields follow |
| `CircuitBreakers.CircuitBreaker.RecordFailure` | internal/infrastructure/resilience/circuit_breaker.go:83-93 | one failure is added to the history, and the fields follow |
| `Retries.NewRetryPolicy` | internal/infrastructure/resilience/retry.go:15-27 | each of attempts and multiplier is as given if at least one, and one otherwise; the backoff is as given |
| `Retries.BackoffForAttempt` | internal/infrastructure/resilience/retry.go:29-35 | the loop of wrapping 64-bit products is, modulo 2^64, the initial backoff times a power of the multiplier, for every policy and attempt |
| `Retries.BackoffExact` | internal/infrastructure/resilience/retry.go:29-35 | no pause up to an attempt overflows exactly when the last one fits 64 bits |
| `Retries.PausesAreGeometric` | internal/infrastructure/resilience/retry.go:55-61 | without overflow the pauses add up to the geometric sum |
| `Retries.RetryWithBackoff` | internal/infrastructure/resilience/retry.go:39-63 | ends; runs the operation up to the first stopping run; returns that reply or the cancellation; sleeps exactly the pauses between runs |
| `Retries.UncancelledCallCount` | internal/infrastructure/resilience/retry.go:45-62 | an uncancelled call runs the operation min(max(1, attempts), first success or non-retryable error) times |
| `Retries.CallCount` | internal/infrastructure/resilience/retry.go:45-62 | with cancellation too: budget, first decisive reply and first cancelled pause, whichever is first; the context error exactly if it is the cancelled pause alone |
| `Retries.ExhaustedCallCount` | internal/infrastructure/resilience/retry.go:51-53 | with retryable failures only it runs max(1, attempts) times |
| `Resilience.CallWithResilience` | internal/infrastructure/resilience/resilience.go:22-44 | a rejected call runs nothing and records nothing; an admitted one records its last reply only, once or not at all, after whatever other callers did meanwhile; after a recorded failure that reaches the threshold requests are refused until exactly one reset timeout after the time of the record |
| `Resilience.BatchCountsOnce` | internal/infrastructure/resilience/resilience.go:34-41 | a whole batch of retries moves the failure streak to zero, by one, or not |
| `Resilience.OpensForOneTimeout` | internal/infrastructure/resilience/resilience.go:22-44 | the same in figures: a failure recorded at 1001 with a timeout of 60 turns away a request at 1002 and lets one through at 1061 |
| `RateLimits.EvictionUnobservableIff` | internal/interface/http/middleware/rate_limit.go:44-69 | over every schedule of requests and sweeps, evicting and never evicting give the same answers exactly when there is no burst, or rate times the idle time that remains after the gap between lookup and question is at least the burst |
| `RateLimits.RefillHidesEviction` | internal/interface/http/middleware/rate_limit.go:44-69 | the same answers, for every such schedule, when the condition holds |
| `RateLimits.RunMatches` | internal/interface/http/middleware/rate_limit.go:44-69 | in every run the two maps answer alike and stay alike key by key |
| `RateLimits.WindowBound` | internal/interface/http/middleware/rate_limit.go:76-112 | in every window of time a key is admitted at most burst plus rate times length, over any evictions and re-creations |
| `RateLimits.WindowBoundFails` | internal/interface/http/middleware/rate_limit.go:44-69 | without the condition some run exceeds that bound |
| `RateLimits.RouterLimitersQualify` | internal/interface/http/router.go:36-60 | the installed limiters meet the condition |
| `RateLimits.Limiter.Allow` | internal/interface/http/middleware/rate_limit.go:80 | grants exactly when the tokens held and those that came since at the configured rate make one; what is left is that, cut to the burst, less one |
| `RateLimits.GrantsExactly` | internal/interface/http/middleware/rate_limit.go:80-112 | the same of a bucket as a value, also for a clock reading in the past and for bursts below one |
| `RateLimits.EmptyBucketGrants` | internal/interface/http/middleware/rate_limit.go:80-112 | an emptied bucket grants again exactly when rate times the time since makes one token |
| `RateLimits.TakesOne` | internal/interface/http/middleware/rate_limit.go:80-112 | a grant takes one of the tokens held, which never exceed the burst, and a refusal none |
| `RateLimits.NewKeyBurst` | internal/interface/http/middleware/rate_limit.go:44-54 | of a number of requests for a new key at one instant all are granted exactly if the burst allows as many |
| `RateLimits.IdleForTenMinutes` | internal/interface/http/middleware/rate_limit.go:60-67 | with the installed idle time a sweep removes exactly the entries not asked for in the ten minutes before it |
| `RateLimits.KeyedLimiter.Get` | internal/interface/http/middleware/rate_limit.go:44-54 | the entry of the key, new and full if there was none, with its time renewed; no other entry changes |
| `RateLimits.KeyedLimiter.Sweep` | internal/interface/http/middleware/rate_limit.go:60-67 | exactly the entries last seen before the cutoff go, in whatever order they are visited |
| `RateLimits.KeyedLimiter.Admit` | internal/interface/http/middleware/rate_limit.go:76-112 | lookup and question together: the answer, the key's new bucket, and every other bucket unchanged |
| `PostgresAccounts.OneOwnerForever` | internal/infrastructure/persistence/postgres/migrations/0001_create_users.sql:14-15 | under every interleaving of use cases with stale copies a non-empty table has exactly one owner row, for ever the same, and no row disappears |
| `PostgresAccounts.RoleChangeIsOwners` | internal/domain/entity/user.go:101-108 | a role change takes effect exactly when the actor is that owner, the target another user and the role not owner, and writes that row only |
| `PostgresAccounts.EmailsStayDistinct` | internal/infrastructure/persistence/postgres/migrations/0001_create_users.sql:3 | e-mails are distinct and never change, nor do creation times |
| `PostgresAccounts.OwnUpdatesNeverConflict` | internal/application/usecase/update_profile.go:20-32 | profile and password writes never meet a constraint, however stale the copy |
| `PostgresAccounts.FallbackFailsIffEmailTaken` | internal/application/usecase/register_user.go:66-75 | the fall-back save fails exactly when the e-mail has been taken since it was looked up |
| `PostgresAccounts.ClaimWrites` | internal/application/usecase/register_user.go:55-64 | claiming ownership on the empty table makes the owner's row with the given fields; on any other the caller falls back; a name of illegal length ends the registration |
| `PostgresAccounts.FallbackAdds` | internal/application/usecase/register_user.go:66-75 | the fall-back adds a plain user's row with the given fields exactly when nobody has the e-mail, and changes no other |
| `PostgresAccounts.ReadsAreRows` | internal/infrastructure/persistence/postgres/user_repository.go:139-174 | each copy a caller holds is the row as it was at the read; where there is none the use case is over |
| `PostgresAccounts.FindByEmailResult` | internal/application/usecase/register_user.go:37-48 | a registration goes on exactly if the address is valid and nobody has it |
| `PostgresAccounts.EveryRowReadsBack` | internal/infrastructure/persistence/postgres/user_repository.go:139-174 | every stored row reads back unchanged, with a normal-form e-mail and a legal name |
| `PostgresAccounts.SaveThenFind` | internal/infrastructure/persistence/postgres/user_repository.go:55-71 | saving and reading back gives the record, to the microsecond and with the row's own creation time |
| `PostgresAccounts.LostUpdates` | internal/infrastructure/persistence/postgres/user_repository.go:55-71 | a profile, password or role update sets its own field and preserves each other field of the row exactly when the copy it was read from agrees with the row; it takes effect on an exact condition and otherwise changes nothing |
| `PostgresAccounts.StaleProfileUndoesRoleChange` | internal/application/usecase/update_profile.go:20-32 | a profile update after a role change brings back role and hash of its copy, so the new role survives exactly when the copy had it |
| `PostgresAccounts.RoleChangeUndone` | internal/application/usecase/update_profile.go:20-32 | a run in which a role is changed and then put back |
| `PostgresAccounts.PasswordChangeUndone` | internal/application/usecase/change_password.go:31-49 | a run in which a password is changed and then put back |
| `PostgresAccounts.UpdatesAreLost` | internal/application/usecase/update_profile.go:20-32 | both runs with fixed inputs |
| `PostgresAccounts.WriteFailsIff` | internal/infrastructure/persistence/postgres/user_repository.go:55-71 | exactly when a write of a use case meets a unique index |
| `PostgresAccounts.Claim` | internal/infrastructure/persistence/postgres/user_repository.go:85-100 | ownership is claimed exactly on the empty table |
| `PostgresAccounts.StepKept` | internal/infrastructure/persistence/postgres/user_repository.go:43-100 | every statement of every use case keeps the table, and every copy held agrees with its row on identity and ownership |
| `PostgresAccounts.RunKept` | internal/infrastructure/persistence/postgres/user_repository.go:43-100 | so does every run, at every point of it; owners, e-mails and creation times carry over |
| `MemoryAccounts.SequencesKept` | internal/infrastructure/persistence/memory/user_repository.go:35-77 | every sequence of use cases, on every error path, keeps records under their own identifiers, e-mails distinct, normal forms, and an owner if there is anybody |
| `MemoryAccounts.RunCommands` | internal/infrastructure/persistence/memory/user_repository.go:25-77 | any sequence of use cases on the repository's own objects gives the table and, from a table that keeps the invariants, such as the empty one, the answers of the functions on tables |
| `MemoryAccounts.StepOwners` | internal/application/usecase/change_role.go:36-42 | a use case makes a second owner exactly if it is an owner giving another user the owner's role |
| `MemoryAccounts.SingleOwnerIff` | internal/application/usecase/change_role.go:23-42 | a sequence of use cases has at most one owner at every point exactly if none of them is that |
| `MemoryAccounts.SecondOwnerPossible` | internal/application/usecase/change_role.go:36-42 | that use case does leave two owners |
| `MemoryAccounts.SecondOwnerRun` | internal/application/usecase/register_user.go:55-75 | and is reached: two registrations from the empty repository, then an appointment |
| `MemoryAccounts.SecondOwnerHappens` | internal/application/usecase/register_user.go:55-75 | the same with fixed inputs |
| `MemoryAccounts.ChangesHaveACause` | internal/infrastructure/persistence/memory/user_repository.go:25-77 | over any sequence of use cases a stored user keeps address, identifier, activity and creation time, and another hash, name or role was set by the user with the right current password, by the user, and by somebody else who was owner at that point |
| `MemoryAccounts.RecordAfter` | internal/domain/entity/user.go:87-108 | one use case on one stored user: exactly which give another role, hash or name |
| `MemoryAccounts.RegisterStores` | internal/application/usecase/register_user.go:50-80 | every field a registration stores: the owner's if there is no owner, otherwise a plain user's |
| `MemoryAccounts.RegisterRejects` | internal/application/usecase/register_user.go:32-80 | the exact condition of each rejection of a registration; a rejected one stores nothing |
| `MemoryAccounts.UpdateRejects` | internal/application/usecase/change_password.go:26-49 | the exact condition of each refusal of a role, name or password change; a refused one, such as with a wrong current password, changes nothing |
| `MemoryAccounts.LoginAnswers` | internal/application/usecase/login_user.go:32-73 | the exact condition of each answer to a login |
| `MemoryAccounts.RegisteredCanLogin` | internal/application/usecase/login_user.go:32-73 | whoever has registered can log in with any spelling of the address, and only with the right password |
| `MemoryAccounts.User.UpdateName` | internal/domain/entity/user.go:87-94 | the name and update time change together, or nothing does |
| `MemoryAccounts.User.UpdatePassword` | internal/domain/entity/user.go:96-99 | the hash and update time change, nothing else |
| `MemoryAccounts.User.ChangeRole` | internal/domain/entity/user.go:101-108 | the role and update time change when the actor is an owner with another identifier; the actor may be the same object |
| `MemoryAccounts.UserRepository.FindByID` | internal/infrastructure/persistence/memory/user_repository.go:25-33 | the stored object itself |
| `MemoryAccounts.UserRepository.FindByEmail` | internal/infrastructure/persistence/memory/user_repository.go:35-44 | a stored object with the e-mail, whatever the visiting order; the only one when e-mails are distinct |
| `MemoryAccounts.UserRepository.Save` | internal/infrastructure/persistence/memory/user_repository.go:46-51 | the object under its own identifier, the rest as before |
| `MemoryAccounts.UserRepository.SaveFirstOwner` | internal/infrastructure/persistence/memory/user_repository.go:67-77 | stores and says true exactly when nobody is owner |
| `MemoryAccounts.InsertUser` | internal/infrastructure/persistence/memory/user_repository.go:87-92 | insertion keeps the order and the objects |
| `MemoryAccounts.SortUsers` | internal/infrastructure/persistence/memory/user_repository.go:87-92 | the same objects in increasing order |
| `MemoryAccounts.CollectUsers` | internal/infrastructure/persistence/memory/user_repository.go:83-86 | every stored object once, in whatever order the map is visited |
| `MemoryAccounts.FindPaginated` | internal/infrastructure/persistence/memory/user_repository.go:79-107 | the slice of the table's one listing, with all indices in range, whatever the visiting order |
| `MemoryAccounts.RegisterUser` | internal/application/usecase/register_user.go:32-99 | the table and the answer on every path, through the aliased objects |
| `MemoryAccounts.ClaimOrFallBack` | internal/application/usecase/register_user.go:55-75 | the candidate as owner if there is none, otherwise a second entity as a plain user |
| `MemoryAccounts.ChangeUserRole` | internal/application/usecase/change_role.go:23-60 | the table and the answer on every path; actor and target may be one object; one record changes at most |
| `MemoryAccounts.UpdateProfile` | internal/application/usecase/update_profile.go:20-43 | the table and the answer on every path, although the stored object is changed before it is saved |
| `MemoryAccounts.ChangePassword` | internal/application/usecase/change_password.go:26-59 | the table and the answer on every path |
| `MemoryAccounts.LoginUser` | internal/application/usecase/login_user.go:32-92 | succeeds exactly if a stored record has the address, is active, the password is right and the token service answers; the exact condition of each error; the table is only read |
| `Listings.ListingIsUnique` | internal/infrastructure/persistence/memory/user_repository.go:83-92 | a table has one ordered listing |
| `Listings.SameOrder` | internal/infrastructure/persistence/memory/user_repository.go:87-92 | the comparison by text and the order of the database decide alike |
| `Listings.ListingOrder` | internal/infrastructure/persistence/postgres/user_repository.go:102-107 | older users come first, and of users created at one time the one with the smaller identifier |
| `Listings.PageRows` | internal/infrastructure/persistence/postgres/user_repository.go:102-107 | row by row what a page of the sorted users and of the query holds, with the limits 20 and 100 |
| `Listings.RepositoriesAgree` | internal/infrastructure/persistence/postgres/user_repository.go:102-107 | for every limit the use case can ask, slicing the text-sorted users and querying the byte-sorted rows give the same page |
| `Listings.ClampLimit` | internal/infrastructure/persistence/postgres/user_repository.go:31-39 | the identity exactly on 1 to 100, and always in that range |
| `Listings.PagesPartition` | internal/application/usecase/list_users.go:42-51 | the pages up to the count concatenate to the listing; a page is empty exactly beyond the count |
| `Listings.PageCountIsCeiling` | internal/application/usecase/list_users.go:49-52 | the page count is the exact ceiling |
| `ListUsersCase.Execute` | internal/application/usecase/list_users.go:25-76 | for all 32-bit inputs the page of the listing with its figures, refused exactly for callers who may not manage roles: page and size asked for, put in range; the total; and the ceiling as the number of pages while 32 bits hold it |
| `ListUsersCase.PageFigures` | internal/application/usecase/list_users.go:30-52 | the same figures of the answer as a value, and each of its rows |
| `ListUsersCase.FortyFiveUsers` | internal/application/usecase/list_users.go:49-52 | 45 users at size 20 are 3 pages, the last with 5 of them |
| `ListUsersCase.OffsetFits` | internal/application/usecase/list_users.go:42 | the offset is never negative and never overflows 64 bits |
| `ListUsersCase.SliceEndFits` | internal/infrastructure/persistence/memory/user_repository.go:95-102 | nor does the end of the slice |
| `ListUsersCase.CountFits` | internal/application/usecase/list_users.go:49-52 | the 32-bit page count is right exactly while the count fits |
| `ListUsersCase.PagesShowEveryUserOnce` | internal/application/usecase/list_users.go:30-52 | the pages show every user once, in order; later pages are empty |
| `ListUsersCase.RepositoriesAgreeOnPages` | internal/application/usecase/list_users.go:34-44 | both repositories answer every request of the use case alike |
| `Encodings.DecodeRoundTrip` | internal/infrastructure/security/argon2_hasher.go:63-70 | unpadded base64 (sections 4 and 3.2 of RFC 4648) decodes to the bytes that were encoded |
| `Encodings.EncodedGroups` | internal/infrastructure/security/argon2_hasher.go:44-45 | each group of four digits and of three bytes is the same number of 24 bits, the last filled up with zeros; no padding (section 4 of RFC 4648) |
| `Encodings.DigitsInOrder` | internal/infrastructure/security/argon2_hasher.go:44-45 | the digits in order, A to Z, a to z, 0 to 9, plus and slash, and nothing else a digit |
| `Encodings.DecodesIff` | internal/infrastructure/security/argon2_hasher.go:63-70 | exactly which texts decode |
| `Encodings.EncodedChars` | internal/infrastructure/security/argon2_hasher.go:44-45 | encoded text has characters of the base64 alphabet only, so no dollar sign |
| `Encodings.ScanPrinted` | internal/infrastructure/security/argon2_hasher.go:59 | scanning a printed number gives the number and what follows it exactly if it is below the limit, and an error otherwise |
| `Encodings.DecimalPlaces` | internal/infrastructure/security/argon2_hasher.go:38-43 | numbers are printed with their digits in decimal places |
| `Encodings.JoinSplit` | internal/infrastructure/security/argon2_hasher.go:52 | splitting loses nothing and leaves no separator in a field |
| `Encodings.SplitJoin` | internal/infrastructure/security/argon2_hasher.go:52 | fields without the separator come back from their joined text |
| `Argon2Hasher.PhcRoundTrip` | internal/infrastructure/security/argon2_hasher.go:38-70 | for all parameters, salts and keys, reading the printed string gives exactly what was printed if memory and iterations fit 32 bits and the lanes eight, and an error otherwise |
| `Argon2Hasher.HashText` | internal/infrastructure/security/argon2_hasher.go:30-48 | the stored text, with the parameters written out |
| `Argon2Hasher.ReadIgnoresLabel` | internal/infrastructure/security/argon2_hasher.go:52-70 | of six fields the first three are not looked at: any algorithm name and version is taken |
| `Argon2Hasher.VerifyPrinted` | internal/infrastructure/security/argon2_hasher.go:51-74 | a printed string verifies exactly the passwords the key function maps to the printed key and refuses the others; with no iterations, no lanes or no key the library panics instead |
| `Argon2Hasher.VerifyHash` | internal/infrastructure/security/argon2_hasher.go:30-74 | a password verifies against the hash of another exactly when the key function agrees on both, and is refused otherwise |
| `Argon2Hasher.PrintInjective` | internal/infrastructure/security/argon2_hasher.go:38-46 | different contents print differently |
| `NormalForms.NewEmailIdempotent` | internal/domain/valueobject/email.go:11-17 | an accepted address is its own normal form |
| `NormalForms.NewEmailIs` | internal/domain/valueobject/email.go:11-36 | what an input is accepted as: the part between the white space, each character lower-cased, exactly if that has legal length and shape |
| `NormalForms.ValidEmailShape` | internal/domain/valueobject/email.go:21-36 | an address is accepted exactly when it has 1 to 254 bytes and is local part, at sign, host, dot, top-level part, none empty |
| `NormalForms.NormalEmailIff` | internal/domain/valueobject/email.go:11-36 | exactly which strings are normal forms |
| `NormalForms.NewNameIdempotent` | internal/domain/entity/user.go:129-135 | an accepted name, trimmed, is accepted unchanged and has 1 to 100 bytes |
| `NormalForms.NewNameIs` | internal/domain/entity/user.go:129-135 | a name is accepted exactly if 1 to 100 bytes are left between the white space around it, and as these |
| `NormalForms.TrimIsMiddle` | internal/domain/entity/user.go:130 | trimming takes white space off both ends and nothing else |
| `NormalForms.TrimOf` | internal/domain/entity/user.go:130 | and leaves exactly the part that neither begins nor ends with white space |
| `NormalForms.LenAdds` | internal/domain/entity/user.go:131 | the length is the sum of the characters' lengths |

## Left out

- Ed25519 signatures, access tokens and JWT parsing (`GeneratePair` returns the refresh token only); the Argon2 function,
  which is an arbitrary function of password, salt and parameters; random numbers, which are inputs.
- The Redis and PostgreSQL clients and servers themselves, connection handling, and database errors other than
  unique-constraint violations.
- HTTP and gRPC handlers, interceptors, CORS, security headers, health checks, configuration, telemetry, audit sinks,
  server start-up, and `postgres.Migrate` with its advisory lock.
- `GetUser`, `ParseRole` and the password length rule: single branches. The last is a Boolean input of the use cases, as are
  the verdict of the hasher and whether the token service answered; the error of a failed pair is one fixed value.
- `Delete`, `Activate` and `Deactivate`, which no use case calls; `Count`.
- JwtServices.JWTService.RedeemRefreshToken: the executions of one guarded call happen at one instant and the breaker and
  retry loop appear only as how many ran and whether a reply came (`GuardedCalls` derives that from the retry loop); time
  between executions is in `RefreshProtocol`.
- JwtServices.JWTService.RevokeRun: `pick` and `budget` stand for the server's batching and for the command that fails; a
  failed command is taken not to have run, and its having run with the reply lost is in `RefreshProtocol`.
- JwtServices.JWTService.RevokeAllRefreshTokens: attempts follow one another at one instant without other callers; the
  interleaved form is in `RefreshProtocol`.
- JwtServices.JWTService.GeneratePair: the access token and the error of signing it are not modelled, and executions happen
  at one instant; other timings are in `RefreshProtocol`.
- JwtServices.JWTService.RotateRefreshToken: both calls happen at one instant, and the access token is not modelled.
- JwtServices.RefreshToken.Execute: the access token and the user summary in the answer are not modelled.
- RefreshRuns.ExecuteIsARun: a revocation retried half way is shown as one scan that got as far, since nothing else runs.
- RefreshProtocol.StepKept: login, registration and refresh appear with their token-store steps only.
- RedisStore.ScanPatternIsPrefix: of the glob language only `*`, `?` and literal characters are modelled, since an
  identifier's text has neither brackets nor backslashes.
- Uuids.ParseRoundTrip: parsing is modelled for the 36-character form only; other accepted spellings are never stored.
- Retries.RetryWithBackoff: a pause cut short by cancellation is not counted in the time slept; `cancelled` says which pauses are.
- CircuitBreakers.FieldsAreHistory: the failure counter is not cut to 64 bits, and mutual exclusion by the mutex is taken
  as given, one event per critical section.
- RateLimits.Limiter.Allow: floating-point rounding, the infinite rate and the unused reservation parts of the library are
  left out.
- MemoryAccounts.RunCommands: use cases run one after another; under concurrency this repository keeps neither unique
  e-mails nor a consistent view of the objects it hands out.
- MemoryAccounts.SortUsers: the library sort appears as an insertion sort with the same comparison.
- MemoryAccounts.LoginUser: the audit events are not modelled, here and in the other account use cases.
- PostgresAccounts.SaveThenFind: a column keeps the time rounded down to microseconds; role and hash are stored as they are.
- Argon2Hasher.VerifyPrinted: what the Argon2 library does with too few iterations, lanes or key bytes is taken from its
  documentation; a key of 2^32 bytes or more, whose length would be cut, is not represented.
- Argon2Hasher.PhcRoundTrip: reading is modelled for text as printed; the scanner's tolerance of extra blanks is not.
- NormalForms.NewEmailIdempotent: strings are sequences of whole characters, so invalid UTF-8 is not represented.
