# Seagles: verified models of its state machines

Seagles is a scanner for IoT devices: a Go backend and a Python firmware analyzer.
Most of it is input and output, but it holds a number of small state machines whose
correctness is a matter of whole runs. This project models them in Dafny and proves
what they promise. `dafny verify dfyconfig.toml` checks everything.

| file | models |
|---|---|
| `Migrations.dfy`, `MigrationDirectory.dfy`, `MigrationReplicas.dfy` | discovery of the migration files, one boot after another, and any number of replicas booting at once |
| `Breaker.dfy`, `BreakerProbe.dfy` | the circuit breaker, call by call, and with the steps of overlapping calls interleaved |
| `Hub.dfy` | the WebSocket broadcast hub |
| `Sessions.dfy`, `AccessTokens.dfy` | refresh tokens and their rotation; access tokens and the logout blacklist |
| `RateLimiter.dfy`, `Csrf.dfy`, `TtlCache.dfy`, `ExpiringStore.dfy` | stores whose entries expire and are purged in the background |
| `Alerts.dfy` | alert deduplication with overlapping calls, together with retention |
| `Entropy.dfy`, `Risk.dfy` | firmware entropy and the risk score, over the reals |
| `WorkerPool.dfy`, `Kev.dfy` | the scan worker pool and the known-exploited-vulnerabilities index |
| `Basics.dfy` | options, time in nanoseconds, and a fact about whole periods |

Components that the source writes as objects updated in place are classes here: each
method is proved to have the effect of a step function on values, and the theorems are
about all runs of that step function. Components that run concurrently are state
machines whose events may interleave in any order. Time is an explicit clock that the
events carry. Each database statement is one atomic step, with a flag or an event for
every way it can fail; only the session handlers, which do not overlap in the model, are
one step each, with a flag for each of their statements. Hashes, signatures, `log2` and
case conversion are parameters.

## Findings

Two properties that one would expect of the code do not hold of it as written. The
model follows the code; the exact condition is proved in each case.

* **The half-open probe slot of the circuit breaker can be lost.** A probe that finds
  the failure counter full and the breaker closed at `backend/breaker/breaker.go:103`
  returns at line 107 without releasing the slot it won at line 91. Without Reset this
  takes another call that succeeds late and stores "closed" (line 126) after the probe
  stored "half-open" (line 94): `BreakerProbe.LossNeedsLateSuccess` shows it for all runs.
  `BreakerProbe.SlotCanBeLost` is such a run, with clock readings in order;
  `BreakerProbe.SlotFreeAtRestIff` shows that in runs without Reset the slot is free once
  all calls have returned if and only if that guard never fires for the probe; and
  `BreakerProbe.LostSlotStaysOpen` shows the cost: the breaker refuses every later call,
  for ever, until Reset.
* **Cleaning up the rate limiter is unobservable only if no reachable rule has a window
  longer than the fallback's** (more precisely: longer by more than a nanosecond, as one
  comparison is strict and the other is not). `RateLimiter.CleanupIsUnobservable` and
  `RateLimiter.CleanupIsObservable` are the two halves. The server as shipped meets the
  condition: it builds the limiter with the fallback alone (`backend/api/router.go:67`)
  and only a test calls AddRule.

Three smaller ones, also with their exact conditions: a refresh whose revocation fails
leaves the old token usable (`Sessions.RefreshOutcomes`); a failed deduplication query,
or a second call for the same device and kind between a call's query and its insert,
lets a duplicate alert through exactly when there is a recent one at the insert
(`Alerts.AlwaysSpacedIff`, with `Alerts.OverlapBreaksSpacing` as an instance); and the
uncapped risk score differs from the sum of the breakdown as soon as a count is
negative, as the age of a scan dated in the future is (`Risk.ScoreIsCappedBreakdown`).
A rate limit that is not positive still lets the first request of every window through,
and reports a negative remainder to it (`RateLimiter.NthRequestOfWindow`,
`RateLimiter.RemainingIsNatIff`).

The comment at `backend/breaker/breaker.go:113` says the slot is released no matter how
the call turned out; the model follows the code, in which line 107 comes before it. The
repository's `README.md:211-224` lists the points of the risk score without those for the
age of the last scan, which the code adds; `Risk.ScoreIsDocumented` says when it matters.

## Model

| member | source | states |
|---|---|---|
| MigrationDirectory.DiscoverMigrations | backend/db/db.go:122-147 | fails exactly if the directory or some `.sql` file cannot be read; otherwise yields exactly the `.sql` files, with 64-character checksums, strictly in lexical order |
| MigrationDirectory.IsMigrationIff | backend/db/db.go:130-132 | an entry counts exactly if it is not a directory and its name is some stem followed by `.sql` |
| MigrationDirectory.OrderIsDetermined | backend/db/db.go:120-146 | replicas that see the same files, listed in any order, apply them in the same order |
| MigrationDirectory.NumberedInOrder | backend/db/db.go:120-121 | names that begin with numbers of one width, padded with zeros, are applied in the order of the numbers |
| Migrations.AppliedMigrations | backend/db/db.go:163-179 | the loop over the rows builds the snapshot map |
| Migrations.SnapshotIsTable | backend/db/db.go:163-179 | a version is in the snapshot exactly when it is recorded, with the checksum of one of its rows |
| Migrations.Database.RunMigrations | backend/db/db.go:199-254 | a boot on a live database, with a fault or crash before or after the commit of any file, has exactly the effect and the outcome of the boot function |
| Migrations.EditedFileStopsBoot | backend/db/db.go:215-245 | if a recorded file has been edited the boot fails under every fault schedule, and what it newly applied are exactly the unrecorded files up to some point before the edited one, in order; the error, if it is about a file, gives an edited file's recorded checksum and then the one on disk |
| Migrations.EditedFileIsReported | backend/db/db.go:216-223 | if nothing befalls the unrecorded files before the first edited one, the error names that one with its two checksums |
| Migrations.BootKeepsChecksums | backend/db/db.go:137-143 | whatever happens, only 64-character checksums are ever recorded, so the 12-character slices of the error message are in range |
| Migrations.PrefixBoot | backend/db/db.go:181-254 | on a database left by earlier boots, a boot keeps it a prefix of the directory and never loses a file; it succeeds, by completing the directory, if and only if every file applies and nothing befalls those not yet recorded; otherwise it stops at the first file that fails or is interrupted, before or after its commit |
| Migrations.RecoversToCleanBoot | backend/db/db.go:181-254 | after any number of crashed or failed boots, one successful boot leaves exactly the schema and records of a single clean boot, and any later boots change nothing |
| MigrationReplicas.CommitSeesItsBase | backend/db/db.go:149-154 | the primary key alone makes concurrent commits safe: a commit that passes it was computed from the very database it replaces |
| MigrationReplicas.ActKeepsInv | backend/db/db.go:206-250 | every call of every replica keeps the invariant that ties its position to the shared log, and only extends the log |
| MigrationReplicas.FaultsHaveNoEffect | backend/db/db.go:206-250 | a crash or an error from a database call leaves the database alone and ends the boot |
| MigrationReplicas.RecordedFailsInsert | backend/db/db.go:149-154 | a version already recorded fails the insert, and the commit if it was recorded in between |
| MigrationReplicas.LogIsPrefixOfDirectory | backend/db/db.go:149-254 | in every interleaving of any number of replicas, of releases that extend one another, with crashes, rollbacks and unacknowledged commits: the log is a prefix of the sorted directory, no version is in it twice, and the schema is the fold of the log |
| MigrationReplicas.SuccessIsCleanAndFinal | backend/db/db.go:181-254 | once any replica of the newest release has succeeded, the database is that of a clean boot and no later event of any replica changes it |
| MigrationReplicas.RestartSucceeds | backend/db/db.go:181-254 | from every reachable state, whatever other replicas have left unfinished, a replica of the newest release that crashes, boots again and is left alone succeeds with the database of a clean boot, if the directory applies |
| MigrationReplicas.SoloBootIsRun | backend/db/db.go:199-254 | a sequential boot, under every fault schedule, is a run of the replica machine |
| Breaker.Breaker.constructor | backend/breaker/breaker.go:54-69 | a fresh breaker, with the defaults for options that are not positive |
| Breaker.Breaker.SetStateTo | backend/breaker/breaker.go:75-81 | stores the state and announces exactly the real changes |
| Breaker.Breaker.Execute | backend/breaker/breaker.go:83-132 | the fields and the answer after one call are those of the step function |
| Breaker.Breaker.Reset | backend/breaker/breaker.go:134-139 | the fields after a reset are those of the step function |
| Breaker.HistoryDeterminesState | backend/breaker/breaker.go:54-139 | after any sequence of calls and resets, for the limit and timeout asked for or 5 failures and 30 seconds in place of options that are not positive: each call was admitted exactly by the reference rule on the history, `failures` is the number of trailing failures, `lastFailure` the time of the last, the state is open exactly if they reach the limit and never half-open, the slot is free, and the announced changes are exactly those the history asks for |
| Breaker.OutageLoadIsBounded | backend/breaker/breaker.go:85-123 | during an outage of length T from a fresh breaker, the dependency is called at most `maxFailures + T / resetTimeout` times, with the values asked for or the defaults |
| BreakerProbe.SlotMatchesHolderIff | backend/breaker/breaker.go:83-132 | in every interleaving without Reset no two calls hold the slot, and the flag is set exactly while one call in flight holds it, if and only if no call has returned through the guard as the probe |
| BreakerProbe.MutexIsExclusive | backend/breaker/breaker.go:101-109 | in every interleaving, resets included, the mutex is held exactly by the one call between its lock and unlock |
| BreakerProbe.LostIffGuardFired | backend/breaker/breaker.go:101-109 | a call is leaving, or has left, with the slot exactly if the guard fired for a probe somewhere in the run |
| BreakerProbe.SlotFreeAtRestIff | backend/breaker/breaker.go:91-116 | without Reset, when all calls have returned the slot is free if and only if the guard never fired for the probe |
| BreakerProbe.OnlyTheGuardLosesTheSlot | backend/breaker/breaker.go:83-139 | with any interleaved Resets, unless the guard fires for a probe the slot is free whenever all calls have returned |
| BreakerProbe.SlotTakenAtRestIff | backend/breaker/breaker.go:83-139 | with any interleaved Resets, when all calls have returned the slot is taken if and only if the call that last won it, neither released nor reset since, left through the guard |
| BreakerProbe.LossNeedsLateSuccess | backend/breaker/breaker.go:94-128 | in every interleaving without Reset, whenever the guard fires for a probe some other call has stored "closed" after a success since that probe stored "half-open" |
| BreakerProbe.LostSlotStaysOpen | backend/breaker/breaker.go:85-98 | an open breaker at rest with its slot taken never lets a later call reach the function without a Reset, in any interleaving |
| BreakerProbe.SlotCanBeLost | backend/breaker/breaker.go:101-128 | a concrete run, without Reset and with clock readings in order, after which all calls have returned, the breaker is open and the slot is taken |
| BreakerProbe.SoloCallIsExecute | backend/breaker/breaker.go:83-132 | a call that no other overlaps, run step by step, does exactly what the sequential breaker does |
| BreakerProbe.SoloResetIsReset | backend/breaker/breaker.go:134-139 | a reset that nothing overlaps, run step by step, does exactly what the sequential one does |
| Hub.WSHub.Register | backend/api/ws.go:59-63 | adds the client and nothing else |
| Hub.WSHub.Connect | backend/api/ws.go:159-166 | a new client with an empty channel, registered |
| Hub.WSHub.Unregister | backend/api/ws.go:65-72 | removes a registered client and closes its channel, once |
| Hub.WSHub.Broadcast | backend/api/ws.go:74-94 | ranging over the clients in any order, each registered client gets the message if it has room and is closed and removed if not |
| Hub.WSHub.Receive | backend/api/ws.go:117-134 | hands out the oldest queued message, if any, and removes it |
| Hub.NeverPanics | backend/api/ws.go:59-94 | in every interleaving no channel is closed twice or sent to once closed, a channel is open exactly while its client is registered, and no queue exceeds 256 |
| Hub.StepDelivers | backend/api/ws.go:86-93 | one event puts a message into a client's channel exactly if it is a broadcast and the client is registered with fewer than 256 waiting, and takes one out exactly if it is a receive that hands it out; a client loses its registration exactly by unregistering or by a broadcast with 256 waiting |
| Hub.DeliversContiguousRun | backend/api/ws.go:59-142 | in every interleaving, what a client's receives handed out followed by its queue is exactly the broadcasts from its registration until the event that removed it, or until now if none has: nothing skipped, repeated or missing at either end; it is registered exactly while it has joined and not left |
| Sessions.TokenIdRoundTrip | backend/auth/auth.go:88-95 | the id is recovered from the token handed out, whatever the user's id |
| Sessions.TokenIdIff | backend/auth/auth.go:88-95 | the id is what stands before the first dot, and there is none without a dot |
| Sessions.Database.StoreRefreshToken | backend/auth/auth.go:79-86 | inserts an unrevoked row for seven days, unless the statement fails or the hash exists |
| Sessions.Database.ValidateRefreshToken | backend/auth/auth.go:88-116 | the user of an unrevoked, unexpired row of an active user, or nothing |
| Sessions.Database.RevokeAllRefreshTokens | backend/auth/auth.go:118-121 | revokes exactly the user's rows |
| Sessions.Database.RevokeRefreshTokenByValue | backend/auth/auth.go:123-134 | revokes exactly the presented token's row |
| Sessions.Database.LoginHandler | backend/auth/auth.go:136-201 | table and answer after a login, with every failure path |
| Sessions.Database.RefreshTokenHandler | backend/auth/auth.go:247-297 | table and answer after a refresh, with every failure path |
| Sessions.Database.LogoutHandler | backend/auth/auth.go:321-330 | table after a logout |
| Sessions.Database.ChangePasswordHandler | backend/auth/auth.go:359-390 | table and answer after a password change, with every failure path from the lookup on |
| Sessions.LoginOutcomes | backend/auth/auth.go:136-201 | a token is issued, and then works for that user, exactly if the user is active, the password right and no statement fails; an unknown user or wrong password is denied; any other answer leaves the table alone |
| Sessions.RefreshConserves | backend/auth/auth.go:269-282 | a 200 whose revocation works leaves every user with as many unrevoked tokens as before |
| Sessions.RefreshOutcomes | backend/auth/auth.go:255-284 | a refresh issues a token exactly if the presented one works and no statement fails; after a 200 the presented token works exactly if its revocation failed, and the new one works for the same user; a 500 or 401 changes nothing, and after a 500 the presented token still works |
| Sessions.LogoutOutcomes | backend/auth/auth.go:321-330 | a logout always succeeds and ends exactly its user's tokens, if the revocation works |
| Sessions.PasswordChangeOutcomes | backend/auth/auth.go:359-390 | denied exactly for a wrong current password, done exactly if nothing before the revocation fails; then exactly the user's tokens end if the revocation works, and otherwise none does |
| Sessions.RevokeSessionOutcomes | backend/api/sessions.go:80-103 | denied exactly for an unknown session, and ends exactly that token |
| Sessions.IssuedTokenLasts | backend/auth/auth.go:79-134 | whatever happens after a token was issued by login or refresh, it works for its user exactly if seven days are not over, the user was last switched active, and since then no revoking refresh of it, revocation of its session, logout or password change took place |
| Sessions.RefreshLeavesOthers | backend/auth/auth.go:247-297 | exchanging one token does not change what any other token is worth |
| Sessions.ExchangedAtMostOnce | backend/auth/auth.go:247-297 | in every run, once an exchange has revoked a token id it is never exchanged again |
| Sessions.DescendsFromLogin | backend/auth/auth.go:136-297 | in every run from an empty table, every token, however many refreshes later, descends from a login of its own user, active at that moment, with the right password |
| Sessions.WorksOnlyFromLaterLogin | backend/auth/auth.go:318-390 | after a logout or password change, every token of the user that ever works again descends, through any number of refreshes, from a later login of that user with the right password |
| AccessTokens.TokenBlacklist.Add | backend/cache/blacklist.go:27-31 | lists the token id with the time |
| AccessTokens.TokenBlacklist.IsBlacklisted | backend/cache/blacklist.go:33-38 | whether the id is listed |
| AccessTokens.TokenBlacklist.Cleanup | backend/cache/blacklist.go:57-64 | keeps exactly the entries no older than 24 hours |
| AccessTokens.TokenBlacklist.Logout | backend/auth/auth.go:313-316 | lists the token exactly if it still verifies |
| AccessTokens.TokenBlacklist.ValidateAccessToken | backend/auth/tokens.go:291-312 | the user of an access token that verifies and is not blacklisted, or nothing |
| AccessTokens.PurgeKeepsRecent | backend/cache/blacklist.go:51-66 | after a purge at any moment of any run, the blacklist holds exactly the ids last logged out in the 24 hours before |
| AccessTokens.AcceptedIff | backend/auth/tokens.go:257-312 | for every schedule of logouts and purges, any token good for at most a day is accepted exactly if it decodes, is complete, of the access kind, unexpired and never logged out, as the user it names |
| AccessTokens.AcceptedIffNotLoggedOut | backend/auth/tokens.go:257-312 | for every schedule of logouts and purges, a minted access token is accepted exactly until its 15 minutes, in whole seconds, are over or it has been logged out: never again after that |
| RateLimiter.KeyIdentifiesClient | backend/middleware/ratelimit.go:70-75 | two requests share a counter exactly if they come from one user, or anonymously from one address |
| RateLimiter.StarMatchesPrefix | backend/middleware/ratelimit.go:60-68 | a final star matches exactly the paths that begin with what precedes it; any other pattern matches only itself |
| RateLimiter.RateLimiter.GetRule | backend/middleware/ratelimit.go:51-68 | the first matching rule, or the fallback if none matches |
| RateLimiter.RateLimiter.Allow | backend/middleware/ratelimit.go:77-102 | visitors and answer after a request are those of the decision function |
| RateLimiter.RateLimiter.Cleanup | backend/middleware/ratelimit.go:108-115 | forgets exactly the visitors whose window started more than the fallback window ago |
| RateLimiter.CleanupIsUnobservable | backend/middleware/ratelimit.go:91-117 | if no reachable rule's window exceeds the fallback's, cleanups at arbitrary moments change no answer of any run |
| RateLimiter.CleanupIsObservable | backend/middleware/ratelimit.go:91-117 | otherwise there is a run in which a cleanup changes an answer |
| RateLimiter.ThroughputIsBounded | backend/middleware/ratelimit.go:77-117 | with one window W, any interval of length T lets through at most `limit * (T / W + 2)` requests of a client, whatever other clients and cleanups do |
| RateLimiter.RefusedOnlyAfterAllowed | backend/middleware/ratelimit.go:87-101 | a request is refused only if the same client got one through less than a window before, so an active client is never locked out |
| RateLimiter.NthRequestOfWindow | backend/middleware/ratelimit.go:87-101 | whatever other clients do, the n-th request of a client in a window is let through exactly if it is the first or n is within the rule's limit, and is told that limit and what is left of it |
| RateLimiter.RemainingIsNatIff | backend/middleware/ratelimit.go:91-101 | the limit reported is the rule's, and the number reported as remaining is never negative if and only if that limit is positive |
| RateLimiter.RemainingIsExact | backend/middleware/ratelimit.go:96-101 | whatever requests of any clients follow, as long as this client's use the same rule and fall within the window, its next one is let through exactly if fewer of its requests than the reported number came in between |
| Csrf.CsrfStore.SetToken | backend/middleware/csrf.go:38-47 | stores the digest with an expiry a day ahead |
| Csrf.CsrfStore.ValidateToken | backend/middleware/csrf.go:49-66 | true exactly for a live token, which is consumed either way |
| Csrf.AcceptsIffOutstanding | backend/middleware/csrf.go:38-123 | for every schedule of purges, a token is accepted exactly if the last thing that happened to it is that it was issued, at most a day ago |
| Csrf.PurgesAreUnobservable | backend/middleware/csrf.go:109-123 | no validation differs from the same run without purges |
| Csrf.SingleUse | backend/middleware/csrf.go:55-65 | for every schedule of purges, the store does not accept a submitted token again unless it is issued again |
| ExpiringStore.PurgeExpired | backend/cache/cache.go:92-99 | ranging in any order, deletes exactly the expired entries |
| ExpiringStore.HeldIff | backend/cache/cache.go:29-101 | the map holds a key exactly if it was put, not dropped since, and no purge since found it expired, and then with the last item put |
| ExpiringStore.LiveIsLastPut | backend/cache/cache.go:29-101 | for every schedule of purges a reader finds exactly the last item put and not dropped, while it has not expired |
| TtlCache.Cache.Read | backend/cache/cache.go:29-47 | found, expired or not found |
| TtlCache.Cache.Set | backend/cache/cache.go:49-57 | stores the value with the default lifetime |
| TtlCache.Cache.SetTTL | backend/cache/cache.go:59-67 | stores the value with its own lifetime |
| TtlCache.Cache.Delete | backend/cache/cache.go:69-73 | removes exactly that key |
| TtlCache.Cache.Clear | backend/cache/cache.go:75-79 | removes everything |
| TtlCache.ReadIsExact | backend/cache/cache.go:29-101 | for every run and clock, which of found, expired and not found a read answers, from the key's last write and the cleanups since |
| TtlCache.ReadIsLastWrite | backend/cache/cache.go:29-101 | for every schedule of cleanups a read succeeds exactly if the key's last write has not expired, with its value |
| TtlCache.CleanupsOnlyForgetExpired | backend/cache/cache.go:86-101 | against the same run without cleanups every read is the same, or answers "not found" where it would have answered "expired" |
| Alerts.AlertTable.CreateAlert | backend/alerts/engine.go:38-68 | a call on its own is its query and its insert: a row is inserted unless the query finds a duplicate or the insert fails; a failed query does not stop it |
| Alerts.AlertTable.Acknowledge | backend/api/alerts.go:78-87 | acknowledges exactly that row, if it exists |
| Alerts.AlertTable.PurgeOld | backend/retention/retention.go:61-93 | deletes exactly the rows older than that many days, if the number is positive |
| Alerts.AlertTable.CheckDevices | backend/alerts/engine.go:136-148 | a monitor pass is one CreateAlert for each row that names a device, in order, each of its statements working or failing |
| Alerts.PassAsksEach | backend/alerts/engine.go:136-148 | a pass asks about each named device, row by row in order, with an insert for each query |
| Alerts.CallCreatesIff | backend/alerts/engine.go:38-57 | whatever happens between its query and its insert, a call adds exactly its own row if the insert works, unless its query worked and found an unacknowledged alert of that device and kind from the last 24 hours |
| Alerts.KeptUntilOutlived | backend/retention/retention.go:49-93 | in every run a row is deleted exactly by a retention run whose number of days it has outlived, and until then is unchanged but for being acknowledged by its own acknowledgement |
| Alerts.InsertKeepsSpacingIff | backend/alerts/engine.go:40-57 | an insert keeps the spacing exactly if there is no unacknowledged alert of its device and kind less than a day old |
| Alerts.AlwaysSpacedIff | backend/alerts/engine.go:38-57 | however calls overlap and queries fail, any two unacknowledged alerts of one device and kind are 24 hours apart throughout a run if and only if no insert in it comes less than a day after such an alert |
| Alerts.SpacingHolds | backend/alerts/engine.go:38-68 | if dedup queries work and no two calls for one device and kind overlap, its unacknowledged alerts are at least 24 hours apart throughout every run, whatever other calls, acknowledgements and retention fall between a query and its insert |
| Alerts.OverlapBreaksSpacing | backend/alerts/engine.go:38-57 | two overlapping calls for any device and kind can both insert although their queries work |
| Alerts.AlertsAreBounded | backend/alerts/engine.go:38-68 | under the same conditions and without acknowledgement at most `T / 24h + 1` alerts of one device and kind are created in time T, whatever retention deletes |
| Alerts.RetentionIsUnobservable | backend/retention/retention.go:61-93 | retention, for any number of days and between any two statements, never changes whether a query stops its call or an insert adds a row |
| Risk.CalculateRiskScore | backend/risk/scorer.go:31-67 | the smaller of 10 and the sum of the points of all factors |
| Risk.ScoreBreakdown | backend/risk/scorer.go:84-129 | holds exactly the factors worth more than zero, with their points |
| Risk.ScoreIsCappedBreakdown | backend/risk/scorer.go:31-129 | the breakdown adds up to the uncapped score if and only if no count is negative, and then the score is the smaller of 10 and that sum |
| Risk.ScoreIsDocumented | README.md:207-226 | the score is the documented table's sum plus the points for the age of the last scan, capped at 10, with the severity of the documented ranges; it equals the documented score exactly if that age is zero days or hidden by the cap |
| Risk.BuildRiskFactors | backend/risk/scorer.go:143-184 | a flag is set exactly if some open row's title mentions its keyword, and the counts are those of the open rows |
| Risk.FlagsFollowTitles | backend/risk/scorer.go:143-176 | each flag is set exactly if its words occur somewhere in some open row's title, in lower case |
| Risk.CountsFollowRows | backend/risk/scorer.go:178-184 | the counts are the numbers of open rows with a CVE and with a KEV match |
| Risk.OpenCounts | backend/risk/scorer.go:135-184 | the rows that the queries select are the unresolved ones, each as often as it occurs |
| Risk.RowOrderIsIrrelevant | backend/risk/scorer.go:143-184 | the factors do not depend on the order of the rows |
| Risk.MoreOpenRowsScoreHigher | backend/risk/scorer.go:31-184 | a device with at least another's open rows, in any order, scores at least as high and is at least as severe |
| Risk.AddingAndResolving | backend/risk/scorer.go:31-184 | adding a vulnerability anywhere never lowers the score, resolving it never raises it, and resolving undoes adding |
| Entropy.PermutationInvariant | firmware-analyzer/entropy.py:12-22 | permuting the bytes does not change the entropy |
| Entropy.RepetitionInvariant | firmware-analyzer/entropy.py:12-22 | repeating the whole string any number of times does not change the entropy |
| Entropy.EntropyIsBounded | firmware-analyzer/entropy.py:12-22 | for every byte string the entropy lies between 0 and 8, as the analyzer's report demands |
| Entropy.UniformAttainsBound | firmware-analyzer/entropy.py:12-22 | the bound 8 is attained when every byte value is equally frequent |
| Entropy.EightIffUniform | firmware-analyzer/entropy.py:12-22 | the entropy is 8 if and only if the string is not empty and all 256 byte values are equally frequent, for a logarithm strictly below its tangent |
| Entropy.EvenEntropy | firmware-analyzer/entropy.py:12-22 | the entropy of a string of m equally frequent values is `log2(m)` |
| Entropy.ZeroIffConstant | firmware-analyzer/entropy.py:12-22 | the entropy is zero if and only if all bytes are equal |
| WorkerPool.BatchIsCorrect | backend/scanner/nmap.go:343-362 | in every interleaving the channel's length is the number of scans holding a slot, at most 20, and only sane addresses get one; when the wait returns the batch holds none and result i is address i with its scan, or the refusal if it is not sane |
| WorkerPool.StepsMakeProgress | backend/scanner/nmap.go:343-362 | every step of the batch that changes anything decreases the work left |
| WorkerPool.BatchStepsAreBounded | backend/scanner/nmap.go:343-362 | in every interleaving, at most seven effective steps of the batch for each address, less the work that is left |
| WorkerPool.BlockedIffFull | backend/scanner/nmap.go:187-193 | a goroutine is held up exactly while it waits for a slot and all 20 are held |
| WorkerPool.NeverDeadlocks | backend/scanner/nmap.go:187-246 | until the wait returns some step can be taken |
| Kev.KEVCatalog.constructor | backend/kev/updater.go:133-146 | starts with the loaded catalog, or an empty one |
| Kev.KEVCatalog.BuildIndex | backend/kev/updater.go:103-112 | the loop builds the index, later entries replacing earlier ones |
| Kev.KEVCatalog.Refresh | backend/kev/updater.go:148-170 | a successful refresh swaps entries, count and index together; a failed one changes nothing |
| Kev.LookupIsLinearScan | backend/kev/updater.go:114-131 | after any number of refreshes, a lookup agrees with a case-insensitive scan of the last catalog loaded, finds its last match, and the count is its length |

## Left out

- Closed and failure-count invariants of the breaker under overlapping calls: counter and state are updated in separate steps, so they hold of calls one after another only.
- Exclusive use of the dependency while half-open: a call that loads "half-open" skips the check at the top, so only ownership of the slot is at stake.
- Panics inside the protected function, and overflow of the 32-bit failure counter: counters are unbounded integers.
- Overlapping session handlers, among them overlapping refreshes of one token: check and write are separate statements there, and the handlers are modelled one at a time.
- Aliasing of WebSocket clients: a client is a number and its channel an entry of a map; re-registering a closed client is not modelled, as only the connection handler registers clients, each once.
- Concurrent access to the breaker's callback, the cache, the CSRF store and the limiter: their mutexes make each operation one step.
- SHA-256, RSA, base64, JSON, bcrypt and random numbers: parameters, with distinct digests assumed where a statement says so.
- The password-rotation gate, roles and permissions, and the audit and sanitizing middleware.
- Floating-point rounding of the entropy and the risk score, and the verdict thresholds of the analyzer.
- Errors of the individual count queries in the risk factors, which leave a count at zero, and the firmware and scan-age queries, whose results are parameters.
- The address and CIDR checks, nmap and its XML, protocol, TLS and credential probes, packet capture.
- The webhook dispatch that follows an alert, and retention of tables other than alerts.
- EPSS data, the download of the catalog, and pointers into a replaced catalog that a reader may still hold.
- The frontend, binwalk and NVD lookups, configuration, health probes, metrics and deployment files.
