# easy-docker-proxy: a Dafny model

A pull-through proxy for Docker registries keeps its state in a handful of small components: an asynchronous
event queue, an event store with running totals, a token-bucket limiter, the routing tables with their reload
protocol, a cache of upstream tokens, and two kinds of accounts. This project models these components branch by
branch and proves what they promise, for every interleaving, every run, or every input.

`dafny verify dfyconfig.toml` checks the whole project.

| files | component |
|---|---|
| `QueueProtocol`, `QueueGuarantees`, `Queue` | the queue as interleaved steps of any number of goroutines, what every interleaving keeps, and the queue as an object |
| `Tables`, `Retention`, `Store`, `Pipeline` | the event log and its two running totals, retention, the store as an object, and queue and store together |
| `Stats` | the dashboard queries over the totals |
| `RateLimit` | the per-key token bucket and the cleanup of idle buckets |
| `Paths`, `Routes`, `Reload` | the path grammar and its rewrite, configuration checks and route tables, and the reload protocol |
| `ForwardedFor` | the address a request is attributed to |
| `TokenCache`, `Challenge` | upstream tokens, the retry after a 401, and the `WWW-Authenticate` parser |
| `Credentials`, `PullAuth`, `PullStaleness`, `Sessions`, `SessionRaces` | pull accounts with their credential cache, console accounts with sessions, and what interleaved calls on either can do |
| `Common`, `Parts`, `Record` | sequences, ASCII strings, splitting and joining, and the event record |

How to read it. A component whose code changes fields under a lock appears twice: as functions on values, over
which the theorems are stated, and as a class whose methods have the fields and loops of the code and whose
`ensures` give the new state as those functions of the old one. Goroutines are modelled by cutting a function at
the points where another one can get in (lock boundaries, channel operations, database statements) and letting
the steps of all callers interleave freely; `PullAuth` alone runs whole calls one after another, and
`PullStaleness` cuts them up. Clock readings, answers of the sink, of the database and of
upstream servers, and freshly drawn session tokens are inputs, so every theorem holds for all of them.

## Findings

The model follows the code. Where the code does less than its comments or neighbouring code suggest, the project
proves the exact condition and a run that shows the gap.

- `Close` is documented to drain the channel (`internal/record/queue.go:128-129`). When it has returned, every
  accepted event is in a counter if and only if a worker ran or nothing was ever enqueued
  (`QueueGuarantees.CloseAccountsExactly`); after Emit and Close without Start it is not
  (`QueueGuarantees.CloseWithoutStartLosesEvents`).
- `Allow` reads the clock before it takes the lock (`internal/ratelimit/ratelimit.go:56-57`), so readings can arrive
  out of order. If they lag the latest one by at most L seconds, idle-bucket cleanup is invisible if and only if the
  burst is at most (600 - 2 L) times the rate: 600 times the rate for a clock that never goes back, never from L = 300
  on (`RateLimit.CleanupInvisibleExactly`).
- Over all runs from an empty store, wherever purges stop, every row still in the log is counted in both
  aggregates if and only if events are kept no longer than aggregates (`Retention.RetentionOrderIsExact`). Nothing
  checks the two settings against each other; with the other order one batch and two statements lose a row
  (`Retention.LosingRunLoses`). For one purge, batches that slip between its statements must bring nothing below
  the floor of the statements after them, and that too is exact (`Retention.PurgeKeepsCounted`).
- A purge that fails at its third statement leaves the two aggregates in agreement if and only if the days it
  deleted from `stats_daily` showed no pulls and no bytes (`Retention.PartialPurgeAgreesExactly`); the next complete
  purge repairs it (`Retention.FullPurgeRealigns`).
- `Validate` and `buildRoutes` both normalize prefixes, and doing it twice is doing it once if and only if the first
  result has no white space at its ends (`Routes.NormalizeTwice`, `Routes.ValidatedIsStable`); `/ x /` and `x` pass
  `Validate` and become the same route (`Routes.RenormalizedDuplicate`).
- A repository that is exactly the prefix, or the prefix and a slash, has no reading after the rewrite
  (`Paths.RewriteCommutes`).
- With no `Reload` pending, `clientGeneration` equals `generation` if and only if the `Reload` that began last also
  finished last (`Reload.LagIsExact`); two that overlap and finish the other way round leave it behind
  (`Reload.OverlapLagsBehind`). Until the next `Reload` finishes, the emptied client cache stays empty if and only if
  no getClient serves a request that was routed by `clientGeneration` (`Reload.CacheStaysEmptyExactly`); it never
  hands out a wrong client (`Reload.ClientSafety`).
- Keys of the token cache are joined with `|`, and nothing keeps it out of names and scopes. Reading everything as
  segments between pipes, `InvalidateScope` removes an entry of `items` if and only if the registry is a proper
  beginning and the scope a proper end of its key (`TokenCache.DropsExactly`). Hence it can remove an entry of `items`
  and keep the one of `last` stored with it, or the reverse, each exactly under a condition on the segments
  (`TokenCache.UncouplesExactly`), by a pipe in the entry (`TokenCache.PipedScopeUncouples`) or in the call
  (`TokenCache.PipedCallUncouples`, `TokenCache.PipedNameUncouples`). A token with a lifetime of one second is never
  served from the cache (`TokenCache.OneSecondIsNeverServed`).
- Credentials that the table refuses get in if and only if the cache still holds them or a login that verified them
  before is on its way to the cache (`PullStaleness.RevokedGetsInExactly`). Disabling an account wipes the cache and
  does not stop such a login (`PullStaleness.LateFillOutlivesDisable`); it opens the door for less than 30 s after
  its fill (`PullStaleness.StaleBound`).
- After `SetPassword` has changed the hash and wiped the sessions, an old password opens a session of that user if
  and only if a login that matched it before has not inserted its session yet (`SessionRaces.OldPasswordOpensExactly`,
  `SessionRaces.ChangeLeavesWaiting`). A deleted user gets none (`SessionRaces.DeletedStaysOut`).
- `SetPassword` ignores an error when it deletes the user's sessions and reports success; those sessions live on
  (`Sessions.UnwipedSessionsSurvive`).

## Model

| member | source | states |
|---|---|---|
| QueueProtocol.StepKeeps | internal/record/queue.go:77-192 | every step of every goroutine (lock, Once, select, receive, tick, write attempt, count) keeps the full invariant: lock and Once owners, at most one worker, batch sizes, order, counters, no panic |
| QueueProtocol.RunKeeps | internal/record/queue.go:77-192 | the invariant holds after any interleaving |
| QueueGuarantees.Conservation | internal/record/queue.go:93-192 | in every interleaving: settled batches, batch in flight, pending batch and channel spell the enqueued events in order; every Emit that saw the queue open is written, dropped or in a later stage; no batch is empty or over batchN; a batch is given up only after its last attempt |
| QueueGuarantees.CountersMeanBatches | internal/record/queue.go:149-175 | `written` is the number of events the sink took, up to one batch not yet added; without a sink nothing is taken |
| QueueGuarantees.NeverPanics | internal/record/queue.go:77-145 | no interleaving sends on a closed channel, closes it twice or makes the WaitGroup negative |
| QueueGuarantees.LockIsShort | internal/record/queue.go:81-110 | emitMu is released within two actions of its holder, so Emit never waits for the sink |
| QueueGuarantees.ClosedRun | internal/record/queue.go:81-101 | once closed: nothing more is accepted, no worker starts, and after Close returned nothing changes at all |
| QueueGuarantees.NothingAcceptedLater | internal/record/queue.go:92-101 | whatever follows the moment of closing accepts nothing |
| QueueGuarantees.Shutdown | internal/record/queue.go:128-141 | when Close has returned: with a worker, channel and batch are empty and written + dropped is every accepted Emit; without one nothing was written and the channel's events are in no counter; later calls change nothing |
| QueueGuarantees.CloseAccountsExactly | internal/record/queue.go:128-141 | when Close has returned, written + dropped is every accepted event if and only if a worker ran or nothing was ever enqueued |
| QueueGuarantees.CloseDrainsAfterStart | internal/record/queue.go:128-141 | if a worker was started at any point before Close returned, every accepted event is in a counter |
| QueueGuarantees.CloseWithoutStartLosesEvents | internal/record/queue.go:128-141 | for any event, a run of Emit and Close without Start that leaves written + dropped below the accepted count |
| QueueGuarantees.DrainBound | internal/record/queue.go:161-191 | after closing the worker makes at most channel length + 1 receives and a bounded number of actions in all, maxAttempts writes per flush included |
| QueueGuarantees.WorkerNotStuck | internal/record/queue.go:143-192 | after closing, a live worker always has an effective action, whatever the sink answers |
| QueueGuarantees.CloseFinishes | internal/record/queue.go:134-141 | a Close that waits can return after at most that many worker actions |
| QueueGuarantees.EmitAlone | internal/record/queue.go:93-110 | an uninterrupted Emit is one enqueue, one counted drop, or nothing after Close |
| QueueGuarantees.StartAlone | internal/record/queue.go:77-90 | an uninterrupted Start spawns one worker the first time and never on a closed queue |
| QueueGuarantees.CloseAlone | internal/record/queue.go:134-138 | an uninterrupted Close up to its wait closes the channel and touches nothing in it |
| QueueGuarantees.SecondClose | internal/record/queue.go:129-141 | a second Close returns at once and changes nothing |
| Queue.Queue.constructor | internal/record/queue.go:50-74 | defaults for every non-positive option; a new queue is in the protocol's initial state |
| Queue.Queue.Start | internal/record/queue.go:77-90 | takes exactly the protocol's Start steps; one worker, once, only while open |
| Queue.Queue.Emit | internal/record/queue.go:93-110 | takes exactly the protocol's Emit steps: appended with its time stamp, or counted as dropped on a full channel, or ignored after Close |
| Queue.Queue.Flush | internal/record/queue.go:149-175 | the batch is emptied into exactly one counter; without a sink it is dropped without a call |
| Queue.Queue.Deliver | internal/record/queue.go:161-174 | between one and maxAttempts sink calls, all but the last refused, and the last decides between written and dropped |
| Queue.Queue.Receive | internal/record/queue.go:177-188 | takes the head of the channel into the batch, moves a full batch into the counters, or moves the last one there and exits when the channel is closed and empty |
| Queue.Queue.Tick | internal/record/queue.go:188-190 | flushes: the pending batch is moved into the counters |
| Queue.Queue.Drain | internal/record/queue.go:177-192 | the worker's loop on a closed channel ends with channel and batch empty and every event of both counted |
| Queue.Queue.Close | internal/record/queue.go:130-141 | nothing more is accepted; a running worker ends with everything accounted for; without one channel, batch and counters stay as they were |
| Record.PullsAreNotErrors | internal/record/event.go:39-56 | an event is never both a pull and an error |
| Tables.InsertKeepsViews | internal/store/store.go:236-277 | inserting a row and upserting both totals keeps each of them equal to the GROUP BY of the rows it has counted |
| Tables.DeleteKeepsViews | internal/store/store.go:296-306 | deleting days below a floor turns the totals into the GROUP BY of the remaining days |
| Tables.WriteAppends | internal/store/store.go:235-259 | the k-th event of a batch becomes the k-th new row, with the next rowid and the event's own time, or the clock's when it has none; every column holds its own field of the event, except that an empty repository reads `-` and an empty client `unknown` |
| Tables.WhatCounts | internal/store/store.go:261-270 | what an event adds to the aggregates: its bytes; one pull for a manifest GET with a 2xx status; one error for a manifest request that failed |
| Retention.NewConfig | internal/store/store.go:72-80 | both retention periods are positive whatever the settings |
| Retention.AggregatesAreViews | internal/store/store.go:193-308 | in every interleaving of batches and single DELETE statements both aggregates are the GROUP BY of the rows they count |
| Retention.RecentDaysMatchLog | internal/store/store.go:193-308 | for days starting at or after every event cutoff used so far both aggregates equal the GROUP BY of pull_events, keys and sums |
| Retention.TimelyIsExact | internal/store/store.go:290-306 | a statement keeps every log row counted in both aggregates if and only if it deletes no day that still has log rows |
| Retention.PurgeKeepsCounted | internal/store/store.go:282-308 | with event retention at most aggregate retention, a purge of a counted store stopped after any of its statements leaves every log row counted if and only if no batch that slipped in before a DELETE on an aggregate brought an event below that DELETE's floor |
| Retention.RetentionOrderIsExact | internal/store/store.go:193-308 | over all runs of batches and purges from an empty store, stopped anywhere and with such batches in between: every log row is always counted in both aggregates if and only if events are kept no longer than aggregates |
| Retention.LosingRunLoses | internal/store/store.go:286-296 | with events kept longer, for any event, a batch and two statements leave a log row that stats_daily does not count |
| Retention.DashboardAlwaysCoversLog | internal/store/store.go:193-308 | on all these runs, with no event of negative size, no sum over stats_daily is below the same sum over the log |
| Retention.DashboardCoversLog | internal/store/store.go:193-308 | the same for any state whose log rows are all counted |
| Retention.AggregatesAgreeAboveFloors | internal/store/store.go:271-276 | wherever purges stopped, pulls and bytes of the two aggregates agree on every day not below a floor used so far |
| Retention.CompletedCallsAgree | internal/store/store.go:193-308 | after any sequence of completed WriteBatch and PurgeExpired calls, at any clock, they agree on every day |
| Retention.FullPurgeRealigns | internal/store/store.go:282-308 | a complete purge with no lower floor repairs the disagreement of earlier partial ones |
| Retention.DailyDeleteAgreesExactly | internal/store/store.go:296-299 | from agreement, deleting old days of stats_daily alone keeps the aggregates in agreement if and only if no deleted day showed pulls or bytes |
| Retention.PartialPurgeAgreesExactly | internal/store/store.go:290-304 | the same for a purge that fails at its third statement after any completed calls |
| Retention.PartialPurgeDisagrees | internal/store/store.go:290-304 | for one event older than the floor, of any kind: they agree afterwards if and only if it was no pull and moved no bytes |
| Store.Store.WriteBatch | internal/store/store.go:193-279 | with a failure at any statement or at the commit the tables are as before; otherwise one new row per event in order, column by column, and both aggregates upserted |
| Store.InsertEvent | internal/store/store.go:236-277 | one turn of the loop: the row and its two upserts |
| Store.Store.PurgeExpired | internal/store/store.go:282-308 | the three statements in order up to the first failure: rows older than the retention in seconds, and aggregate days before the day reached by the retention in days, are gone and no others; the three row counts |
| Pipeline.EachEventOnce | internal/record/queue.go:149-175 | queue and store together, for any interleaving and any failures: rowids 1, 2, ... go to the events the sink took, each once and in order, with every column its own field of the event; `written` counts exactly these; log and aggregates hold nothing else |
| Pipeline.RecentTablesAreTaken | internal/store/store.go:193-308 | with retention running, from the largest event cutoff used on the log is exactly the taken rows, and from the largest floor used on the aggregates are exactly their GROUP BY |
| Pipeline.TablesAreFoldOfTaken | internal/store/store.go:193-279 | without retention the log is exactly these rows and the aggregates exactly their GROUP BY |
| Pipeline.NothingLostUncounted | internal/record/queue.go:128-141 | after a Close that followed a Start, rows inserted + dropped is every accepted event |
| Pipeline.QueueStamps | internal/record/queue.go:102-104 | every event that reaches the store carries a time, so the store's own clock is never used for it |
| Pipeline.SunkInOrder | internal/record/queue.go:161-174 | what the sink took is a subsequence of what was enqueued, in order |
| Stats.RangeCoversDays | internal/store/stats.go:83-99 | an accepted range ends today, has between 1 and 366 days and covers exactly that many |
| Stats.RangeRoundTrip | internal/store/stats.go:83-99 | the text of n days is accepted and read as n if and only if 1 <= n <= 366 |
| Stats.RangeReads | internal/store/stats.go:83-99 | white space around, a plus sign, leading zeros and either case of the d change nothing: n days are read if and only if 1 <= n <= 366 |
| Stats.RangeForm | internal/store/stats.go:83-99 | and nothing else is accepted: what is not blank is an optional sign, digits and a d |
| Stats.RangeDefault | internal/store/stats.go:84-87 | blank text means the last seven days |
| Stats.PartsAddUp | internal/store/stats.go:153-158 | if the parts put every row of the whole in exactly one part, their sums add up to the whole's |
| Stats.RegistryShares | internal/store/stats.go:160-199 | each registry's sums, error rate and fractions of sumDaily; the pull shares of a range with pulls sum to 1 |
| Stats.ShareMeans | internal/store/stats.go:176-194 | times its total, each fraction of a registry is that registry's own pulls, bytes or errors; it is 0 where the total is not positive |
| Stats.FillDays | internal/store/stats.go:225-249 | one point per day of the range in order, each with that day's sums, 0 for days without rows |
| Stats.Timeseries | internal/store/stats.go:203-249 | an error exactly on a bad range, else n consecutive days ending today whose sums add up to the range's |
| Stats.ImageAnalytics | internal/store/images.go:181-215 | the same for one image |
| Stats.SeriesAddsUp | internal/store/stats.go:228-249 | a series that shows each day of a range adds up to the range's sum |
| Stats.ImagesAddUp | internal/store/images.go:181-215 | per-image totals over all images of a range add up to sumDaily |
| Stats.ErrorRateIsFraction | internal/store/stats.go:176-179 | the error rate is between 0 and 1 and is 0 exactly when no manifest request failed |
| Stats.SqlPullIsExact | internal/store/images.go:73-74 | the image list's pull condition agrees with IsPull except on pulls whose method is padded with white space, which only rows written by other means than the proxy can have |
| Stats.ListImagesMatchesLog | internal/store/images.go:69-90 | for unpadded methods the image list counts the pulls that stats_daily counts for the same rows |
| RateLimit.RateBound | internal/ratelimit/ratelimit.go:56-76 | from call i through an admitted call j on one key at most burst + rps * (t_j - t_i) calls are admitted, for clock values in any order |
| RateLimit.RefusedExactly | internal/ratelimit/ratelimit.go:56-76 | refusals are exact, for clock values in any order: call j on one key is refused if and only if, for some i <= j, the calls admitted from i on and this one exceed burst + rps * (t_j - t_i) |
| RateLimit.PotentialPaysForAdmissions | internal/ratelimit/ratelimit.go:66-75 | tokens - rps * last never increases and each admission takes one off it |
| RateLimit.SpacedCallsAdmitted | internal/ratelimit/ratelimit.go:66-76 | a key left alone for 1/rps seconds is served again |
| RateLimit.BurstIsServed | internal/ratelimit/ratelimit.go:66-76 | as many calls at one instant as there are whole tokens are admitted, at one token each |
| RateLimit.KeysAreIsolated | internal/ratelimit/ratelimit.go:60-76 | what a key is answered depends on its own calls only |
| RateLimit.CleanupInvisibleExactly | internal/ratelimit/ratelimit.go:56-122 | for readings that lag the latest one by at most L, in any order within that, the cleanup changes no answer on any run over any keys if and only if burst <= (600 - 2 L) * rps |
| RateLimit.LimiterIsolatesKeys | internal/ratelimit/ratelimit.go:49-77 | under this condition, and for readings with that lag, the limiter with its cleanup answers each key as a bucket of its own would |
| RateLimit.ShippedRateBound | internal/ratelimit/ratelimit.go:49-77 | and so the rate bound holds of every key of that limiter, whatever other keys do and with readings out of order by up to that lag |
| RateLimit.ShippedRefusedExactly | internal/ratelimit/ratelimit.go:49-77 | and the same exact refusals hold of every key of that limiter |
| RateLimit.Limiter.constructor | internal/ratelimit/ratelimit.go:29-45 | defaults for non-positive rate and burst, no buckets |
| RateLimit.Limiter.Allow | internal/ratelimit/ratelimit.go:49-77 | the answer and the new buckets are those of the step function; a disabled limiter admits and changes nothing |
| RateLimit.CleanupIsExact | internal/ratelimit/ratelimit.go:110-122 | a bucket goes if and only if 300 s have passed since the last cleanup and it has not been used for more than 600 s; no other is changed |
| RateLimit.Limiter.MaybeCleanup | internal/ratelimit/ratelimit.go:110-122 | removes exactly the buckets idle for more than 600 s, at most every 300 s |
| RateLimit.Limiter.Update | internal/ratelimit/ratelimit.go:90-108 | new limits with the defaults, and no buckets |
| RateLimit.Limiter.Reset | internal/ratelimit/ratelimit.go:80-87 | no buckets |
| Paths.FindIsExact | internal/proxy/proxy.go:41-44 | a pattern matches exactly the printed forms of its kind and captures what was printed |
| Paths.ReadsExactly | internal/proxy/proxy.go:41-44 | for every path, the reading is manifest, blob, referrers or tags of a repository and reference if and only if the path is `/v2/` + repository + `/manifests/`, `/blobs/`, `/referrers/` + reference or + `/tags/list`, with the repository not empty and on one line and the reference not empty and without a slash |
| Paths.PrintInjective | internal/proxy/proxy.go:41-44 | the four patterns are mutually exclusive and unambiguous: two readings with one printed path are the same |
| Paths.ClassifyIsExact | internal/proxy/proxy.go:726-740 | classifyPath is the inverse of printing, in both directions |
| Paths.ExtractAgreesWithClassify | internal/proxy/proxy.go:918-925 | extractRepo is the repository of classifyPath, in whatever order the patterns are tried |
| Paths.RewriteCommutes | internal/proxy/proxy.go:705-723 | after a match the stripped path reads as the same kind and reference with the prefix off the repository; re-inserting the prefix restores the path; no reading exactly when nothing is left of the repository |
| Paths.StripsAnyCase | internal/proxy/proxy.go:705-723 | the prefix is taken off however it is capitalised in the path, and the rest is kept as written |
| Paths.StripsNothingElse | internal/proxy/proxy.go:705-723 | a path that does not start with the head and the prefix, as a whole segment, is left alone |
| Paths.ScopeMatchesEvent | internal/proxy/proxy.go:569-577 | the token scope and the recorded event name the same repository, or neither names one |
| Routes.NormalizeTwice | internal/config/config.go:311-312 | normalizing again changes nothing if and only if the result has no white space at its ends |
| Routes.NormalizeReads | internal/config/config.go:311-312 | a prefix is what stands between the white space and slashes around it, in lower case |
| Routes.Validate | internal/config/config.go:283-353 | accepts exactly the configurations with non-empty distinct names, non-empty distinct normalized prefixes, sound registries and a default among the names, and normalizes in place |
| Routes.ValidConfigMeans | internal/config/config.go:283-321 | the accepted configurations entry by entry: some registry, each named, sound and reachable by host or prefix; no two of one name; no prefix that normalizes to nothing and no two entries anywhere that normalize alike |
| Routes.ClaimPrefixes | internal/config/config.go:310-321 | accepts one registry's prefixes exactly when they are non-empty, distinct and unowned, and then owns them |
| Routes.FreshSpec | internal/config/config.go:302-321 | the condition on names and prefixes is exactly: no empty string and no two equal ones |
| Routes.ValidatedIsStable | internal/config/config.go:310-321 | buildRoutes stores a validated configuration unchanged if and only if none of its normalized prefixes is padded with white space, and then its prefixes are still distinct |
| Routes.ValidatedRouting | internal/proxy/proxy.go:151-185 | from Validate to the route: an accepted configuration without padded prefixes sends every repository to its longest configured prefix, in any order of its registries |
| Routes.RenormalizedDuplicate | internal/proxy/proxy.go:163-170 | two validated registries whose prefixes buildRoutes turns into one and the same |
| Routes.LastHostWins | internal/proxy/proxy.go:160-162 | a host belongs to the last enabled registry that lists it |
| Routes.HostIndexMeans | internal/proxy/proxy.go:151-162 | a host, trimmed and in lower case, leads to the last enabled registry that lists it, and to none if there is none |
| Routes.DefaultMeans | internal/proxy/proxy.go:171-174 | with distinct names the default is the enabled registry of the configured name |
| Routes.CollectMeans | internal/proxy/proxy.go:155-170 | the table has a route for exactly the non-empty normalized prefixes of the enabled registries |
| Routes.ExchangeSort | internal/proxy/proxy.go:176-183 | in place, a permutation with prefix lengths descending |
| Routes.BuildRoutes | internal/proxy/proxy.go:151-185 | the host index, the default, and a length-descending permutation of the enabled registries' prefixes |
| Routes.FindRoute | internal/proxy/proxy.go:257-263 | the loop returns the first matching route |
| Routes.FirstMatchIsLongestPrefix | internal/proxy/proxy.go:176-183 | on a length-descending table with distinct prefixes the first match is the only longest path-segment prefix of the repository |
| Routes.SortOrderIrrelevant | internal/proxy/proxy.go:176-183 | any two length-descending permutations of one table route alike |
| Routes.CollectPermutes | internal/proxy/proxy.go:155-175 | reordering the registries only reorders the table |
| Routes.RoutingIsLongestPrefix | internal/proxy/proxy.go:151-185 | for a whole configuration without padded prefixes, whatever table the sort produces, the winner is the longest configured path-segment prefix |
| Routes.RegistryOrderIrrelevant | internal/proxy/proxy.go:151-185 | the order of the registries in the configuration does not change the winner |
| Routes.RoutesStored | internal/proxy/proxy.go:163-170 | every table entry is lower-case, non-empty, without slashes at its ends, and of an enabled configured registry |
| Reload.ClientSafety | internal/proxy/proxy.go:759-774 | for any interleaving of both sections of any Reloads, resolutions and delayed getClient calls, a request gets the client built from its own registry and configuration |
| Reload.OneGenerationCached | internal/proxy/proxy.go:121-125 | the cache holds only clients of clientGeneration, each under its registry's name |
| Reload.HitsFromOneApply | internal/proxy/proxy.go:250-282 | registry, prefix, configuration, token cache and generation of a hit come from one apply; two hits share a token cache exactly when they share the apply |
| Reload.RunKeeps | internal/proxy/proxy.go:114-149 | every run of the protocol keeps the invariant behind these three |
| Reload.SerialReloadsAgree | internal/proxy/proxy.go:114-125 | Reloads that do not overlap leave clientGeneration equal to generation |
| Reload.LagIsExact | internal/proxy/proxy.go:114-125 | with no Reload pending, clientGeneration equals generation if and only if the Reload that began last also finished last |
| Reload.OverlapLagsBehind | internal/proxy/proxy.go:114-125 | in any quiet state, two Reloads finishing in the other order leave it one behind |
| Reload.StrangersLeaveCache | internal/proxy/proxy.go:768-772 | getClient for requests of generations other than clientGeneration never changes the cache, whatever requests were routed before |
| Reload.CacheStaysEmptyExactly | internal/proxy/proxy.go:759-774 | as long as no Reload finishes, an empty cache stays empty if and only if no getClient serves a request of clientGeneration |
| Reload.SharedNameSharesClient | internal/proxy/proxy.go:762-765 | with two registries of one name the second would get the first one's client |
| Reload.ValidatedNames | internal/config/config.go:302-305 | whatever Validate accepts has the distinct names getClient relies on |
| Reload.RouteMeaning | internal/proxy/proxy.go:246-282 | the longest configured prefix, else the last registry listing the host, else for trusted peers the one listing the forwarded host, else the default |
| Reload.BeforeColonReads | internal/proxy/proxy.go:290-292 | a host is what stands before the port |
| Reload.HitRewrites | internal/proxy/proxy.go:255-263 | a hit with a prefix always meets the conditions of the rewrite, so the forwarded path names the rest of the repository |
| Reload.Proxy.constructor | internal/proxy/proxy.go:80-90 | the initial state of the protocol |
| Reload.Proxy.SwapTables | internal/proxy/proxy.go:116-120 | the first section: fresh token cache, next generation, tables built from the new configuration |
| Reload.Proxy.Reload | internal/proxy/proxy.go:114-127 | an uninterrupted Reload is the two sections in order |
| Reload.Proxy.ResolveRoute | internal/proxy/proxy.go:250-282 | the hit is the routing function of the current tables |
| Reload.Proxy.GetClient | internal/proxy/proxy.go:759-774 | returns and remembers a client as in the protocol |
| ForwardedFor.ClientIPFromXFF | internal/proxy/proxy.go:500-523 | the rightmost valid untrusted entry, else the leftmost valid one, else empty; the final return gives only the empty string |
| ForwardedFor.ClientIsUnique | internal/proxy/proxy.go:500-523 | that description fixes the answer |
| ForwardedFor.RightmostUntrusted | internal/proxy/proxy.go:500-520 | a valid untrusted entry with nothing of the kind to its right is the client |
| ForwardedFor.LeftmostTrusted | internal/proxy/proxy.go:514-520 | if every valid entry is trusted, the leftmost one is |
| ForwardedFor.EntryReads | internal/proxy/proxy.go:501-505 | an entry is what stands between the white space around it |
| ForwardedFor.PrependingChangesNothing | internal/proxy/proxy.go:475-479 | text put in front of a header with a valid untrusted entry never changes the answer |
| ForwardedFor.PrependingDecidesOtherwise | internal/proxy/proxy.go:514-520 | without such an entry a valid address put in front becomes the answer |
| ForwardedFor.PrependingIsExact | internal/proxy/proxy.go:475-479 | so no longer header changes the answer if and only if some entry is valid and untrusted |
| ForwardedFor.ClientIP | internal/proxy/proxy.go:480-498 | the peer if it is untrusted, else the walk's answer, else a valid X-Real-IP, else the peer |
| ForwardedFor.ClientIPUnspoofable | internal/proxy/proxy.go:475-498 | neither an untrusted peer nor a longer header moves the whole answer |
| TokenCache.ServedTokensAreFresh | internal/auth/upstream/token.go:55-66 | Peek serves only the latest token stored for the registry and scope and not dropped since, at least a second before its lifetime ends |
| TokenCache.CachedTokensAreFresh | internal/auth/upstream/token.go:105-112 | the same for GetToken's own lookup |
| TokenCache.ServedExactly | internal/auth/upstream/token.go:163-184 | over every run, Peek serves the latest token stored for the registry and scope exactly until 60 s before its lifetime of n > 60 s ends, or until n - n / 2 s after the store for shorter ones, and never for n = 1; nothing after a drop or clear |
| TokenCache.CachedExactly | internal/auth/upstream/token.go:105-112 | the same of GetToken's own lookup |
| TokenCache.LastIsLatest | internal/auth/upstream/token.go:55-83 | what `last` holds after any run is what the latest store, drop or clear of its key left |
| TokenCache.ItemIsLatest | internal/auth/upstream/token.go:69-83 | what `items` holds after any run is what the latest store, drop or clear of its key left |
| TokenCache.OneSecondIsNeverServed | internal/auth/upstream/token.go:170-178 | a token with a lifetime of one second is never served from the cache |
| TokenCache.AnswerAfterInvalidateIsNew | internal/proxy/proxy.go:579-602 | after InvalidateScope the cache answers for that registry and scope, at any realm and service, only with a token stored since; for all names and scopes |
| TokenCache.DropsExactly | internal/auth/upstream/token.go:76-82 | for all names and scopes: an entry is removed if and only if, in segments between pipes, the registry is a proper prefix and the scope a proper suffix of its key |
| TokenCache.RemovedExactly | internal/auth/upstream/token.go:69-83 | for a pipe-free registry and scope: if and only if the entry's registry starts and its scope ends with that segment; for pipe-free entries, if and only if both are equal |
| TokenCache.MapsStayCoupled | internal/auth/upstream/token.go:69-184 | over every run with pipe-free names and scopes the keys of `last` are exactly the projection of the keys of `items` |
| TokenCache.UncouplesExactly | internal/auth/upstream/token.go:76-82 | for all names and scopes, when the call removes an `items` entry and keeps the `last` entry stored with it, and when it does the reverse, each as an if and only if on the segments |
| TokenCache.PipedScopeUncouples | internal/auth/upstream/token.go:76-82 | an entry with a pipe in its scope that a pipe-free call takes from `items` only |
| TokenCache.PipedCallUncouples | internal/auth/upstream/token.go:76-82 | a pipe-free entry that a call with a pipe in its scope takes from `items` only |
| TokenCache.PipedNameUncouples | internal/auth/upstream/token.go:76-82 | an entry that a call with a pipe in its registry name takes from `last` only |
| TokenCache.PipedScopeRemovesExactly | internal/auth/upstream/token.go:77-82 | invalidating a scope with one pipe, a and b around it, removes an entry of pipe-free service and scope if and only if they are a and b and the registry matches |
| TokenCache.Cache.PeekToken | internal/auth/upstream/token.go:55-66 | the entry's token while it is alive, else nothing |
| TokenCache.Cache.InvalidateScope | internal/auth/upstream/token.go:69-83 | the loop removes exactly the entries with the prefix and suffix, and the one `last` entry |
| TokenCache.Cache.GetToken | internal/auth/upstream/token.go:88-185 | the cached token, an error that changes nothing, or the endpoint's token stored in both maps and served by both lookups exactly until 60 s before the end of expires_in seconds, of the configured lifetime or of 3600 s where the former are not positive, with about half of it for lifetimes of at most 60 s; a token is never empty |
| TokenCache.Cache.ProxyRequest | internal/proxy/proxy.go:579-618 | a second request goes out if and only if the first got a 401 with a realm and a token can be had, from GetToken's lookup or fetched; after a peeked token it is the freshly fetched one, the scope having been dropped; the cache afterwards and the status for every outcome |
| Challenge.ParseBearerChallenge | internal/auth/upstream/token.go:208-265 | the byte loop computes the automaton |
| Challenge.ChallengeRoundTrip | internal/auth/upstream/token.go:207-265 | for every list of clean parameters, quoted (commas, equals signs and spaces inside) or bare, with white space around names, equals signs and values, and a scheme in any case, the result is the last value of realm, service and scope under case-insensitive names (RFC 7235 section 2.1, RFC 6750 section 3) |
| Challenge.OtherSchemes | internal/auth/upstream/token.go:208-212 | a challenge of any other scheme yields nothing |
| PullAuth.CacheIsTransparent | internal/store/pull_users.go:105-167 | after any sequence of account changes and logins, at any clock, a login is accepted if and only if the table alone accepts it |
| PullAuth.AcceptedByHistory | internal/store/pull_users.go:70-248 | told by the calls alone: after any calls from an empty store, a login that meets no database error is accepted if and only if an account was created under its trimmed name and not deleted since, the hash set by the last successful create or password change accepts the password, and the last successful create or switch left it enabled |
| PullAuth.VerifiedServesExactly | internal/store/pull_users.go:105-166 | after a login that the table verified, the same name gets in without the database if and only if the password is the same and less than 30 s have passed |
| PullAuth.RunKeeps | internal/store/pull_users.go:194-248 | no cached digest ever opens more than the table does |
| PullAuth.LoginsLeaveTable | internal/store/pull_users.go:144-167 | logins never change the table |
| PullAuth.IdsAreNotReused | internal/store/store.go:169-176 | an id once given out never becomes another account |
| PullAuth.PullStore.AuthenticatePull | internal/store/pull_users.go:144-167 | by either path, accepts only what the table accepts now, and everything it accepts unless the database fails |
| PullAuth.PullStore.CreatePullUser | internal/store/pull_users.go:70-98 | the outcome for every error, and the new table |
| PullAuth.PullStore.BootstrapPullUser | internal/store/pull_users.go:47-67 | creates an account only in an empty table, named puller by default |
| PullAuth.PullStore.SetPullUserPassword | internal/store/pull_users.go:194-214 | on success the new hash and an empty cache, else nothing changes |
| PullAuth.PullStore.SetPullUserEnabled | internal/store/pull_users.go:217-234 | on success the new flag and an empty cache, else nothing changes |
| PullAuth.PullStore.DeletePullUser | internal/store/pull_users.go:237-248 | on success no row and an empty cache, else nothing changes |
| PullStaleness.StaleBound | internal/store/pull_users.go:105-167 | with lookup, query and fill as separate steps, an accept from the cache at t means that one login found the same credentials on an enabled row at its query, stayed between query and fill from there on, and filled the cache later than t - 30 s |
| PullStaleness.StaleWithin | internal/store/pull_users.go:105-167 | where every login takes at most d from query to fill, an accept at t rests on a query later than t - 30 s - d |
| PullStaleness.FilledIsVerified | internal/store/pull_users.go:149-166 | a login about to be accepted was matched by an enabled row at its own query |
| PullStaleness.RevokedGetsInExactly | internal/store/pull_users.go:105-166 | from any state, under a clock that never goes back: credentials the table refuses get in at some later state, the table refusing them throughout, if and only if the cache holds them alive or some login that verified them earlier has not filled the cache yet |
| PullStaleness.RevokedStaysOut | internal/store/pull_users.go:133-140 | with neither, they stay refused in every run through which the table refuses them |
| PullStaleness.LateFillOutlivesDisable | internal/store/pull_users.go:149-166 | such a login does arise: one that queries before an account is disabled and fills after the wipe lets it in for the full 30 s |
| Sessions.SessionIsExact | internal/store/users.go:135-178 | in every order of the statements of any calls, at any clocks, a token resolves to u if and only if it was inserted for u, has not expired, and no later statement revoked it, wiped u's sessions, deleted u, or purged it with a clock past its expiry |
| Sessions.LoginByHistory | internal/store/users.go:86-133 | told by the statements alone: credentials are those of u if and only if u was created under the trimmed name and not deleted since, and the hash set last accepts the password |
| SessionRaces.SessionsWereMatched | internal/store/users.go:116-153 | in every interleaving, a token that resolves to u was inserted by one login whose password u's stored hash accepted when it selected it |
| SessionRaces.OldPasswordOpensExactly | internal/store/users.go:211-232 | with no session of u left and only a refused password tried, a session of u opens if and only if a login that matched u before has not inserted yet |
| SessionRaces.ChangeLeavesWaiting | internal/store/users.go:211-232 | the two statements of a password change leave no session of u and every waiting login in place |
| SessionRaces.DeletedStaysOut | internal/store/users.go:235-272 | no session of a deleted user resolves in any later interleaving |
| Sessions.PurgeIsInvisible | internal/store/users.go:275-278 | purges with clocks up to the present change no answer and no account, in any order of statements |
| Sessions.AlwaysAnAdmin | internal/store/users.go:235-272 | once there is an administrator, every reachable state has one |
| Sessions.BootstrapMakesAdmin | internal/store/users.go:56-76 | bootstrapping an empty table makes one, so from then on there always is one |
| Sessions.RunKeepsOk | internal/store/store.go:150-165 | ids stay below the counter, names unique, and every session belongs to an existing user |
| Sessions.UnwipedSessionsSurvive | internal/store/users.go:230-232 | after a password change whose wipe failed the old sessions still resolve |
| Sessions.SessionStore.CreateUser | internal/store/users.go:86-113 | the outcome for every error, and the new table; unknown roles become viewer |
| Sessions.SessionStore.BootstrapAdmin | internal/store/users.go:56-76 | creates an administrator exactly when there is no user, the password is long enough and nothing fails |
| Sessions.SessionStore.Authenticate | internal/store/users.go:116-153 | its two statements in order: a session for 24 hours for matching credentials, else no change |
| Sessions.SessionStore.SessionUser | internal/store/users.go:156-178 | the user of an unexpired session, else none |
| Sessions.SessionStore.RevokeSession | internal/store/users.go:181-186 | removes the session of the trimmed token only |
| Sessions.SessionStore.SetPassword | internal/store/users.go:211-232 | on success the new hash and, if the wipe runs, no session of the user |
| Sessions.SessionStore.Delete | internal/store/users.go:235-272 | refuses the last administrator; on success the user and all its sessions are gone |
| Sessions.SessionStore.PurgeExpiredSessions | internal/store/users.go:275-278 | removes exactly the sessions that expired before now |

## Left out

- Integer width: counters, sums and times are unbounded; the overflow of 64-bit counters, of SQLite integers and of `time.Duration` for very long token lifetimes is not modelled.
- Floating point: limiter tokens and dashboard fractions are reals; rounding is not modelled.
- Unicode: case mapping, white space and `EqualFold` are ASCII; strings are sequences of characters, so the eight-byte password minimum counts characters.
- The database engine: a statement either runs as written or changes nothing, and a transaction is all or nothing; rows returned by a GROUP BY are inputs that a predicate ties to the tables.
- Calendar dates: a day is a number, whose order is that of the formatted dates.
- Password hashing, SHA-256 and random tokens: a deterministic matching predicate, a collision-free digest, and token inputs.
- Address and CIDR parsing: `valid` and `trusted` are arbitrary predicates with the empty string invalid; access control lists are not modelled.
- Routes.Validate: the upstream URL, scheme, host and authentication checks of a registry are one input flag (`sound`), and the checks of access control, trusted proxies, the admin listener, the log level and the pull-auth mode are not modelled, because they touch no routing field.
- `Normalize`, environment expansion and YAML loading.
- `config.Clone` and aliasing: configurations are values, so later changes through a shared reference are not modelled.
- HTTP serving, header copying, body streaming, redirects, DNS checks and TLS: of `proxyRequest` only the requests sent, their tokens and the resulting status are modelled.
- The unlocked read of `enabled` in `Allow`, and Updates that race with a call: the settings are fixed between Updates.
- Queue micro-steps: an unlock is merged with the action before it, and the drop counter with the select's default branch; nothing another goroutine does can tell them apart.
- Nil receivers, nil contexts, logging and metrics.
- Loops that only rank or page: `TopRepos`, `TopClients`, `RecentEvents`, `ListImageTags`, and the LIMIT and search of `ListImages`.
- The first-account bootstraps count the rows and insert in one step; they run once, before requests are served.
- Row time stamps of accounts (`created_at`, `updated_at`) and read-only listings of accounts.
- Flush intervals and retry delays: ticks and attempts happen in any order and at any time.
- Several challenges in one header and backslash escapes inside quoted strings, which the parser does not interpret.
