# A verified model of the malmo brain's stateful cores

malmo runs apps on a home server or a hosted box. Its brain keeps state across calls in a
handful of places where a wrong step is silent: a log stream that drops a line without
saying so, an account enabled on one side only, a health issue that outlives its cause, a
session cookie that reaches an app. This project models those cores in Dafny and proves
what their comments, tests and documentation promise, for every input and every run.

Each core has a value-level meaning (a state, a step, a run) and, where the program changes
things in place, a class whose methods are proved to take exactly those steps. The main
results are lemmas over all runs.

| file | core |
|---|---|
| `AppLogHub.dfy`, `AppLogRegistry.dfy` | the per-app log hub: byte-bounded ring, fan-out, reconnect replay, overflow close, teardown; and the registry that replaces hubs, with every critical section interleaving freely |
| `SshAccess.dfy` | SSH access shared by the brain's rows and the host agent, with failures of any read, write or host call |
| `Health.dfy`, `Detectors.dfy` | the health registry with debounce, write-through store and restart; the restart-loop and app-probe detectors |
| `CookieStrip.dfy`, `CaddyRoutes.dfy` | the two-pass cookie rewrite, the handler tree of a route, and the first-match route list |
| `TokenBucket.dfy`, `RateLimit.dfy`, `LoginThrottle.dfy` | the token bucket, the swept rate limiter, the escalating login backoff |
| `Text.dfy`, `BlockLens.dfy`, `ImagesBlock.dfy` | the surgical rewrite of a manifest's `images:` block as a lens on text |
| `Pinning.dfy` | image references, pins, and resolving every service of a compose file |
| `SeedIngest.dfy` | the crash-safe ingest of the provisioning seed |
| `Maps.dfy`, `Options.dfy` | facts about maps shared by the loops; the option type |

What the outside decides is a parameter: whether a store write, host call, admin call or
docker call goes through, what a registry or a verify endpoint answers, what the clock
says, and in which order events and map iterations come.

Where the code does not do what one might expect of it, the model follows the code:

- A `{lost}` marker can be sent although no line was lost, because ids given to other
  readers' markers leave holes that look like evicted lines (`SpuriousMarker`). A loss is
  never left unmarked, and a marker is true exactly when some id between the reader's
  position and the ring went to no marker (`MarkerIsTrueIffIdMissing`).
- The comment at internal/applog/applog.go:256-257 relies on the replay's marker to cover
  the gap after a hub was replaced. The marker comes only for an empty ring or a position
  below it. Without one, a reader whose position is from the old hub is silently short of
  lines of the new one exactly when the new hub's first line was there and not above the
  position (`ReconnectLacks`), and a run of the registry does that
  (`ReplacedHubSkipsUnmarked`).
- A row whose push and whose rollback both fail leaves brain and host apart exactly when
  the new row asks for something else than the old one (`LostRollback`); the same is stated
  for key rows (`LostAddRollback`, `LostDropRollback`) and for every way the compensations
  of a delete can fail (`FailedDeleteAgreesIff`). The rollback of a creation, which runs
  without the SSH lock, keeps agreement exactly when the new account is not enabled
  (`UnlockedRollback`).
- A failed delete of a health row is not made good by a later success that clears the
  store-failure issue (`StaleRowBehindAllClear`); a row is stale exactly when the last
  write tried for it since the last restart was a failed delete
  (`StoreLagsExactlyWhereFailed`).
- The stripped cookie survives the two passes exactly when the header opens with white
  space before its name (`StrippedNameIsGone`).
- The delay a refused login is told is enough exactly when it outlasts both gates as the
  refused attempt leaves them (`DelayIsEnoughIff`): it names only the first gate that was
  shut, and an attempt refused for its username has spent an address token.
- A seed without enrollment, committed after an aborted ingest of another seed with one,
  comes up with the other seed's credentials (`AnotherSeedsEnrollment`); this happens
  exactly when an enrollment row was left behind (`EnrollmentIsTheSeeds`).
- Rewriting an images block twice equals rewriting it once exactly when every rendered
  line after the header is indented or blank (`PutPut`); a name of two lines breaks it
  (`TwoLineNameFallsOut`), and the block reads back exactly for one-line names and digests
  (`PutGet`).
- A pin parses back to its repository exactly when the repository has no second tag
  (`PinParsesBack`, with `PinOfTwoTags` where it has), and the command line's copy of
  `repoOf` differs from the brain's exactly on a reference with both tag and digest
  (`CopiesAgreeUnlessTagAndDigest`), although its comment calls it the same rule.

## Model

| member | source | states |
|---|---|---|
| `AppLogHub.BytesAreCharacters` | internal/applog/applog.go:326-328 | what counts against the budget is every character of every field and 32 for each line |
| `AppLogHub.EvictFindsWindow` | internal/applog/applog.go:195-199 | eviction leaves the longest suffix of the whole history that fits the budget, or the last line alone |
| `AppLogHub.StepKeepsInv` | internal/applog/applog.go:189-281 | every critical section of a hub keeps the ring a window of the history with an exact byte count, ids unique and rising, every channel open exactly while someone owes its close and never misused, every session gapless |
| `AppLogHub.RunKeepsInv` | internal/applog/applog.go:189-281 | so does every run from an empty hub, in any interleaving of append, subscribe, unsubscribe, receive and both halves of teardown |
| `AppLogHub.ReaderGetsExactly` | internal/applog/applog.go:213-229 | in every run a reader's replay and channel together are, for an id the hub handed out and without a marker, exactly the lines past that id in order; otherwise a marker and then a contiguous stretch; a registered reader is up to date |
| `AppLogHub.RunHandsOverRing` | internal/applog/applog.go:213-229 | in every run, and told by the history alone: a reader without a position was handed the whole ring of the time, one told of a loss a marker and then the whole ring, and it was told so exactly when it brought a position and the ring was empty or began past the next id |
| `AppLogHub.AppendDropsOnlyFull` | internal/applog/applog.go:200-207 | an append closes a reader exactly when 256 lines wait on its channel, and gives the line to every other |
| `AppLogHub.RunUsesEveryId` | internal/applog/applog.go:190-321 | in every run each id handed out so far is a line's or a marker's |
| `AppLogHub.MarkerIsTrueIffIdMissing` | internal/applog/applog.go:293-321 | in every run a line past the reader's position that left the ring always draws a marker, and a reader that draws one has lost a line iff some id between its position and the ring went to no marker |
| `AppLogHub.UnmarkedLacksUpToPosition` | internal/applog/applog.go:293-316 | whatever its position, a reader told of no loss lacks of the lines there were exactly those at or below it |
| `AppLogHub.ForeignPositionMarked` | internal/applog/applog.go:293-316 | a position past every id of the hub draws a marker iff the hub has had no line, and otherwise gets an empty replay |
| `AppLogHub.SpuriousMarker` | internal/applog/applog.go:302-321 | at any budget that two lines exceed, a run in which a marker is sent and nothing was lost |
| `AppLogHub.NoGapWithoutMarker` | internal/applog/applog.go:189-321 | over every run and every chain of reconnects two frames seen in a row are consecutive lines unless one is a marker, and no line is seen twice or out of order |
| `AppLogHub.Hub.constructor` | internal/applog/applog.go:116-127 | a new hub is the start of a run |
| `AppLogHub.Hub.AppendLine` | internal/applog/applog.go:189-208 | one append is the append step of the run |
| `AppLogHub.Hub.Push` | internal/applog/applog.go:192-199 | the eviction loop leaves the evicted ring and its exact byte count |
| `AppLogHub.Hub.FanOut` | internal/applog/applog.go:200-207 | the fan-out loop gives the line to every reader with room and drops and closes every other |
| `AppLogHub.Hub.SubscribeReader` | internal/applog/applog.go:213-229 | a stopped hub refuses; otherwise registration and replay are one step, and the replay is the whole ring without a position, a marker and the whole ring after a loss |
| `AppLogHub.Hub.BuildReplay` | internal/applog/applog.go:293-321 | the branches of the replay compute the marker or the tail past the id |
| `AppLogHub.TailAfter` | internal/applog/applog.go:305-310 | the loop collects exactly the ring lines past the id |
| `AppLogHub.Hub.UnsubscribeReader` | internal/applog/applog.go:231-246 | a release closes its channel once, and that of the last reader of a running hub arms the linger |
| `AppLogHub.Hub.MaybeStop` | internal/applog/applog.go:258-265 | in every reachable state the linger cancels the follow iff every channel ever handed to a reader is closed or being closed, so no reader is cut off by it |
| `AppLogHub.Hub.Teardown` | internal/applog/applog.go:267-281 | stops, closes every registered channel exactly once, and changes nothing else |
| `AppLogRegistry.RunKeepsInv` | internal/applog/applog.go:92-138 | every interleaving of lookups, entries, drops, pumps, teardowns and removals keeps the registry's invariant |
| `AppLogRegistry.OneLiveHubPerInstance` | internal/applog/applog.go:92-138 | a hub that has not stopped is the mapped one, so an instance has at most one; a call never re-enters a hub that refused it; a hub past its teardown is mapped nowhere |
| `AppLogRegistry.EveryHubIsSound` | internal/applog/applog.go:142-281 | no channel of any hub is closed twice or sent to after its close, a pending linger means no readers, the ring is within budget unless it holds one line, a torn-down hub has closed every channel |
| `AppLogRegistry.ReconnectLacks` | internal/applog/applog.go:92-113 | in every run of the registry a reader that brings a position, also to a hub that took its hub's place, gets a marker or lacks exactly the hub's lines at or below it; the exact condition for a silent skip |
| `AppLogRegistry.ReplacedHubSkipsUnmarked` | internal/applog/applog.go:248-257 | a run in which a reader refused by the stopped hub enters the new one without a marker and never gets its first line |
| `SshAccess.OneAccountChanges` | internal/api/ssh.go:174-224 | two sides that agree still do after a change to one account, if they agree on that account |
| `SshAccess.AgreeIffOnAccount` | internal/api/ssh.go:174-224 | after any change to one account, whole or half done, the sides agree iff they agree on that account |
| `SshAccess.LostRollback` | internal/api/ssh.go:205-224 | a failed push with a failed rollback keeps agreement iff the new row asks for what the old one did |
| `SshAccess.LostAddRollback` | internal/api/ssh.go:284-300 | an added key that could not be taken back keeps agreement iff the account is off or has that line already |
| `SshAccess.LostDropRollback` | internal/api/ssh.go:349-390 | a dropped key that could not be put back keeps agreement iff the account is off or another of its keys has that line |
| `SshAccess.FailedDeleteAgreesIff` | internal/api/users.go:318-372 | for a delete that fails after its revoke, with any of its compensations failing, the exact condition for agreement |
| `SshAccess.UnlockedRollback` | internal/api/users.go:125-164 | the rollback of a creation keeps agreement iff the new account is not enabled |
| `SshAccess.StillHasFactor` | internal/api/ssh.go:341-347 | an account that held another key still has a line to send |
| `SshAccess.CascadeUndone` | internal/api/users.go:350-368 | the rows a user delete cascades away fit back and restore the key table exactly |
| `SshAccess.DeleteKeepsInv` | internal/api/users.go:301-376 | whichever way a delete ends, agreement and the mandatory factor survive it |
| `SshAccess.Box.constructor` | internal/api/ssh.go:93-119 | an empty box satisfies the invariant |
| `SshAccess.Box.ApplySSH` | internal/hostagent/agent.go:962-996 | a push sets or removes one host entry; one without a user, or that enables without any factor, is refused and changes nothing |
| `SshAccess.Box.SetMySSH` | internal/api/ssh.go:174-224 | succeeds exactly under its stated conditions; an account it enables then has its row and its host entry ask for the password on an appliance, and on a hosted box exactly if asked; otherwise, if the old row can be written back, neither side changes; the host never refuses |
| `SshAccess.Box.SyncIfEnabled` | internal/api/ssh.go:396-409 | pushes the account's whole state exactly if it is enabled |
| `SshAccess.Box.AddMySSHKey` | internal/api/ssh.go:255-305 | adds the key on both sides within the cap; otherwise both are as they were, but for the added row when taking it back fails too |
| `SshAccess.Box.DeleteMySSHKey` | internal/api/ssh.go:323-394 | removes the key on both sides unless it is the last factor of an enabled hosted account; otherwise both are as they were, but for the removed row when putting it back fails too |
| `SshAccess.Box.RestoreKeys` | internal/api/users.go:362-367 | the loop puts back every row that was cascaded away, each on its own, but those whose insert fails |
| `SshAccess.Box.DeleteUser` | internal/api/users.go:241-376 | deletes exactly under its stated conditions; any other end is spelled out for every combination of failing compensations, and with none failing leaves both sides as before, restored, or gone where even the user row could not be restored |
| `SshAccess.Box.CreateUser` | internal/api/users.go:89-169 | creates the row and, with both host calls, the host account, or takes the row back |
| `SshAccess.Box.Handle` | internal/api/ssh.go:174-423 | one request of any kind, also from an account already gone, keeps the invariant when its compensations succeed, and never draws the host's refusal |
| `SshAccess.Box.Serve` | internal/api/ssh.go:93-423 | over every sequence of requests with failures anywhere the sides agree, every enabled account has its factor, none has more than ten keys, the host never refuses, and what the host asks of an enabled account is what its last successful setting asked for, or the password on an appliance |
| `Health.ActiveIffReported` | internal/health/health.go:347-439 | over every run of well-formed lists of findings, brain-owned raises and clears and store failures, a one-shot issue is active iff the last list of its category names it, a debounced one iff the last two do |
| `Health.ReportSettles` | internal/health/health.go:360-417 | one report moves one key by the debounce rule |
| `Health.WantIsTheFindings` | internal/health/health.go:348-352 | the keys a report asks for are those of its findings |
| `Health.WantIsTheLast` | internal/health/health.go:348-352 | with the details of the last finding of each key |
| `Health.ReportFollowsFindings` | internal/health/health.go:347-417 | after a report a one-shot issue of its category is active iff a finding names it, a debounced one iff one does and it was active or sampled once |
| `Health.ReportShowsLastFinding` | internal/health/health.go:259-287 | an issue named shows the details of the last finding of its key, the time it was first raised, and the time of the report |
| `Health.RaiseShows` | internal/health/health.go:259-287 | a raise shows its details and its time and keeps the time of the first |
| `Health.RestartForgetsSamples` | internal/health/health.go:163-187 | after a restart a debounced issue that was not stored needs two more reports |
| `Health.OtherCategoriesUntouched` | internal/health/health.go:347-439 | a report leaves every issue, count and row of another category as it was |
| `Health.StoreLagsExactlyWhereFailed` | internal/health/health.go:163-241 | under any write failures and restarts a row is stale iff it is there and the last write tried for its key since the last restart was a failed delete, missing iff it is not there and that write was a failed upsert, and outdated only after a failed upsert |
| `Health.StoreMirrorsActive` | internal/health/health.go:163-241 | while writes succeed the rows are exactly the active issues worth keeping, and a restart gives them back |
| `Health.RestartAndReportAgree` | internal/health/health.go:163-187 | after any past, a restart and one written report make rows and issues of its category equal and part of the report |
| `Health.StaleRowBehindAllClear` | internal/health/health.go:424-432 | a run in which the store-failure issue is clear and a row is stale |
| `Health.StoreFailureIsTheLastBatch` | internal/health/health.go:208-241 | over every run the internal store-failure issue is active iff the last batch given to the store was refused |
| `Health.TransitionsAreTheDifference` | internal/health/health.go:347-439 | the keys one report raises and clears are the exact difference of the active sets |
| `Health.RaisedAndClearedAlternate` | internal/health/health.go:208-439 | over every run raised and cleared alternate for every key, raised first, and the last one said is how the key stands |
| `Health.Manager.RaiseIssue` | internal/health/health.go:208-224 | is the raise step; reports a transition exactly for a known key that was not active |
| `Health.Manager.ClearIssue` | internal/health/health.go:227-241 | is the clear step; reports a transition exactly for an active key |
| `Health.Manager.RaiseLocked` | internal/health/health.go:259-287 | a known key becomes or stays active, the first raise time is kept |
| `Health.Manager.Reboot` | internal/health/health.go:163-187 | the load loop restores exactly the rows of known ids |
| `Health.Manager.RaiseWanted` | internal/health/health.go:360-386 | the raise loop refreshes, raises or counts each finding, in any order |
| `Health.Manager.ClearAbsent` | internal/health/health.go:392-405 | the clear loop removes exactly the active issues of the category that were not reported |
| `Health.Manager.ApplyFindings` | internal/health/health.go:347-439 | is the report step; which issues are active and what they show follows from the findings, and the keys it returns are the exact difference |
| `Detectors.Reconcile` | cmd/brain/main.go:1108-1137 | afterwards the issue is raised for exactly the held instances, and other issues are untouched |
| `Detectors.PrunePrune` | cmd/brain/main.go:1098-1103 | pruning again with a later cutoff is pruning once |
| `Detectors.WindowStaysExact` | cmd/brain/main.go:1091-1105 | the pruned history stays the in-window part of the full log since recreation or last absence |
| `Detectors.HistoryStaysExact` | cmd/brain/main.go:1088-1124 | the same for all instances of one check |
| `Detectors.Sampled` | cmd/brain/main.go:1091-1105 | the filter loop computes the next history of one instance |
| `Detectors.LogsAreSince` | cmd/brain/main.go:1088-1124 | the full log of an instance is that of all checks since the first from which it was there every time and its count never fell |
| `Detectors.RestartLoopDetector.Check` | cmd/brain/main.go:1078-1146 | over all completed checks an instance is flagged iff its last count exceeds by more than the threshold that of the oldest check in the window since it was created or came back |
| `Detectors.AppProbeDetector.Check` | cmd/brain/main.go:1244-1339 | one more round: counters and active issues stay those of the run of all checks so far; no instance holds both issues afterwards |
| `Detectors.CountsStreaks` | cmd/brain/main.go:1244-1339 | over every run of checks the counter is the streak of failed probes, and an instance is held after two of them, or if it was held at the start and has failed ever since |
| `Detectors.UnresponsiveIffTwoFailures` | cmd/brain/main.go:1244-1339 | app-unresponsive is active in the registry iff this and the previous check both found the instance declared, running, past its start period, in no restart loop, and without an answer |
| `Detectors.Tick` | cmd/brain/main.go:1052-1069 | after every tick of the poll loop, restart check then probe check, both issues are active for exactly the instances their definitions name over the whole past, and none holds both |
| `CookieStrip.StripIsReference` | internal/caddy/caddy.go:187-194 | the two passes equal a pattern-free reference on the pieces between semicolons |
| `CookieStrip.StripOnEveryHeader` | internal/caddy/caddy.go:187-194 | every header has such pieces, so the reference describes the passes on all texts |
| `CookieStrip.StrippedNameIsGone` | internal/caddy/caddy.go:187-194 | of every header the passes leave no piece that holds the name, except a first one iff the header opens with white space before it |
| `CookieStrip.StripRemovesExactlyOneName` | internal/caddy/caddy.go:187-194 | on every cookie-string of section 4.2.1 of RFC 6265 exactly the pairs of the stripped name go, the others stay in order and byte for byte |
| `CaddyPolicy.GateDecides` | internal/caddy/caddy.go:215-262 | the gate passes exactly a 2xx answer, with the copied headers from that answer alone, redirects any other answer, and is a bad gateway where there is none |
| `CaddyPolicy.TreeMeetsPolicy` | internal/caddy/caddy.go:110-164 | evaluating the emitted tree is the configuration's policy, for every configuration, request and answer, also none |
| `CaddyPolicy.PolicyPromises` | internal/caddy/caddy.go:110-164 | the app is reached iff there is no gate, the path is public, or verify answered 2xx; any other answer gets the 302 and no answer a 502; a scrubbed header arrives only as the verify response gave it |
| `CaddyPolicy.HeadersArrive` | internal/caddy/caddy.go:110-262 | header by header: one the gate copies arrives as the verify response has it, a scrubbed one does not arrive, any other arrives as the client sent it |
| `CaddyPolicy.ArrivingCookieIsStripped` | internal/caddy/caddy.go:110-120 | when a cookie header arrives, on either branch, where it comes from, and that it went through the strip |
| `CaddyPolicy.StrippedCookieNeverArrives` | internal/caddy/caddy.go:110-120 | for every configuration and every Cookie header the app finds the stripped cookie iff the header opened with white space before the name |
| `CaddyPolicy.OtherCookiesArrive` | internal/caddy/caddy.go:110-120 | a cookie-string arrives as the same pairs, in order, without those of the stripped name |
| `CaddyRouteList.RunStands` | internal/caddy/caddy.go:282-457 | after every sequence of calls, failed ones included, ids are unique, the catch-all is last, and the list holds exactly the live routes of an unordered table |
| `CaddyRouteList.ServesTheLatest` | internal/caddy/caddy.go:282-457 | with distinct hosts first match is a lookup: the handlers last put for the host, and the 404 for any other |
| `CaddyRouteList.UnknownHostGets404` | internal/caddy/caddy.go:338-349 | a request for a host no route has gets the 404 |
| `CaddyRouteList.LiveAppMeetsPolicy` | internal/caddy/caddy.go:110-295 | a request for a live app's host meets the policy of the configuration last put for it |
| `CaddyRouteList.DashboardSplits` | internal/caddy/caddy.go:367-397 | the dashboard route sends the API and brain paths to the brain and everything else to the UI, with the request as it came |
| `CaddyRouteList.Server.constructor` | internal/caddy/caddy.go:453-458 | the reset list is the empty run |
| `CaddyRouteList.Server.RemoveRouteByID` | internal/caddy/caddy.go:320-333 | removes exactly the routes of the id; an unknown id is no error |
| `CaddyRouteList.Server.UpsertRoute` | internal/caddy/caddy.go:282-295 | replaces the instance's route, puts the new one first, and leaves every other; if only the delete gets through the instance has none |
| `CaddyRouteList.Server.AddRoute` | internal/caddy/caddy.go:110-148 | afterwards the host is served by the tree of the configuration |
| `CaddyRouteList.Server.AddSplashRoute` | internal/caddy/caddy.go:269-278 | afterwards the host is served by the splash |
| `CaddyRouteList.Server.InstallDashboard` | internal/caddy/caddy.go:367-402 | afterwards the dashboard host is served by its split |
| `CaddyRouteList.Server.InstallCatchAll` | internal/caddy/caddy.go:428-443 | when it succeeds, that the catch-all is then last, and that it is never there twice |
| `CaddyRouteList.Server.ResetServer` | internal/caddy/caddy.go:453-458 | a reset that gets through empties the list |
| `TokenClock.LevelIsTightestWindow` | internal/api/ratelimit.go:90-99 | the lazily refilled level is the tightest of all windows of the run, and one of them exactly unless full |
| `TokenBucket.AllowedIffEveryWindowFits` | internal/api/ratelimit.go:80-104 | a request is allowed iff every window since an earlier request, this one counted, stays within capacity plus rate times elapsed time |
| `TokenBucket.AllowedAtMost` | internal/api/ratelimit.go:80-104 | the bound for every run, key and start |
| `TokenBucket.WaitIsExact` | internal/auth/throttle.go:102-118 | a refused caller that stays away is next allowed once the returned delay has passed and not before, whatever other keys do |
| `RateLimit.BothPlanesSweepOnlyFull` | internal/api/ratelimit.go:25-44 | both planes refill within the idle time-to-live |
| `RateLimit.SweepIsInvisible` | internal/api/ratelimit.go:80-115 | on every run the swept limiter gives the same decision and delay as one that never evicts |
| `RateLimit.LimiterAllowsAtMost` | internal/api/ratelimit.go:80-115 | the bound for the swept limiter |
| `RateLimit.LimiterAllowsIffEveryWindowFits` | internal/api/ratelimit.go:80-115 | the exact rule for the swept limiter |
| `RateLimit.LimiterWaitIsExact` | internal/api/ratelimit.go:80-115 | the exact delay for the swept limiter |
| `RateLimit.PlanesAllowAtMost` | internal/api/ratelimit.go:25-44 | a session gets at most 60 and two a second, an address 30 and one every two seconds |
| `RateLimit.NoBucketStaysIdle` | internal/api/ratelimit.go:80-115 | after every request no bucket is kept that has been idle for ten minutes |
| `RateLimit.BucketSet.constructor` | internal/api/ratelimit.go:66-74 | starts with no buckets and the clock's time |
| `RateLimit.BucketSet.Allow` | internal/api/ratelimit.go:80-104 | is one step of the run, with that step's answer |
| `RateLimit.BucketSet.SweepLocked` | internal/api/ratelimit.go:108-114 | the sweep loop drops exactly the idle buckets |
| `LoginThrottle.EntryCountsOwnFailures` | internal/auth/throttle.go:158-179 | whatever others do, a username's entry is the number and the latest of its own failures since its last success |
| `LoginThrottle.FailuresAreSpaced` | internal/auth/throttle.go:83-98 | with sequential attempts the k-th failure is followed no sooner than its backoff |
| `LoginThrottle.GuessingIsSlow` | internal/auth/throttle.go:122-151 | the 20th failure comes at least 652 s after the first, each later one at least 900 s after the one before |
| `LoginThrottle.GateOpensExactlyWhen` | internal/auth/throttle.go:122-151 | after any run the username gate is open iff there were fewer than three failures, or 1, 10, 60 or 900 s have passed since the last of three, five, ten or twenty |
| `LoginThrottle.LockIsReportedOnce` | internal/auth/throttle.go:158-179 | between successes the lock is reported exactly once, with the 20th failure |
| `LoginThrottle.LetThroughWhenBothWaited` | internal/auth/throttle.go:83-135 | after any run, and whatever others do meanwhile, a later attempt is let through iff each gate's own wait has passed |
| `LoginThrottle.DelayIsEnoughIff` | internal/auth/throttle.go:83-98 | waiting out the returned delay is enough iff it outlasts both gates as the refused attempt leaves them |
| `LoginThrottle.BucketsSeeEveryAttempt` | internal/auth/throttle.go:83-118 | an address's bucket is charged for every attempt, also those the username gate refuses |
| `LoginThrottle.SprayIsBounded` | internal/auth/throttle.go:102-118 | an address has a token exactly while every window of its attempts stays within ten plus a sixth a second |
| `LoginThrottle.Throttle.constructor` | internal/auth/throttle.go:63-69 | starts empty |
| `LoginThrottle.Throttle.AllowAttempt` | internal/auth/throttle.go:83-98 | spends a token, then asks the username; allowed exactly when both gates say zero |
| `LoginThrottle.Throttle.SpendIPToken` | internal/auth/throttle.go:102-118 | is one step of the shared bucket, with its wait |
| `LoginThrottle.Throttle.UsernameWait` | internal/auth/throttle.go:122-135 | what is left of the backoff since the last failure, never negative |
| `LoginThrottle.Throttle.RecordFailure` | internal/auth/throttle.go:158-170 | counts one failure and reports the lock at the threshold |
| `LoginThrottle.Throttle.RecordSuccess` | internal/auth/throttle.go:175-179 | forgets the username and leaves the addresses |
| `BlockLens.EditIsThreeParts` | cmd/malmo/resolve.go:96-130 | the edit is the text before, the block, and the text after with its final newline |
| `BlockLens.BlockIsFoundAgain` | cmd/malmo/resolve.go:99-121 | a second look finds the block where it was put, up to its first line that is not inside |
| `BlockLens.PutPutLines` | cmd/malmo/resolve.go:96-130 | on lines, put after put is the second put iff the first block holds together |
| `BlockLens.EditAtEnd` | cmd/malmo/resolve.go:107-111 | the no-block case is the same edit: trailing newlines go, an empty line and the block come |
| `BlockLens.Replace` | cmd/malmo/resolve.go:96-130 | the scan and the splice compute the edit |
| `BlockLens.FindStart` | cmd/malmo/resolve.go:100-106 | the first loop finds the first header |
| `BlockLens.FindEnd` | cmd/malmo/resolve.go:112-120 | the second loop finds the first line that is neither indented nor blank |
| `ImagesBlock.PutPut` | cmd/malmo/resolve.go:96-130 | on every text rewriting twice is rewriting once with the second map, iff the first block holds together, in particular for one-line names and digests |
| `ImagesBlock.TwoLineNameFallsOut` | cmd/malmo/resolve.go:135-152 | a family of maps whose block does not hold together |
| `ImagesBlock.LinesOutsideSurvive` | cmd/malmo/resolve.go:96-130 | every line outside the block survives in order, in the block, no-block and block-at-end cases, with the final newline |
| `ImagesBlock.HeaderIff` | cmd/malmo/resolve.go:101-106 | a header is `images:` at the very start of a line with nothing after it but spaces and tabs |
| `ImagesBlock.ContinuesIff` | cmd/malmo/resolve.go:113-120 | a line stays in the block iff it begins with a space or a tab or is all white space |
| `ImagesBlock.PutGet` | cmd/malmo/resolve.go:96-152 | a line reader of the rewritten block gets back the resolved map, sizes included, iff its names and digests are of one line |
| `ImagesBlock.RenderImagesBlock` | cmd/malmo/resolve.go:135-152 | the builder loop renders the header and the images in byte order |
| `ImagesBlock.ReplaceImagesBlock` | cmd/malmo/resolve.go:96-130 | computes the edit the laws are about |
| `References.RefRoundTrip` | internal/lifecycle/pinning.go:212-229 | every name with or without port, tag and digest comes apart into its parts |
| `References.PinParsesBack` | internal/lifecycle/pinning.go:212-229 | of any text, a pin gives back its digest, and its repository iff that has no second tag |
| `References.PinOfTwoTags` | internal/lifecycle/pinning.go:212-220 | a reference whose pin does not parse back to its repository |
| `References.CopiesAgreeUnlessTagAndDigest` | cmd/malmo/resolve.go:292-300 | the command line's copy agrees iff the reference has not both a digest and a tag before it |
| `Pinning.ResolvesExactlyWhen` | internal/lifecycle/pinning.go:112-182 | when an image resolves: no contradiction, and after a pull a held or a recorded digest, without one only offline with a held digest and the image present |
| `Pinning.FirstDigestIsFirst` | internal/lifecycle/pinning.go:142-154 | the digest found is that of the first record of the repository, and none is found iff there is none |
| `Pinning.ResolutionHonoursDigest` | internal/lifecycle/pinning.go:112-182 | a held digest is the one pinned; the reference is the tag iff the pull failed, offline, with the image present; a digest taken on trust was recorded for this repository |
| `Pinning.PinsHonourDigests` | internal/lifecycle/pinning.go:59-97 | equal images are pinned equally, every promised or in-reference digest is honoured, every non-local pin carries its digest |
| `Pinning.PullAndResolve` | internal/lifecycle/pinning.go:112-155 | one pull, which carries the held digest and the image's repository where a digest is held and is the image as written otherwise; none for a contradiction; the result follows from what docker said |
| `Pinning.FindDigest` | internal/lifecycle/pinning.go:142-154 | the loop finds the first digest recorded for the repository |
| `Pinning.ResolveOffline` | internal/lifecycle/pinning.go:170-182 | the fallback trusts a held digest exactly if the image is present |
| `Pinning.ServiceImages` | internal/lifecycle/pinning.go:187-204 | a blank image is an error, otherwise all services come through |
| `Pinning.ResolveImages` | internal/lifecycle/pinning.go:59-97 | the i-th pull is that of the i-th distinct image, by its held digest where there is one; on success one pin per service in order of name, each what its image resolved to; a failure is that of a blank image or of an image that does not resolve |
| `SeedIngest.BoxIdImpliesItsSeed` | cmd/brain/main.go:409-478 | over every sequence of boots with failures and crashes, a box-id stands beside the key, and the complete enrollment, of the seed it came from |
| `SeedIngest.NothingIsRewritten` | cmd/brain/main.go:409-478 | once the box-id is there no boot writes anything |
| `SeedIngest.IdentityNeverChanges` | cmd/brain/main.go:409-478 | every later boot whose reads work comes up with the committed seed's identity, whatever seed it finds |
| `SeedIngest.FaultyReadsOnlyHide` | cmd/brain/main.go:413-436 | what a boot whose reads fail comes up with: that identity, or exactly the part that could be read |
| `SeedIngest.ApplianceStaysOut` | cmd/brain/main.go:410-412 | an appliance writes nothing and has no such identity |
| `SeedIngest.WorkingBootCommits` | cmd/brain/main.go:437-478 | a first boot whose reads and writes work commits its seed and comes up as it |
| `SeedIngest.CommitIsAnsweredAgain` | cmd/brain/main.go:413-478 | a first boot that comes up with an identity has committed it: later boots have the same box-id and key, and the same enrollment iff it was complete, or empty with none left behind |
| `SeedIngest.EnrollmentIsTheSeeds` | cmd/brain/main.go:457-469 | the box comes up with its own seed's enrollment iff the seed has one or none was left behind |
| `SeedIngest.AnotherSeedsEnrollment` | cmd/brain/main.go:457-469 | two boots after which a box has another seed's credentials |
| `SeedIngest.Box.LoadHostedEnvironment` | cmd/brain/main.go:409-478 | leaves the rows and answers the identity of one boot of the run |
| `SeedIngest.StoredIsComplete` | cmd/brain/main.go:457-522 | over every sequence of boots only complete enrollments are stored, so what a later boot loads is complete or nothing |

## Left out

- HTTP, SSE, JSON, YAML, the Docker command line, SQLite and SMTP: calls out of the program, modelled as parameters that succeed or fail; the text they carry is not modelled.
- Cryptography and library parsing (assertions, bcrypt, URLs, authorized keys, semver): done by libraries outside the repository; the model takes their results as given.
- The global event bus: it takes an event's id before its lock, so it promises no order of delivery to state.
- The job registry, the stream cap, the client-IP walk, catalog projections and DTO mapping: single counters and field-by-field copies, whose contracts would repeat their bodies.
- `lifecycle.Manager`'s install and reconcile transactions and the update loop: their main files are not part of this model.
- Audit, notification and log emission in the handlers: they do not change the modelled state.
- The last-admin guard under concurrent requests: the count is a parameter of the delete.
- ACME and TLS setup of the proxy, and the trusted-proxy declaration before a reset.
- AppLogHub.RunKeepsInv: ids are unbounded, the 64-bit wrap-around is not modelled.
- AppLogHub.ReaderGetsExactly: the exact claim is for ids this hub handed out; what a position from another hub gets is `AppLogRegistry.ReconnectLacks`.
- AppLogRegistry.OneLiveHubPerInstance: says nothing about when a teardown begins; it may begin at any moment.
- SshAccess.Box.Serve: an account's keys are a set of lines, so the order they are listed in is not modelled, and a key is already parsed; a failed host call changes nothing.
- SshAccess.Box.CreateUser: creation and rollback are one step here; that other requests can come between them is covered only by `SshAccess.UnlockedRollback`, and the best-effort delete of the host account has no effect on SSH.
- SshAccess.Box.ApplySSH: the host keeps the key lines themselves where the in-memory agent keeps their number.
- Health.Manager.ApplyFindings: the returned keys are sets, their sorting is left out, and so are the static fields of an issue and the truncation of stored times; a manager without a store is not modelled.
- Detectors.RestartLoopDetector.Check: sampling and raising are two loops here and one in the source; the text of the details is left out.
- Detectors.AppProbeDetector.Check: the probe itself is an answer per instance.
- Detectors.Tick: between ticks nothing else raises or clears the two issues.
- CookieStrip.StripRemovesExactlyOneName: one Cookie header line; several lines are not modelled.
- CookieStrip.StripIsReference: for a stripped name without a semicolon that does not begin with white space, as every cookie name is.
- CaddyPolicy.TreeMeetsPolicy: header names are compared as written, without case folding; how path patterns match is a parameter.
- CaddyRouteList.RunStands: the server refuses an id it already has, as the source's comments say; a handler's static body is left out.
- TokenBucket.AllowedAtMost: exact reals on a clock that does not run backwards; float rounding and the truncation of delays to nanoseconds are not modelled.
- LoginThrottle.GuessingIsSlow: for sequential attempts, since asking and recording are two critical sections.
- ImagesBlock.PutGet: strings are sequences of characters, not of bytes; the reader is a line reader, not a YAML parser.
- Pinning.ResolveImages: parsing the compose file is left out; a reference ending in a bare `@` counts as holding no digest, as in the source.
- SeedIngest.IdentityNeverChanges: the stored enrollment is a value, its JSON form is left out.
