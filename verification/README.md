# onchain-data-mcp: routing, metering and configuration, verified

onchain-data-mcp answers questions about blockchains by routing them to data vendors. This project models the part of its
logic that does not depend on the network, and proves what that logic keeps. Each module follows one part of the program:

- **Password, PasswordOutcomes**: the dashboard password on first start. Processes race over checking, renaming, reading,
  linking and removing files; the file operations are the atomic steps, and a schedule says who performs the next one. The
  function itself is proved to be the step machine run alone, and who reports what is proved for every schedule.
- **Persistence, WriteBehind, MeteredCalls, Windows, Counters, MapSums**: usage counters in memory and in the database.
  Calls update the mirrors under a lock and queue their writes afterwards; a worker applies the queue. The mirrors are
  proved to be the database plus what is outstanding, in every interleaving.
- **Runtime, BreakerHistory, Providers**: the state per vendor, its circuit breaker and exhaustion marks, characterised
  by the history of requests, outcomes and headers alone; **RoutedHistory** ties the router's requests to such histories.
- **TokenBuckets, Hosted, Admissions, Verdicts**: token buckets over exact reals, the bounded wait, and the admission of
  hosted clients as interleaved atomic steps.
- **Budgets, Overshoot, Quota**: the budget that routing enforces, how far totals can pass it while requests are in
  flight, and the agreement of dashboard and guard after reconciling.
- **Attempts, Strategies, RoutingMeaning**: candidates, the retry loop, failover, quorum, aggregate and fan-out, for every
  way the vendors may answer.
- **TtlCaches**: the bounded response cache against an unbounded one.
- **Calendar, MarketHours**: New York trading sessions, daylight saving time and staleness.
- **Decimal, Text, Amounts**: exact amounts, printed and parsed.
- **Configs, Environment, Edits**: layered configuration, what the environment contributes, and edits.
- **JsonValues, JsonRpc**: request ids and the placement of batch answers.

Conventions. Clocks are parameters: wall clock and monotonic clock in nanoseconds (seconds as reals in the buckets).
Answers of vendors, random passwords and jitter are parameters too, so every statement holds for all of them. Code that
updates fields in place is a class whose methods are proved against a function of the old state; the properties are
lemmas about those functions, over all runs. Locks make a step atomic exactly where the program holds one.

Where code and documentation differ, the code is followed. A wait reported by `TokenBucket::take` is called the time
"until the next one is due" (`crates/routing/src/state.rs:114`); that is exact only for a timestamp that is not older than
the bucket's own, see `TokenBuckets.WaitIsExact`. Processes that start at once are said to differ in their passwords only
after someone truncated the file by hand (`crates/transport-http/src/password.rs:87-88`); a too short file under the former
name has the same effect, and the exact condition is `Password.AgreementExactly`. An open breaker past its cooldown is said
to admit one probe (`crates/routing/src/state.rs:200`); the router claims that probe before it knows whether it will try the
vendor, and if it does not, nothing but a result recorded otherwise admits the vendor again. The exact condition is
`RoutedHistory.ProbeIsLostIff`, and both ways into it are shown by example.

## Model

| member | source | states |
|---|---|---|
| Password.PasswordsAgree | crates/transport-http/src/password.rs:46-97 | For any number of processes and any interleaving of their file operations, starting from a password (current or former) that is absent or long enough: all passwords reported from the file agree with each other and with the file in the end, at most one process created or migrated it, nobody is about to remove the file, and what was found at the start stays |
| Password.AgreementExactly | crates/transport-http/src/password.rs:84-93 | Two processes without the variable agree under every schedule if and only if the password found at the start is not too short |
| Password.ShortDisagrees | crates/transport-http/src/password.rs:86-93 | Constructs the schedule in which a too short file, current or former, leaves two processes with different passwords |
| Password.NobodyFails | crates/transport-http/src/password.rs:48-97 | In a writable directory with a sendable or absent password and no bad variable no process ends in an error, and a process reports the variable exactly if it is set to more than blanks |
| Password.EveryoneFinishes | crates/transport-http/src/password.rs:132-163 | From every start, too short files included, every process finishes after at most 11 of its own operations whatever the others do, and then no temporary file is left |
| PasswordOutcomes.OneCreates | crates/transport-http/src/password.rs:143-149 | From a writable directory without a password, once all processes have ended, exactly one of those that rely on the file reports created, its password is the one it drew and what the file holds, and all others report it as found |
| PasswordOutcomes.OneMigrates | crates/transport-http/src/password.rs:60-86 | From a writable directory with only a sendable former file, exactly one process reports migrated, the file has moved as it was, and all others that rely on it report it as found |
| PasswordOutcomes.AllFind | crates/transport-http/src/password.rs:79-86 | With a sendable password in place, every process that relies on the file reports it as found, and the file stays |
| PasswordOutcomes.StartsAlone | crates/transport-http/src/password.rs:48-97 | Every case of a single process in a writable directory: what it reports, with which flags, and what the directory holds afterwards, too short files included |
| PasswordOutcomes.SendableMeans | crates/transport-http/src/password.rs:29-42 | A password can be sent exactly if it has at least 12 characters, all printable ASCII without blanks |
| Password.StepAgreeing | crates/transport-http/src/password.rs:58-97 | Each file operation of any process keeps the protocol invariant, and a password once in place is never replaced |
| Password.OwnStep | crates/transport-http/src/password.rs:58-97 | One operation keeps what its process may assume about the directory, never changes a password in place, and claims the password only when none was there |
| Password.OwnTmp | crates/transport-http/src/password.rs:138-153 | Whatever the directory holds, a process has a temporary file with its own secret exactly between writing and unlinking it, and touches no other |
| Password.MigrateLegacy | crates/transport-http/src/password.rs:58-78 | Run alone, moving the former file into place, or reading it where it cannot be moved, ends as the step machine does |
| Password.EnvDecides | crates/transport-http/src/password.rs:52-57 | A process ends by its variable exactly if that is set to more than blanks, and its settings never change |
| Password.EnsureDashboardPassword | crates/transport-http/src/password.rs:48-97 | Run alone, the function performs the same operations as the step machine and ends with the same outcome and directory, short, unreadable and read-only cases included |
| Password.CreateIfAbsent | crates/transport-http/src/password.rs:132-163 | Run alone, writing, linking, unlinking and reading the winner end as the step machine does |
| Password.Directory.RenameLegacy | crates/transport-http/src/password.rs:61-75 | Renaming replaces the target and fails when the old file is gone or the directory is read-only |
| Password.Directory.LinkTmp | crates/transport-http/src/password.rs:145-146 | Linking succeeds exactly if the target is absent and then gives it the temporary file's content |
| WriteBehind.MirrorsRefineDatabase | crates/store/src/db.rs:607-743 | In every reachable state each vendor total and each client counter is the table entry plus the writes still on their way, and exists exactly if one of the two does |
| MeteredCalls.CreditsAreAttributed | crates/store/src/db.rs:708-743 | From opening a database with attributed credits (an empty one, say), in every interleaving of metering calls with everything else, a non-empty client's credits and what calls in progress still owe it make up exactly the usage rows attributed to it, stored or outstanding; with no call between its two updates they are equal |
| MeteredCalls.ClosedIsAttributed | crates/store/src/db.rs:209-216 | Closing the store when no call is in progress leaves a database whose credits are attributed again and whose entries are not negative |
| MeteredCalls.StepSettles | crates/store/src/db.rs:708-724 | Each update of a metering call, and each other step, leaves credits and debts together unchanged against the attributed rows |
| MeteredCalls.CallsAreActions | crates/store/src/db.rs:708-743 | A run of metering calls is one of the interleaved runs of mirror updates, writes and worker steps |
| MeteredCalls.EmptyIsAttributed | crates/store/src/db.rs:244-255 | A new database is attributed |
| WriteBehind.WholeAdd | crates/store/src/db.rs:708-743 | Uninterrupted, the updates and writes of one metering call, vendor total first and client write first, are the store's method |
| WriteBehind.ReloadRebuildsMirrors | crates/store/src/db.rs:209-216 | Draining the queue on close and loading the database again gives exactly the mirrors the process had |
| WriteBehind.OpenRunReopen | crates/store/src/db.rs:248-279 | The same from opening a database through any run of calls and worker steps to opening it again; what closing leaves can be opened in turn |
| WriteBehind.LoadedIsConsistent | crates/store/src/db.rs:836-899 | A loaded database starts consistent, rows with unreadable windows included |
| WriteBehind.ReloadNeedsCastable | crates/store/src/db.rs:736 | Over any run from opening a database with 64-bit amounts, closing and loading again rebuilds both mirrors if and only if every amount is below 2^63, because the columns are signed |
| WriteBehind.StepGaps | crates/store/src/db.rs:607-743 | Each action moves a mirror away from the database by exactly what the cast to a signed column takes off its amount |
| WriteBehind.RunNonNegative | crates/store/src/db.rs:607-743 | No run makes a mirrored counter negative |
| WriteBehind.WholeCall | crates/store/src/db.rs:292-305 | A store method is its mirror update followed by queueing its writes, so a run of methods is one of the interleaved runs |
| WriteBehind.ApplyTally | crates/store/src/db.rs:663-684 | One upsert job adds to the tables exactly what it stood for in the queue |
| Persistence.Store.constructor | crates/store/src/db.rs:248-255 | Opening loads both mirrors from the tables |
| Persistence.Store.AddUsage | crates/store/src/db.rs:708-743 | Adds to the vendor total and, if attributed, to the client's credits, and queues the client write before the usage write |
| Persistence.Store.AdmitClient | crates/store/src/db.rs:607-643 | Answers "daily requests" exactly if the day's requests have reached their limit, "monthly credits" exactly if not and the month's credits have reached theirs, and otherwise admits and counts one request in day and month |
| Persistence.Store.CountBoth | crates/store/src/db.rs:634-661 | The loop over both windows counts the bump once in each and queues one write |
| Persistence.Store.RecordThrottled | crates/store/src/db.rs:646-661 | Counts one throttled call in day and month |
| Persistence.Store.BumpClient | crates/store/src/db.rs:663-684 | Queues one client upsert with the text forms of its windows |
| Persistence.Store.Submit | crates/store/src/db.rs:292-305 | Queues a write last |
| Persistence.Store.Work | crates/store/src/db.rs:257-265 | The worker applies the oldest write |
| Persistence.Store.Close | crates/store/src/db.rs:209-216 | Closing applies every queued write in order and touches no mirror |
| Persistence.Store.Total | crates/store/src/db.rs:745-753 | Reads the mirror; a missing entry is 0 |
| Persistence.Store.Breakdown | crates/store/src/db.rs:756-799 | Reads, behind every write queued before, an amount for exactly the attributions that have a row in the vendor's window |
| Persistence.RowReadsBack | crates/store/src/db.rs:726-739 | What is written under an attribution is read back as that attribution |
| Persistence.RowTells | crates/store/src/db.rs:781-799 | Every row of a vendor's window is the one written under the attribution it reads as |
| WriteBehind.BreakdownSums | crates/store/src/db.rs:756-799 | With no call in progress the amounts of a vendor's breakdown sum to its total in the mirror |
| WriteBehind.LoadedNeverNegative | crates/store/src/db.rs:836-899 | Whatever the tables hold, nothing is loaded as negative |
| Windows.WKeyRoundTrip | crates/store/src/db.rs:88-100 | A text parses to a window if and only if it is that window's own text |
| Windows.WindowsAreCalendar | crates/routing/src/store.rs:16-22 | Two instants share a day window exactly on one UTC date and a month window exactly in one calendar month (years 0 to 9999) |
| Windows.DayWithinMonth | crates/routing/src/store.rs:16-22 | A day's text starts with its month's text |
| Windows.WindowsAreIntervals | crates/routing/src/store.rs:16-22 | Time that has left a day or a month does not return to it |
| Windows.EpochTexts | crates/routing/src/store.rs:16-22 | The texts of the first day of the epoch and of its month |
| Counters.MeteringConserves | crates/routing/src/state.rs:396-416 | Over every interleaving of the single updates of metered requests a vendor's month total falls short of the sum of its days exactly by requests that have totalled only their day, and a window's rows fall short of its total exactly by those between the two; with none in flight all are equal |
| Counters.StepBalances | crates/routing/src/store.rs:63-76 | Each single update of a total or a row keeps that balance |
| Counters.WholeRequest | crates/routing/src/state.rs:396-416 | A request that runs alone is its four updates in a row |
| Counters.EmptyBalances | crates/routing/src/store.rs:57-60 | Empty counters are balanced |
| Counters.QuotaSink.RecordRequest | crates/routing/src/state.rs:396-416 | Charges the day and then the month of one instant with what the operation costs under the configuration in force |
| Counters.QuotaSink.Swap | crates/routing/src/router.rs:170-172 | A reload replaces the configuration that later charges use |
| Counters.InMemoryCounterStore.AddUsage | crates/routing/src/store.rs:63-76 | Raises one total and one row by the amount and no other |
| Counters.InMemoryCounterStore.Total | crates/routing/src/store.rs:78-85 | Reads the total; a missing entry is 0 |
| Counters.InMemoryCounterStore.Breakdown | crates/routing/src/store.rs:87-95 | Lists an amount for exactly the attributions charged in one vendor's window, and the amounts sum up to the window's rows, hence to its total when nothing is in flight |
| BreakerHistory.BreakerIsHistory | crates/routing/src/state.rs:201-215 | For every vendor but the composite one and every interleaving: the breaker is closed with count k exactly when the trailing run of failures is k and below the threshold, health shows that run capped at the threshold, a tripped breaker has admitted at most one request since its last outcome, and half-open without a probe never occurs |
| BreakerHistory.AdmittedExactly | crates/routing/src/state.rs:201-215 | The next request is admitted exactly if the breaker is not tripped, or nothing was admitted since the last recorded outcome and a full cooldown has passed since it |
| BreakerHistory.BreakerExplained | crates/routing/src/state.rs:278-342 | After every history the breaker is the one the outcomes and admissions call for, with its reopening instant |
| BreakerHistory.CompositeAlwaysClosed | crates/routing/src/state.rs:278-342 | The composite vendor is always closed and always let through |
| BreakerHistory.VendorsIndependent | crates/routing/src/state.rs:195-198 | Only a vendor's own events matter to its state |
| BreakerHistory.OutcomesCounted | crates/routing/src/state.rs:278-342 | The success and failure counters count each outcome once |
| BreakerHistory.ExhaustedIsLastMark | crates/routing/src/state.rs:218-228 | After every history the guard shuts a vendor out as exhausted exactly until the end of its latest mark, whether an error or a header set it |
| BreakerHistory.MarkLasts | crates/routing/src/state.rs:296-354 | How long each error and header marks a vendor: as long as it asks for, else ten seconds, a minute or an hour, and never the composite vendor for an error |
| BreakerHistory.RemembersLast | crates/routing/src/state.rs:278-356 | The last error and the last headers shown are those of the last event of their kind |
| RoutedHistory.RoutingIsHistory | crates/routing/src/router.rs:200-336 | Whatever the strategy, screening an order and trying its first n candidates extends the history of the vendors by the request's own events, so the statements about histories hold over every sequence of requests |
| RoutedHistory.ProbeIsLostIff | crates/routing/src/router.rs:200-336 | A tripped vendor that becomes a candidate is refused by its breaker in all later requests, until something else records an outcome for it and however much time passes, if and only if the request made no try at it: it was not reached, or the local rate limit refused every attempt |
| RoutedHistory.OutstandingIffUntried | crates/routing/src/router.rs:254-335 | After a request an admission of one of its candidates is outstanding exactly if no try at it was made |
| RoutedHistory.UnreachedProbeIsLost | crates/routing/src/router.rs:352-376 | A tripped candidate that is not reached because an earlier one settled the request is shut out |
| RoutedHistory.LimitedProbeIsLost | crates/routing/src/router.rs:285-302 | A tripped candidate whose every attempt the local rate limit refuses is shut out too |
| RoutedHistory.UnreachedExample | crates/routing/src/router.rs:340-378 | A failover over two vendors succeeds through the first and shuts out the second, whose probe was due |
| RoutedHistory.LimitedExample | crates/routing/src/router.rs:340-378 | A failover over two vendors succeeds through the second and shuts out the first, whose due probe the local rate limit refused |
| RoutedHistory.ClaimedProbeBlocks | crates/routing/src/state.rs:201-215 | A tripped vendor that has admitted a probe is refused until an outcome is recorded |
| Runtime.RuntimeState.constructor | crates/routing/src/state.rs:185-193 | A threshold of 0 counts as 1 |
| Runtime.RuntimeState.BreakerAllows | crates/routing/src/state.rs:201-215 | Lets a closed breaker through, turns an open one past its cooldown into a single probe, and refuses otherwise |
| Runtime.RuntimeState.QuotaBlock | crates/routing/src/state.rs:218-240 | Blocks an exhausted vendor first, then, unless overage is allowed, one whose day or month has reached the enforced budget |
| RoutingMeaning.GuardMeans | crates/routing/src/state.rs:218-240 | Exhausted exactly while the mark lasts; else reserve exactly if overage is not allowed and the day or the month has reached its enforced figure; else nothing |
| Runtime.RuntimeState.Record | crates/routing/src/state.rs:278-342 | Updates breaker, counters and exhaustion marks of one vendor from one result |
| Runtime.RuntimeState.RecordRateLimit | crates/routing/src/state.rs:344-356 | Marks the vendor exhausted when a header reports nothing left or a retry delay |
| Runtime.RuntimeState.ReadHealth | crates/routing/src/state.rs:358-385 | Shows the counters, the failures (the threshold when not closed), a mark only while it lasts, and both totals |
| TokenBuckets.RateBound | crates/routing/src/state.rs:115-130 | In any sequence of takes, timestamps in any order, the grants between two points are at most one burst plus the refill of the bucket time between them, and the tokens stay between 0 and the burst |
| TokenBuckets.RunBalance | crates/routing/src/state.rs:115-130 | Tokens held plus grants never exceed what was held and what elapsed time added |
| TokenBuckets.WaitIsExact | crates/routing/src/state.rs:115-130 | A refused take removes nothing, and its wait is the least delay after which an uncontended retry is granted, if and only if the take was not timestamped before the bucket's last update |
| TokenBuckets.TokenBucket.Take | crates/routing/src/state.rs:115-130 | Refills up to the burst, never moves its clock back, and takes a token or reports the wait |
| TokenBuckets.Limit.Acquire | crates/routing/src/state.rs:151-167 | An uncontended wait sleeps at most once, succeeds exactly if the advertised wait fits, and takes exactly one token or none |
| TokenBuckets.SleepsFit | crates/routing/src/state.rs:151-167 | However others take meanwhile and however long sleeps last, the waits a caller agrees to never add up to more than its maximum, and every try that ends in sleep is made before that |
| TokenBuckets.Limit.constructor | crates/routing/src/state.rs:141-148 | A limit of n per period starts full with burst n |
| Overshoot.OvershootBounded | crates/routing/src/state.rs:218-240 | With at most K requests between the guard and their end, each metering at most S units, no daily or monthly total ever exceeds its enforced budget minus 1 plus K times S, in every interleaving of reads, charges and a forward clock |
| Overshoot.OvershootAttained | crates/routing/src/state.rs:218-240 | The bound cannot be improved: from a day one unit below its limit, K requests of S units each take it exactly there |
| Overshoot.StepWindowBounded | crates/routing/src/state.rs:396-416 | Each atomic read, charge, end of a request or tick keeps a window's total and what is still to come below that bound |
| Overshoot.TickBounded | crates/routing/src/state.rs:223-235 | A window that begins has room for everything in flight |
| Overshoot.UninterruptedGuard | crates/routing/src/state.rs:227-238 | Without interruption the guard's two reads pass exactly when its budget check does not block |
| Quota.DashboardAgreesWithGuard | crates/store/src/quota.rs:408-467 | Right after reconciling, for every configuration that loads, the router's budget check finds the budget used up exactly if the dashboard shows the day or the month as closed to routing |
| Quota.BlockedIsShown | crates/store/src/quota.rs:408-467 | Even without reconciling, whatever the budget check blocks is shown as closed |
| Quota.ReconciledToHighest | crates/store/src/quota.rs:259-286 | After reconciling, a day or month total is the highest of the local count and every comparable report |
| Quota.ReconcileTwice | crates/store/src/quota.rs:259-286 | Reconciling the same report again changes nothing and queues nothing |
| Quota.ReconcileTouchesOnly | crates/store/src/quota.rs:259-286 | No other vendor, window or client counter moves |
| Quota.ShownIffReached | crates/store/src/quota.rs:443-467 | A day or month is shown as closed exactly if the highest comparable reading reaches what routing enforces |
| Quota.BestIsHighest | crates/store/src/quota.rs:443-447 | The reading chosen for a window is the highest of the local count and every comparable report |
| Quota.RowMeans | crates/store/src/quota.rs:443-467 | A row is used up exactly if the vendor's limit is reached, reserved exactly if only the enforced figure is, a warning exactly if neither is and the least alert percentage is; its figure is the highest comparable reading |
| Quota.BestMeans | crates/store/src/quota.rs:443-447 | The reading chosen is the highest comparable one, the vendor's own on a tie, and there is one exactly if anything is comparable |
| Quota.RowsMean | crates/store/src/quota.rs:377-485 | A window has a row exactly if something is configured for it or some reading is not zero |
| Quota.SourcesMean | crates/store/src/quota.rs:408-435 | The readings of a window are our own count, for a day or a month, and each report of its kind, comparable in our unit |
| Quota.Reconcile | crates/store/src/quota.rs:259-286 | The loop over the reported windows raises each comparable calendar total to the report, in order |
| Quota.ReadSources | crates/store/src/quota.rs:413-435 | Lists the local count first and then each report of the window's kind with its comparability |
| Quota.ReadWindows | crates/store/src/quota.rs:377-485 | Builds a row for each of the four windows unless nothing is configured and nothing used |
| Budgets.EffectiveIsSound | crates/config/src/resolve.rs:254-281 | Whatever the operator configures, routing never allows more than the vendor's limit or the cap in any window, and enforces something exactly if one of them is set |
| Budgets.EffectiveMeans | crates/config/src/resolve.rs:254-281 | The enforced rates are the least of cap and limit, the enforced days and months the least of cap and unreserved share, with the operator's limit before the registry's, a reserve of ten percent and skipping unless set otherwise |
| Budgets.CostMeans | crates/config/src/resolve.rs:284-298 | The operator's price stands over the registry's, that over its default, and an unknown vendor costs 1 |
| Budgets.MinOptIsGreatest | crates/config/src/resolve.rs:64-66 | The combined bound is the greatest number below both, and missing only when both are |
| Budgets.KeepIsShare | crates/config/src/resolve.rs:262 | The kept part of a limit is its unreserved share rounded down unless the product overflows, and never exceeds it |
| Admissions.CallsAreConserved | crates/store/src/hosted.rs:108-158 | In every interleaving each finished call of an active client has raised exactly one of requests or throttled by one, in its day and in its month |
| Admissions.DailyQuotaHolds | crates/store/src/db.rs:607-643 | With fixed limits no client's requests in a day ever exceed its daily limit (or what it started with) |
| Verdicts.MonthlyQuotaHolds | crates/store/src/db.rs:632-634 | From the moment a client's credits of a month have reached its limit no further call of that client in that month is accepted, in every interleaving |
| Verdicts.AcceptedExactly | crates/store/src/db.rs:624-641 | A step accepts a call exactly if it has passed its rate and the day's requests and the month's credits are below their limits |
| Verdicts.AdmissionVerdict | crates/store/src/hosted.rs:108-158 | What an active client's call is told, in terms of rate, the day's requests and the month's credits, and that exactly one request or one throttled call is counted for it |
| Verdicts.OutsideAdmission | crates/store/src/hosted.rs:109-116 | Local callers pass, unknown and revoked clients are turned away, and none of them is counted |
| Verdicts.UninterruptedCall | crates/store/src/hosted.rs:108-158 | A call that nothing interrupts goes through the interleaved steps and ends as the whole admission does |
| Verdicts.RateHolds | crates/store/src/hosted.rs:85-97 | However often a client calls, at most its rate plus the refill gets through: not more than twice the rate within a minute of its bucket's clock; other clients' buckets are left alone |
| Verdicts.FirstCall | crates/store/src/hosted.rs:86-94 | A rate of 0 lets nothing through and asks for a minute; any other lets a client's first call through |
| Admissions.AdvanceBalanced | crates/store/src/hosted.rs:108-158 | Each atomic step of a call keeps the count of accepted calls as requests and of rejected ones as throttled |
| Hosted.ClientGuard.Admit | crates/store/src/hosted.rs:108-158 | Lets local callers pass, refuses unknown and revoked clients, then checks rate, daily and monthly quota in that order and counts every refusal by them |
| Hosted.ClientGuard.Take | crates/store/src/hosted.rs:85-97 | Takes one token from the client's own bucket, made full on first use; a rate of 0 refuses without one |
| Hosted.RetryAfter | crates/store/src/hosted.rs:96 | The wait in whole seconds: the least whole number that covers it, at least 1 |
| Hosted.RetryWithinAMinute | crates/store/src/hosted.rs:85-97 | A refusal by rate never asks for more than a minute |
| Hosted.LimitsByField | crates/config/src/settings.rs:184-194 | Each limit comes from what is stored with the client, else from its configuration, else from the default |
| Strategies.FailoverDecided | crates/routing/src/router.rs:340-378 | Failover succeeds exactly if some candidate answers and every one before it let the request go on; the first candidate that settles it decides the result, and nothing after it is tried |
| RoutingMeaning.SettledBy | crates/routing/src/router.rs:340-378 | If all before candidate k are down, limited, out of quota or unable: an answer of k is returned under its name, and an invalid request, a fatal error or an unconfirmed "not found" ends the request there with its own code |
| RoutingMeaning.SecondNotFound | crates/routing/src/router.rs:369-374 | With confirmation a first "not found" sends the request on and a second ends it |
| RoutingMeaning.LeavesOpenGoesOn | crates/ports/src/error.rs:34-43 | Failover goes on after exactly these answers: down, limited, out of quota, unable, and a first "not found" that needs confirmation |
| RoutingMeaning.FailoverRunsOut | crates/routing/src/router.rs:340-378 | If everybody is down, limited, out of quota or unable, everybody was asked and the last one's error ends the request |
| RoutingMeaning.NobodyAnswered | crates/routing/src/router.rs:599-658 | The code when nobody answered: the last one's own words, "unsupported" only if all said so, and "all providers failed" for those that are down |
| RoutingMeaning.TrailMeans | crates/routing/src/router.rs:563-576 | The trail lists the skipped vendors and then each candidate tried, with its name, how its attempt went and the code of its error |
| Strategies.NotFoundIsConfirmed | crates/routing/src/router.rs:369-372 | With confirmation asked for, "not found" before the candidates run out takes two such answers |
| Strategies.PrimaryIffHeadAnswers | crates/routing/src/router.rs:579-597 | A failover's answer is marked primary exactly if nothing refuses the head of the order and its attempt answers |
| Strategies.NotFoundAtOnce | crates/routing/src/router.rs:373-374 | Without confirmation the first "not found" settles the request |
| Strategies.ExhaustedMeaning | crates/routing/src/router.rs:599-658 | The error of a failover that ran out: "unsupported" exactly if nobody could be asked or the last one asked and every other vendor that failed itself said so; otherwise the last candidate's own words or a general failure |
| Strategies.NoBareFailure | crates/routing/src/router.rs:603-624 | An error without a last answer means nobody was asked, so the "all providers failed" arm for it is reached by no strategy |
| Strategies.CollectsFirst | crates/routing/src/router.rs:512-560 | Collecting yields exactly the first min(n, k) of the k candidates that would answer, in configured order, and beyond the first wave tries only the shortest prefix needed |
| Strategies.QuorumVerdict | crates/routing/src/router.rs:383-434 | For n of at least 1: success exactly if somebody answered and the collected keys are all equal, conflict exactly if they differ, and fewer agreeing than required only when every candidate was tried |
| RoutingMeaning.QuorumProvenance | crates/routing/src/router.rs:405-434 | A quorum's answer is the first in configured order and named after it; it is an aggregate once two agree, otherwise primary exactly if that vendor heads the order; a conflict keeps every row of the trail |
| RoutingMeaning.QuorumUnanswered | crates/routing/src/router.rs:399-401 | A quorum that nobody answers asked everybody and ends with the last error |
| RoutingMeaning.AggregateVerdict | crates/routing/src/router.rs:438-461 | An aggregate gives the first min(n, k) of the k answers in configured order and fails exactly if there is none, having asked everybody |
| RoutingMeaning.SuccessesMean | crates/routing/src/router.rs:541-557 | The answers collected are those of the candidates that answered, each under its name |
| Strategies.SkippedFirstKeepsRows | crates/routing/src/router.rs:412 | Reordering the trail of a conflict loses no row |
| Strategies.SkippedFirstMeans | crates/routing/src/router.rs:412 | In the reordered trail the skipped rows come first and both sides keep their order |
| Strategies.Failover | crates/routing/src/router.rs:340-378 | The loop returns the verdict of the first settling candidate, with the trail up to it, and records only what was tried |
| Strategies.CollectN | crates/routing/src/router.rs:512-560 | The first wave and the backfill loop return the answers, trail and last error of exactly the candidates tried |
| Strategies.JoinAll | crates/routing/src/router.rs:533-540 | Attempts a wave of candidates; results stand in configured order |
| Strategies.Gather | crates/routing/src/router.rs:541-547 | Sorts the results of a wave into answers, trail and last error |
| Strategies.Quorum | crates/routing/src/router.rs:383-434 | Returns the verdict on the collected answers |
| Strategies.AggregateAnswers | crates/routing/src/router.rs:438-461 | Returns the collected answers, an error only if nobody answered |
| Strategies.FanOut | crates/routing/src/router.rs:465-509 | Tries every candidate, succeeds exactly if one of them answers, returns all results in order and names the first that answered |
| Attempts.ChooseCandidates | crates/routing/src/router.rs:200-269 | The loop applies status, port, quota guard and breaker in that order, and claims a probe only for a vendor that passed the others |
| Attempts.CandidatesAreUsable | crates/routing/src/router.rs:200-269 | For an order without repetitions the candidates are exactly the vendors that nothing refuses at the start of the request, in configured order |
| RoutingMeaning.CandidateMeans | crates/routing/src/router.rs:200-269 | A vendor of the order is asked exactly if it is active, has a port, is not marked, has budget left and its breaker lets it through |
| RoutingMeaning.RefusalMeans | crates/routing/src/router.rs:219-262 | The reason in a skipped row is the first that applies, in the order of the checks |
| Attempts.ScreeningPartitions | crates/routing/src/router.rs:200-269 | Every vendor of the order is a candidate or has a skipped row, as often as it stands in the order |
| Attempts.Attempt | crates/routing/src/router.rs:272-336 | A vendor is called until an answer is not transient or the retries are used up; every try is recorded, and a locally limited vendor is not called at all |
| Attempts.AttemptOutcomes | crates/routing/src/router.rs:302-335 | An attempt answers exactly if it was granted and some try within the allowance answers after only transient errors; a transient error is reported exactly if every try ended in one, and any other answer at once |
| TtlCaches.HitsAreLatest | crates/app/src/app.rs:240-277 | In every run the cache keeps to its size, and a hit is the value last stored under the key, not yet expired |
| TtlCaches.LookupsExact | crates/app/src/app.rs:240-277 | If the live keys never outnumber the cache, every lookup of a run answers as an unbounded cache would |
| TtlCaches.StoreAgreesIff | crates/app/src/app.rs:252-277 | A store keeps the two caches in agreement if and only if the keys then alive fit |
| TtlCaches.StepWithin | crates/app/src/app.rs:240-277 | Each operation keeps the size and holds nothing the unbounded cache does not |
| TtlCaches.HitMeans | crates/app/src/app.rs:240-277 | A hit is the value of the last store under its key, made less than that store's lifetime ago |
| TtlCaches.DropsSoonest | crates/app/src/app.rs:260-275 | A live entry is dropped only from a full cache for a new key, after all expired ones, at most one, and never one that would outlive another that is kept |
| TtlCaches.StoreMeans | crates/app/src/app.rs:252-277 | A store past the end of the clock or into a cache of size 0 changes nothing; otherwise the entry is there, the rest that remains is unchanged, and nothing is missing if there was room |
| TtlCaches.TtlCache.Get | crates/app/src/app.rs:240-250 | Serves an entry until its expiry and drops it when found expired |
| TtlCaches.TtlCache.Insert | crates/app/src/app.rs:252-277 | Ignores a lifetime past the end of the clock and a cache of size 0; makes room only when full and the key is new, by expired entries first and then one of those soonest to expire |
| MarketHours.LastOpenIsSupremum | crates/protocols/src/market_hours.rs:154-164 | The result always exists and is the supremum of the open instants up to t: t itself while open, otherwise nothing from it to t is open and the seventeen hours before it are |
| MarketHours.LastOpenMonotone | crates/protocols/src/market_hours.rs:154-164 | The last open moment never moves back |
| MarketHours.StaleMeans | crates/protocols/src/market_hours.rs:166-174 | While the market is open, stale means older than allowed; while it is closed, having reached that age at some open moment before |
| MarketHours.StaleMonotone | crates/protocols/src/market_hours.rs:169-174 | Once stale, a reading stays stale until updated |
| MarketHours.StaleConstantWhileClosed | crates/protocols/src/market_hours.rs:166-174 | While the market stays closed time passing changes no verdict |
| MarketHours.UtcRoundTrip | crates/protocols/src/market_hours.rs:110-124 | Converting to local time and back is exact but for the one UTC hour after daylight saving ends |
| MarketHours.LocalRoundTrip | crates/protocols/src/market_hours.rs:110-124 | Converting from local time and back is exact but for the hour the spring transition skips |
| MarketHours.Boundary | crates/protocols/src/market_hours.rs:115-124 | From 03:00 local time on, comparing local times is comparing instants |
| MarketHours.TransitionsClosed | crates/protocols/src/market_hours.rs:100-107 | Both clock changes, with half a day on either side, fall in closed time |
| MarketHours.OpenIntervals | crates/protocols/src/market_hours.rs:127-150 | The open instants are the disjoint union over the trading days of the intervals from the evening before to the end of post-market trading |
| MarketHours.OpenWithinTradeDate | crates/protocols/src/market_hours.rs:127-150 | An instant is open exactly if its trading date trades and has not ended |
| MarketHours.SessionsInOrder | crates/protocols/src/market_hours.rs:143-149 | Within a trading date the sessions follow each other in order |
| MarketHours.SomethingEnded | crates/protocols/src/market_hours.rs:158-163 | The search over 14 days always finds a session that has ended |
| MarketHours.TradingDayWithinAWeek | crates/protocols/src/market_hours.rs:32-53 | The built-in holidays leave a trading day in every week |
| MarketHours.HolidayNotOnTuesday | crates/protocols/src/market_hours.rs:32-53 | No built-in holiday falls on a Tuesday |
| MarketHours.HolidayRules | crates/protocols/src/market_hours.rs:31-53 | The built-in holidays of both years are the fixed dates as observed, the right weekdays of their months and a Friday around Easter |
| MarketHours.NthSundayIsSunday | crates/protocols/src/market_hours.rs:93-98 | The n-th Sunday is a Sunday and the n-th of its month |
| MarketHours.SpringForward | crates/protocols/src/market_hours.rs:100-114 | New York clocks jump from 02:00 to 03:00 on the second Sunday of March |
| MarketHours.FallBack | crates/protocols/src/market_hours.rs:100-114 | New York clocks go back from 02:00 to 01:00 on the first Sunday of November |
| MarketHours.EarlyCloses | crates/protocols/src/market_hours.rs:55-91 | Each early close is a trading day beside a holiday, with regular trading until 13:00 and the end at 17:00 |
| MarketHours.NormalCloses | crates/protocols/src/market_hours.rs:84-91 | On all other days regular trading ends at 16:00 and everything at 20:00 |
| Amounts.ParseFormat | crates/domain/src/amount.rs:43-79 | Printing then parsing returns the amount, for every count below 2^256 and every scale |
| Amounts.FormatParse | crates/domain/src/amount.rs:43-79 | Parsing then printing turns every accepted text into the only canonical text of its value |
| Amounts.ParseExact | crates/domain/src/amount.rs:43-62 | A trimmed plain decimal is accepted exactly if it has at most the scale's fraction digits and fits 256 bits, and the result is the one count it denotes, never rounded |
| Amounts.ParseRejects | crates/domain/src/amount.rs:51-57 | A text that spells no plain decimal is refused |
| Amounts.CanonicalIsUnique | crates/domain/src/amount.rs:64-79 | Two canonical texts of one value are the same text |
| Amounts.FormatInjective | crates/domain/src/amount.rs:65-79 | At one scale no two amounts print alike |
| Amounts.AddThenSub | crates/domain/src/amount.rs:97-116 | Subtraction undoes addition, mixed scales are refused, and nothing wraps |
| Amounts.AddMeans | crates/domain/src/amount.rs:97-116 | Sums and differences are those of the counts at the common scale, or an overflow, or none |
| Edits.EditsTakeEffect | crates/config/src/edit.rs:61-102 | If edits of which none is above another are accepted, the effective configuration reads back at each edited path as exactly the JSON value asked for, as nothing where one was removed, and is unchanged at every path incomparable to all of them; the files stay divided |
| Edits.AcceptedIff | crates/config/src/edit.rs:61-102 | Such edits are accepted if and only if no path is locked or empty, no value stands above any of them, TOML can hold every value and the merged result is valid |
| Edits.RefusedFor | crates/config/src/edit.rs:66-100 | A plan is refused for locked paths first, then for an empty path, then for the first edit that cannot be made, and last for its result |
| Edits.EditsCanBeMade | crates/config/src/edit.rs:90-97 | Independent edits can all be made exactly if each can be made in the files as they are |
| Edits.ReadsBack | crates/config/src/edit.rs:142-180 | What is stored reads back as the JSON value that was given, at every depth |
| Edits.ConvertibleMeans | crates/config/src/edit.rs:142-180 | A value can be set exactly if a tree of truth values, texts, signed 64-bit integers, arrays and tables reads as it; nulls and other numbers cannot, however deep inside |
| Edits.LockedIssuesMean | crates/config/src/edit.rs:66-79 | The issues of a locked plan name exactly the locked paths among the edits |
| Edits.SetPathIssue | crates/config/src/edit.rs:116-139 | A path that is obstructed is reported as such before its value is looked at |
| Edits.PlanEdits | crates/config/src/edit.rs:61-102 | Refuses locked paths first, then empty ones, then the first edit that cannot be made, then a result that does not validate; otherwise returns the edited files and their merge |
| Edits.FindLocked | crates/config/src/edit.rs:66-79 | Lists every edit whose path the environment decides |
| Edits.EditFiles | crates/config/src/edit.rs:90-97 | Makes the edits in order, each in its own file, and stops at the first that fails |
| Edits.SetPathLookup | crates/config/src/edit.rs:111-140 | After an edit of a file the path reads back as exactly what was asked for and every incomparable path holds what it did |
| Edits.SetPathFails | crates/config/src/edit.rs:111-180 | An edit of a file fails exactly if a value stands in the way or TOML cannot hold what is to be set |
| Edits.LockedIsRefused | crates/config/src/edit.rs:66-79 | An edit at, above or below a path that the environment sets is refused and named |
| Configs.EnvLayer | crates/config/src/loader.rs:202-258 | The loops leave exactly the tree and the locked paths of the settings in order: legacy prefix, new prefix, vendor keys, RPC URL |
| Configs.EnvPrefixed | crates/config/src/loader.rs:211-225 | The loop over the variables inserts and locks every well-formed path with the prefix |
| Configs.EnvKeys | crates/config/src/loader.rs:233-241 | The loop over the key variables inserts and locks every one that is set and not blank |
| Configs.LayerCovered | crates/config/src/loader.rs:202-258 | Every value of the environment layer lies at or below a locked path, and every table of it above or below one |
| Configs.UnlockedIsClear | crates/config/src/loader.rs:119-125 | Where a path is not locked the environment contributes nothing and stands in nobody's way |
| Configs.ComparableIsPrefix | crates/config/src/loader.rs:119-125 | The lock check compares paths as prefixes of one another |
| Configs.LastSettingWins | crates/config/src/loader.rs:209-228 | A setting that no later comparable one follows is what the layer holds, so the new prefix wins over the legacy one |
| Configs.InsertLookup | crates/config/src/loader.rs:299-319 | After inserting, the path holds the value, everything above it is a table, and every incomparable path is unchanged |
| Configs.MergeKeeps | crates/config/src/loader.rs:155-158 | A later layer that is clear at a path leaves the earlier value there |
| Configs.MergeSame | crates/config/src/loader.rs:155-158 | What a merge holds at a path depends on the earlier layer only by what that holds there |
| Configs.TypedNumber | crates/config/src/loader.rs:287-296 | An unsigned 64-bit number printed in decimal is read back as that number |
| Environment.TypedMeans | crates/config/src/loader.rs:287-296 | A value is read as a truth value or a 64-bit number exactly where its trimmed text is one, and as that text otherwise |
| Environment.GetVarMeans | crates/config/src/loader.rs:99-104 | A variable has a value exactly if it is set to more than blanks |
| Environment.NameSetsPath | crates/config/src/loader.rs:213-216 | The upper-case name made of a path's segments and double underscores sets that path |
| Environment.SettingsMean | crates/config/src/loader.rs:202-258 | The environment sets exactly the paths of well-formed variables under either prefix, the key fields whose variable has a value, and the Ethereum endpoint |
| Environment.LockedMeans | crates/config/src/loader.rs:222-254 | Exactly the paths that some setting speaks of are locked |
| Environment.NewPrefixWins | crates/config/src/loader.rs:209-225 | Where one variable of the new prefix and any of the legacy one set a path, the new one is what the layer holds |
| Environment.EnvironmentWins | crates/config/src/loader.rs:155-158 | Whatever the files hold, the configuration in force has the environment's value at every path it sets last |
| Environment.LaterWins | crates/config/src/loader.rs:155-158 | A later layer's own values are what a merge holds |
| JsonRpc.JsonRpcClient.Batch | crates/adapters/src/jsonrpc.rs:47-82 | For every response array slot i holds the unwrapped last item carrying the i-th id from base, or the missing-item error; an answer that is no array is an error, and no calls take no ids |
| JsonRpc.JsonRpcClient.Request | crates/adapters/src/jsonrpc.rs:38-43 | Takes one id and unwraps the response |
| JsonRpc.JsonRpcClient.FetchAdd | crates/adapters/src/jsonrpc.rs:51-53 | Hands out a range and moves the counter past it, wrapping at 2^64 |
| JsonRpc.PlacedIffLast | crates/adapters/src/jsonrpc.rs:74-80 | Of several items with one id the last counts; without any the answer is missing |
| JsonRpc.SoleItemPlaced | crates/adapters/src/jsonrpc.rs:74-80 | An item that alone carries a call's id ends up in that call's slot, among whatever else |
| JsonRpc.ResultPlaced | crates/adapters/src/jsonrpc.rs:74-97 | If exactly one item is an object with the number sent for a call, a result and no error, that result is the call's answer |
| JsonRpc.NothingPlaced | crates/adapters/src/jsonrpc.rs:71-80 | If no item has the number sent for a call, its answer is a transient failure |
| JsonRpc.UnwrappedMeans | crates/adapters/src/jsonrpc.rs:84-98 | An error that is not null counts before any result, a result counts even if null, and neither is a transient failure |
| JsonRpc.OrderIrrelevant | crates/adapters/src/jsonrpc.rs:74-80 | As long as no id is repeated every permutation of a response fills the slots alike |
| JsonRpc.AnsweredIffNotWrapped | crates/adapters/src/jsonrpc.rs:51-80 | When every call is answered under its own id, its answer reaches its slot exactly if the id has not wrapped around |
| JsonRpc.IdsDisjoint | crates/adapters/src/jsonrpc.rs:51-53 | Callers that draw ranges in any interleaving never share an id as long as no more than 2^64 are handed out |
| JsonRpc.IdsRepeat | crates/adapters/src/jsonrpc.rs:51-58 | Ids are pairwise different if and only if no more than 2^64 are handed out |

## Left out

- Password.PasswordsAgree: a filesystem without hard links (the rename that replaces the link), a concurrent reset and file contents that are not UTF-8 are not modelled; file modes and the creation of the directory neither.
- WriteBehind.MirrorsRefineDatabase: SQL statements are taken to succeed, and sums in the database not to overflow a signed 64-bit integer; amounts are below 2^63, which `WriteBehind.ReloadNeedsCastable` shows to be necessary.
- MeteredCalls.CreditsAreAttributed: amounts are below 2^63, as for `WriteBehind.MirrorsRefineDatabase`.
- Quota.Reconcile: no other call adds usage between reading a total and raising it.
- Counters.MeteringConserves: instants lie in the years 0 to 9999, outside of which the text of a day does not start with the text of its month.
- Overshoot.OvershootBounded: reconciling with vendor reports is not one of the steps, because it may raise a total by any amount; a change of the budget and a clock that is set back are not steps either. Requests count from the start of their guard check, because two requests may pass it before either is charged.
- TokenBuckets.RateBound: rounding of floating-point numbers; buckets are over reals.
- TokenBuckets.Limit.Acquire: the loop itself is modelled without contention, under which it need not end; what holds with it is `TokenBuckets.SleepsFit`. The pair of limits per vendor with its replacement when the parameters change is left out; a token of the first limit is not given back when the second refuses.
- BreakerHistory.BreakerIsHistory: recovery is no theorem, see `RoutedHistory.ProbeIsLostIff` for what holds instead.
- Strategies.CollectN: the first wave is attempted one candidate after the other; each answer is a parameter, so the concurrent order could only change the interleaving of what is recorded.
- Strategies.AggregateAnswers: latencies, chains, timestamps and texts of provenance and errors.
- Attempts.ChooseCandidates: the resolution of the order from operation, chain and defaults, and the health of all vendors.
- Quota.ReadWindows: alerts, projections, reset instants and the extra row for limits reported in headers.
- Hosted.ClientGuard.Admit: texts and the reset instant in the error of an exceeded quota; authentication by key.
- Admissions.CallsAreConserved: limits and the set of active clients do not change during a run.
- Budgets.EffectiveIsSound: an alert percentage, the unit and the reset rule of a budget.
- Edits.EditsTakeEffect: writing a TOML document and parsing it again is taken to be the identity; in truth empty implicit tables are dropped, which lie above edited paths and hold nothing. The nested cursor of `set_path` is a recursion on values, so updating in place, comments and formatting are not captured.
- Edits.PlanEdits: extraction of settings and their validation are one parameter; the variable named in an issue and reading the files are left out.
- Configs.EnvLayer: segments are lower-cased as ASCII, warnings are not collected, and the nested insertion is a recursion on values instead of a moving reference.
- Configs.MergeKeeps: the merge of the configuration library is modelled as tables merging key by key and everything else being replaced.
- JsonRpc.JsonRpcClient.Batch: the classification of an error object by code and message is a parameter; transport, metering of the calls and scrubbing of texts are left out.
- MarketHours.LastOpenIsSupremum: the range limits of the date library; dates are unbounded.
- Amounts.ParseExact: conversion to a fixed-width decimal and serialisation.
- Unsigned 64-bit counters that overflow: counters are unbounded.
- The latency average and the last error's text of a vendor, rate-limit snapshots beyond what the guard reads.
- HTTP, JSON, SQLite, TLS, the scheduler, the admin interface, transports, command line, checksums and signatures, and all vendor adapters.
