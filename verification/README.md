# The LLM security gateway: a model and proofs about it

The gateway stands between API users and language-model providers. Around the chat endpoint it keeps
rate-limit counters, a response cache and a cached security policy in Redis; beside it run scheduled
red-team campaigns, incident correlation, risk exceptions, reports and risk scores on a SQL database.
This project models the parts whose behaviour depends on time, on interleaving or on many inputs, and
proves what they keep.

| Modules | What they model |
|---|---|
| `Calendar`, `CronText`, `SlotSearch`, `NextRun`, `DayRules` | cron and interval schedules: field syntax and its meaning, the Gregorian calendar, the hour-by-hour search for the next run, and crontab's rule for days beside the code's |
| `Dispatch`, `Scheduler` | the worker's polls, queued tasks and commits over any next-run function, and the engine's effect on a schedule |
| `RateLimiter`, `CampaignLock` | Redis protocols as step systems with a clock, key expiry and faulty calls |
| `CacheAside`, `Activation`, `PolicyValidator`, `PolicyCache` | the versioned policy table, its guardrails, cached reads that race with activation, and when an activation takes effect |
| `CampaignRun`, `Comparator`, `Reporter` | campaign execution over a row loaded before the lock, the baseline, the run comparison and the score |
| `RiskExceptions` | the seven-status exception lifecycle, its event log and the expiry sweep |
| `ChatPipeline`, `SemanticCache`, `Gateway` | the chat pipeline over a shared expiring cache, prompt normalisation and cache keys |
| `RequestFlow`, `Endpoint` | policy cache, rate limiter and chat pipeline run together, each request under the policy it loaded |
| `IncidentScoring`, `Incidents`, `Correlation` | incident scores, alert correlation and the incident lifecycle; correlations that interleave |
| `ReportHash`, `GovernanceRisk` | canonical report form and governance score |
| `AsciiText`, `StableSort`, `Collections`, `Scores`, `Common` | Python's string operations, `sorted`, and small shared pieces |

Each Redis call is one atomic step that works, is never sent, or takes effect while its reply is lost;
each database commit is one atomic step. A protocol is a state, a step function and runs of steps, so a
statement about every run covers every interleaving of any number of processes. The classes hold the
code's own methods. For the five protocols with a whole call in them (the limiter's check, the policy
read, a campaign execution, a chat request, a correlation) a lemma says that the call does what its
steps do when nothing comes in between; the lock, exception and other incident methods are single steps.

## What the code does not promise

Each is a lemma with the failing run and, where the code meets the property in some cases, a lemma that
says exactly when.

- Attempts of a schedule can come closer than its period. The worker queues a task at every poll while
  the row is due and the engine never looks at the due time again: a queued task runs the campaign as
  soon as the one before has committed (`QueuedTaskRunsAgain`), and a run that outlasts its period moves
  the due time back (`LateCommitMovesBack`). Attempts come in turn if and only if each begins while the
  row is still due and no attempt younger than one period is uncommitted, and no commit is overtaken by
  a later attempt's (`InTurnExactly`).
- Cron day-of-month and day-of-week are both required, where POSIX crontab takes either once both parts
  are restricted. The two name the same days if and only if the weekday is an asterisk, month and day
  both are, or the fields between them name every day or none (`RulesAgreeExactly`).
- The search looks at 8784 hours, so from midnight of January 1st in any leap year `0 0 1 1 *` misses
  the next New Year and falls back to one day later (`LeapYearMiss`, `RecurringFallsBackExactly`).
- The rate limiter is a fixed window that starts with the first request, although the policy field
  calls it sliding. Counting requests at the instant of their INCR, no interval of one window length
  lets through more than 2 * limit - 1, and that number is reached (`SlidingBound`, `BoundAttained`).
- The limiter can stop for good. A client gets a fresh allowance again if and only if its key is absent,
  has a TTL, or a process that counted 1 has yet to send its EXPIRE (`RecoversExactly`); a lost EXPIRE
  or a lost INCR reply ends that (`TwoWaysToGetStuck`).
- The campaign lock has no owner token. At most one execution is ever inside if and only if nobody
  enters while an execution that outstayed its 300 seconds is inside (`ExclusiveExactly`). A release
  never removes a live lock another execution set if and only if none that outstayed its lock sends its
  DEL while the key is live (`OnlyOwnLocksRemovedExactly`); exclusion alone does not ensure it, because
  the foreign SET may have lost its reply (`ExclusiveRemovesForeignLock`).
- A baseline can be overwritten, even when executions never overlap inside the lock. It survives if and
  only if no execution commits through a row read while there was none (`BaselineSurvivesExactly`).
- Activating a policy deletes the cached copy, but a reader that fetched the old policy beforehand can
  cache it again. The activation is immediate if and only if no reader between query and cache write
  holds another policy and, when the DEL is not sent, no live copy does (`ActivationIsImmediateExactly`).
- The bootstrap's look and insert taken apart keep one row active if and only if the default version
  exists or no row is active by then (`SplitBootstrapExactly`).
- The cache lifetime in a policy is never read: it is the lifetime answers get if and only if it equals
  the environment's (`LifetimesAgreeExactly`).
- A cached answer is not filtered again. It is one its own policy would block if and only if that
  policy's threshold is at or below the text's risk and the generating one is above (`HitIsBlockedExactly`).
- Two different roles can share a cache entry if and only if one is the other followed by a colon and
  text that a model name can begin with (`RolesCollideExactly`).
- Alerts of one campaign within the correlation window can open several incidents. Handled one after the
  other, they do so if and only if one opened within the window is no longer active when the next alert
  looks (`Incidents.SpacedExactly`, `ResolvedAdmitsAnother`); interleaved, also if another correlation
  opened one since the look, and only then (`Correlation.SpacedExactly`, `ConcurrentLooksOpenTwo`).
- An incident's risk can fall although each correlation takes the larger one: it never does if and only
  if no correlation commits a risk above the one it read and below the one written since
  (`RisksRiseExactly`, `HigherRiskIsLost`).
- Renewing an exception that expired while pending approves what nobody approved; one in force had
  exactly one approval or exactly one such lapse (`ApprovedWithoutApproval`, `ApprovedOrLapsed`).
- The incident score falls from 40 to 5 when a LOW finding joins an incident that had only a CRITICAL
  base severity; `MoreFindingsLowerExactly` says exactly when one more finding lowers it.
- Two findings with the same test and category but different titles change the report hash when they
  trade places; a report verifies if and only if its hashed lists agree key by key
  (`SwappedDuplicatesFail`, `CanonicalExactly`).

## Model

| member | source | states |
|---|---|---|
| Calendar.DateOfDayNumber | backend/scheduler/parser.py:186-197 | dates and day numbers of the proleptic Gregorian calendar are in bijection |
| Calendar.DaysBeforeYearClosed | backend/scheduler/parser.py:186-197 | the recursive year offset is 365 days a year plus the leap days |
| Calendar.YearlyDateRecurs | backend/scheduler/parser.py:188-197 | every 366 consecutive days contain every date that exists in all years |
| Calendar.WeekdayClosed | backend/scheduler/parser.py:192 | the weekday of every date is the one the closed calendar formula gives |
| CronText.MatchFieldValues | backend/scheduler/parser.py:114-147 | the loop over the parts of a field collects exactly the field's set |
| CronText.WithinBounds | backend/scheduler/parser.py:114-147 | every expanded value lies in the field's bounds, for any text |
| CronText.ExpansionIsMeaning | backend/scheduler/parser.py:87-147 | for every accepted field the expanded set is the denotation of the field's syntax tree |
| CronText.ParseOfShow | backend/scheduler/parser.py:87-111 | writing a well-formed field and reading it back gives the field, and the text is accepted |
| CronText.FieldAcceptedExactly | backend/scheduler/parser.py:87-111 | a written field is accepted if and only if its step is positive, or its range in order inside the bounds, or its list inside the bounds |
| CronText.EmptyExactly | backend/scheduler/parser.py:87-147 | an accepted field expands to nothing exactly when it is a stepped base that misses the range |
| CronText.InRangeBaseIsNonEmpty | backend/scheduler/parser.py:121-134 | a stepped base inside the bounds and not reversed never expands to nothing |
| CronText.WeekdaysModSeven | backend/scheduler/parser.py:182-184 | the weekday set is the 0..7 expansion taken modulo 7 |
| SlotSearch.SearchLoop | backend/scheduler/parser.py:186-199 | the loop that steps a datetime hour by hour computes the slot search |
| SlotSearch.NextIsLeast | backend/scheduler/parser.py:186-199 | the result is the least matching instant strictly after base if its hour is one of the 8784 visited, and base plus one day otherwise |
| SlotSearch.NextDetermined | backend/scheduler/parser.py:186-199 | that description determines the result |
| SlotSearch.RecomputedMatchIsStable | backend/scheduler/parser.py:186-199 | a matched time recomputed from any base before it is due stays the same |
| SlotSearch.Spacing | backend/scheduler/parser.py:186-199 | successive results are at least an hour apart, matched or fallen back |
| SlotSearch.NextIsMonotone | backend/scheduler/parser.py:186-199 | a later base never gives an earlier result, matched or fallen back |
| SlotSearch.FallbackExactly | backend/scheduler/parser.py:189-199 | the fallback fires exactly when no visited hour matches except a first one already passed |
| SlotSearch.BadMinuteExactly | backend/scheduler/parser.py:189-199 | a minute of 60 or more is an error exactly when one of the 8784 hours visited matches |
| SlotSearch.OneSlotTooFar | backend/scheduler/parser.py:188-199 | a match 8784 hours ahead of a passed first hour is missed by one slot |
| NextRun.CalculateNextRunAt | backend/scheduler/parser.py:150-199 | interval, cron, default and fallback branches, and the error of a non-numeric minute |
| NextRun.ExpandFields | backend/scheduler/parser.py:178-184 | the five field expansions with 7 folded onto Sunday |
| NextRun.RecurringFallsBackExactly | backend/scheduler/parser.py:186-199 | with weekday open, an hour and an everlasting date, the fallback fires exactly when the first hour has passed and nothing else in the window matches |
| NextRun.RecurringIsFound | backend/scheduler/parser.py:186-199 | otherwise the search ends with a match |
| NextRun.LeapYearMiss | backend/scheduler/parser.py:188-199 | in every leap year `0 0 1 1 *` from midnight of New Year's Day misses the next one, 8784 hours on |
| NextRun.ValidScheduleAdvances | backend/scheduler/parser.py:165-199 | an accepted schedule always has a next run, later than its base |
| NextRun.ValidScheduleSpacing | backend/scheduler/parser.py:12-199 | an accepted schedule asked again at or after its next run answers at least 60 minutes later |
| NextRun.ValidScheduleMonotone | backend/scheduler/parser.py:12-199 | an accepted schedule's next run is monotone in its base |
| NextRun.AcceptedTextMatches | backend/scheduler/parser.py:35-84 | cron notation is accepted and matches an instant exactly when minute, hour, day and month do and the weekday is that of the closed calendar formula |
| NextRun.ExpressionJudgedExactly | backend/scheduler/parser.py:35-84 | what the validator answers to every written expression: accepted, or which field is at fault |
| NextRun.IntervalJudgedExactly | backend/scheduler/parser.py:22-32 | an interval is accepted from an hour to a year |
| NextRun.IntervalAdds | backend/scheduler/parser.py:165-168 | an interval schedule runs max(60, minutes) minutes after its base, a day after it without minutes |
| NextRun.OthersWaitADay | backend/scheduler/parser.py:170-199 | other kinds and malformed cron text wait a day; a first word that is no number is an error |
| DayRules.EveryWeekday | backend/scheduler/parser.py:190-196 | every date of the year, February 29th too, falls on every weekday |
| DayRules.RulesAgreeExactly | backend/scheduler/parser.py:190-196 | the code's rule and crontab's name the same days if and only if the weekday is open, month and day are, or the fields name every day or none |
| DayRules.FridayThe13th | backend/scheduler/parser.py:190-196 | on the 13th and on Fridays the two rules differ |
| Dispatch.InTurnExactly | backend/scheduler/worker.py:30-62 | on every interleaving attempts come in turn and the due time never moves back, if and only if every attempt begins while the row is due with none younger than one period uncommitted, and no commit is overtaken |
| Dispatch.InTurnKeepsBudget | backend/scheduler/worker.py:30-62 | if attempts come in turn, the n-th begins at least n - 1 hours after the first due time |
| Dispatch.QueuedTaskRunsAgain | backend/scheduler/worker.py:41-51 | of two tasks queued by two polls the second begins although the row is no longer due |
| Dispatch.LateCommitMovesBack | backend/scheduler/engine.py:140-146 | an attempt that outlasts its period moves the due time back into the past |
| Scheduler.ScheduleRow.ExecuteScheduled | backend/scheduler/engine.py:40-197 | how each call ends, and field by field what it leaves in the schedule row |
| Scheduler.RunsAdvance | backend/scheduler/engine.py:80-182 | over any run of due calls made one after the other next_run_at advances an hour for each campaign started |
| Scheduler.ValidRowIsSchedule | backend/scheduler/parser.py:12-199 | an accepted row's next-run function is later than its base, monotone and an hour apart, as the worker's protocol asks |
| Scheduler.CallsAreSteps | backend/scheduler/engine.py:55-182 | a call of the engine changes the due time as the protocol's steps do |
| Scheduler.PollsWhenDue | backend/scheduler/engine.py:26-37 | a poll queues a task for an enabled schedule exactly from its due time on |
| Scheduler.AttemptsInTurnExactly | backend/scheduler/engine.py:22-80 | for every accepted row and interleaving, attempts come in turn if and only if tasks look again |
| Scheduler.HourlyBudget | backend/scheduler/worker.py:30-62 | if every task looks again, the n+1st attempt begins at least n hours after the first due time |
| Scheduler.QueuedTaskRunsAgain | backend/scheduler/engine.py:22-80 | two calls of the engine, the second on a row that is no longer due, both run the campaign, for every accepted schedule anywhere in its period |
| RateLimiter.CounterStore.Incr | backend/security/rate_limiter.py:33-34 | INCR on a key that may have expired, with faults |
| RateLimiter.CounterStore.Expire | backend/security/rate_limiter.py:36-40 | EXPIRE as a step of its own, with faults |
| RateLimiter.CounterStore.CheckRateLimit | backend/security/rate_limiter.py:16-55 | the decision and the key it leaves, for every fault of either call |
| RateLimiter.CheckIsTwoSteps | backend/security/rate_limiter.py:16-55 | the check is the protocol's INCR and EXPIRE in a row |
| RateLimiter.PerLifetime | backend/security/rate_limiter.py:33-55 | at most limit requests pass in each lifetime of the key, on every interleaving |
| RateLimiter.SlidingBound | backend/security/rate_limiter.py:33-55 | at most k * limit + limit - 1 pass in any interval of k windows |
| RateLimiter.MixedBound | backend/security/rate_limiter.py:16-55 | with limit and window changing from request to request, the bound holds for the largest limit and the shortest window |
| RateLimiter.BoundAttained | backend/security/rate_limiter.py:33-55 | some interleaving lets 2 * limit - 1 through within one window |
| RateLimiter.RecoversExactly | backend/security/rate_limiter.py:33-40 | in every reachable state another lifetime can begin if and only if the key is absent, has a TTL, or a process waits to set one |
| RateLimiter.StuckBlocksForever | backend/security/rate_limiter.py:33-49 | otherwise at most limit more requests ever pass |
| RateLimiter.TwoWaysToGetStuck | backend/security/rate_limiter.py:33-40 | an EXPIRE never sent and an INCR whose reply is lost both lead there |
| CampaignLock.LockStore.Acquire | backend/services/scheduler_lock.py:11-32 | SET NX EX: when it succeeds and what it stores |
| CampaignLock.LockStore.Release | backend/services/scheduler_lock.py:35-47 | DEL removes the campaign's key, whoever set it |
| CampaignLock.SetExactly | backend/services/scheduler_lock.py:11-32 | when a lock is set: the call reaches Redis with a campaign and a positive expiry, and no lock is live |
| CampaignLock.MutualExclusion | backend/services/scheduler_lock.py:11-47 | if every execution releases before its lock expires, at most one per campaign is inside |
| CampaignLock.ReleasesOwnLock | backend/services/scheduler_lock.py:35-47 | and each release removes the lock its own execution set |
| CampaignLock.OnlyOwnLocksRemovedExactly | backend/services/scheduler_lock.py:35-47 | over whole runs no DEL removes a live lock of another execution if and only if no overdue execution sends its DEL while the key is live |
| CampaignLock.ExclusiveRemovesForeignLock | backend/services/scheduler_lock.py:11-47 | an exclusive run can still remove a foreign lock, one whose SET lost its reply |
| CampaignLock.SecondGetsInExactly | backend/services/scheduler_lock.py:11-32 | a second execution gets in if and only if it asks when the first one's lock has expired |
| CampaignLock.ExclusiveExactly | backend/services/scheduler_lock.py:11-47 | over whole runs at most one execution per campaign is ever inside if and only if nobody enters while an overdue one is inside |
| CampaignLock.LateReleaseFreesForeignLock | backend/services/scheduler_lock.py:35-47 | a late release removes a foreign lock and admits a third execution |
| PolicyValidator.ValidateSecurityPolicy | backend/policy/validator.py:7-75 | answers with the policy exactly when the document is acceptable, and else with the errors that say why |
| PolicyValidator.AcceptableExactly | backend/policy/validator.py:30-75 | accepted if and only if every number is in its range, no protection is off, and the three roles are there with an admin who sees the dashboard |
| PolicyValidator.ParsesExactly | backend/policy/models.py:7-58 | a document parses if and only if its version and numbers are in range |
| PolicyValidator.DefaultNumbers | backend/policy/defaults.py:15-84 | limits, thresholds and lifetimes of the built-in policy |
| PolicyValidator.GuardrailsAreTheChecks | backend/policy/validator.py:30-70 | the guardrails are the conjunction of the checks made one by one |
| PolicyValidator.DefaultIsAcceptable | backend/policy/defaults.py:15-84 | the built-in default policy meets every guardrail |
| CacheAside.TransactionsKeepOneActive | backend/services/policy_service.py:82-178 | create, activate and bootstrap keep at most one row active |
| CacheAside.SplitBootstrapActivatesTwo | backend/services/policy_service.py:219-243 | the bootstrap's look and insert taken apart can leave two rows active |
| CacheAside.SplitBootstrapExactly | backend/services/policy_service.py:219-243 | they keep one row active if and only if by the insert the default version exists or no row is active |
| CacheAside.CallIsFourSteps | backend/services/policy_service.py:33-79 | a policy read is the protocol's begin, GET, query and SETEX in a row |
| CacheAside.AlwaysOneActive | backend/services/policy_service.py:154-174 | at most one row is active on every run |
| CacheAside.CachedAnswersAreFresh | backend/services/policy_service.py:41-68 | a policy served from the cache was active less than 60 + D before, D bounding read to cache write |
| CacheAside.SettledCallsAgree | backend/services/policy_service.py:41-79 | a call that starts 60 + D after an activation returns that policy until the next one, if queries are answered |
| CacheAside.AnswersAreReadable | backend/services/policy_service.py:41-79 | whatever fails, callers only get documents that passed the reader's checks, or the fallback |
| Activation.TakesEffectExactly | backend/services/policy_service.py:41-68 | every later answer is the active policy if and only if no live copy and no reader about to write one holds another |
| Activation.ActivationIsImmediateExactly | backend/services/policy_service.py:162-180 | so an activation is immediate if and only if no such reader holds another policy, nor a live copy when the DEL is not sent |
| Activation.InvalidationOvertaken | backend/services/policy_service.py:162-180 | with no fault or delay at all the delete after an activation is overtaken by a reader's cache write |
| PolicyCache.PolicyStore.GetActivePolicy | backend/services/policy_service.py:33-79 | cache, database or default: which, what policy, and what is cached |
| PolicyCache.PolicyStore.CreatePolicy | backend/services/policy_service.py:82-132 | stores a valid document under a new version, inactive |
| PolicyCache.PolicyStore.ActivatePolicy | backend/services/policy_service.py:135-193 | makes exactly the named valid row active and drops the cached copy |
| PolicyCache.PolicyStore.InitDefaultPolicyIfEmpty | backend/services/policy_service.py:219-243 | inserts the active default into an empty table only |
| PolicyCache.AnswersMeetGuardrails | backend/services/policy_service.py:41-79 | on every run every policy handed out or cached meets all guardrails, although a hit re-checks the schema alone |
| CampaignRun.Campaign.ExecuteCampaign | backend/services/campaign_service.py:234-433 | outcome, baseline, comparison, last run, stored rows with their status, and lock for each way an execution can end, a failure after the suite included |
| CampaignRun.Campaign.SetBaseline | backend/services/campaign_service.py:186-231 | sets a known run as baseline, refuses an unknown one |
| CampaignRun.ExecutionIsFourSteps | backend/services/campaign_service.py:234-433 | an execution is the protocol's load, acquire, commit or fail, and release in a row |
| CampaignRun.FirstCommitBecomesBaseline | backend/services/campaign_service.py:317-319 | on every interleaving the first execution to commit makes its run the baseline |
| CampaignRun.BaselineIsStable | backend/services/campaign_service.py:247-264 | no later execution replaces it, if executions release within the lifetime of their locks, none takes the lock through a row read before another commit, and no operator sets a baseline while an execution that saw none is under way |
| CampaignRun.BaselineSurvivesExactly | backend/services/campaign_service.py:317-319 | on any interleaving a baseline survives if and only if no execution commits through a row read while there was none |
| CampaignRun.StaleRowOverwritesBaseline | backend/services/campaign_service.py:247-264 | two executions never inside together, and the second replaces the first one's baseline |
| CampaignRun.StaleRowOverwritesOperator | backend/services/campaign_service.py:186-319 | an operator's baseline set during a first execution is lost |
| Comparator.CompareRunsWithBaseline | backend/campaign/comparator.py:8-160 | the loops build the comparison whose every part the following rows describe |
| Comparator.DiffIsExact | backend/campaign/comparator.py:48-115 | every id is listed as failed, errored, resolved, added or removed exactly when its statuses say so |
| Comparator.RegressionRowsAreExact | backend/campaign/comparator.py:75-108 | each regression row says PASS before, FAIL or ERROR now, with the current category and severity; one row for each new failure or error, and no other |
| Comparator.RegressedCategoriesAreExact | backend/campaign/comparator.py:62-155 | the regressed categories are those of the regressed tests, once each and in order |
| Comparator.DeltasAreExact | backend/campaign/comparator.py:117-140 | for each named category of either run both pass rates, their difference, and regressed if it is negative or a test of it regressed |
| Comparator.ScoresAreExact | backend/campaign/comparator.py:27-57 | baseline score, delta, and the whole comparison without a baseline |
| Comparator.ListsAscend | backend/campaign/comparator.py:113-159 | the lists of ids are in dictionary order |
| Comparator.Conservation | backend/campaign/comparator.py:62-115 | the change in passing tests is resolved minus regressed plus the one-sided and skipped terms |
| Comparator.DiffCounts | backend/campaign/comparator.py:62-115 | the lists' lengths are the sizes of those sets |
| Comparator.ScoreDeltaIsBalance | backend/campaign/comparator.py:51-57 | on equal id sets without skips the score delta is 100 * (resolved - regressed) / N |
| Comparator.BalanceTelescopes | backend/campaign/comparator.py:62-115 | over three comparable runs the balances add up |
| Comparator.SwapMirrors | backend/campaign/comparator.py:62-115 | swapping two runs swaps added with removed and regressed with resolved, and negates the delta |
| Reporter.GenerateSecurityReport | backend/redteam/reporter.py:11-89 | counts, score, finding counts by severity and sorted category summaries |
| Reporter.ReportConservation | backend/redteam/reporter.py:24-62 | the category summaries partition the results: their counts add up to the totals |
| RiskExceptions.ExceptionStore.CreateException | backend/governance/exceptions.py:116-194 | a new draft, its score the one given held to 0..100, or 80, 60, 40 or 20 by severity, and its event |
| RiskExceptions.ExceptionStore.UpdateException | backend/governance/exceptions.py:197-250 | drafts and pending requests only: expiry, review date and severity as given or as before, the score reset with a new severity, nothing else but the update time |
| RiskExceptions.ExceptionStore.SubmitForApproval | backend/governance/exceptions.py:253-284 | draft to pending |
| RiskExceptions.ExceptionStore.ApproveException | backend/governance/exceptions.py:287-335 | pending and unexpired to approved |
| RiskExceptions.ExceptionStore.RejectException | backend/governance/exceptions.py:338-376 | pending to rejected |
| RiskExceptions.ExceptionStore.RenewException | backend/governance/exceptions.py:379-427 | approved or expired to approved, with a later expiry |
| RiskExceptions.ExceptionStore.RevokeException | backend/governance/exceptions.py:430-467 | anything not revoked or closed to revoked |
| RiskExceptions.ExceptionStore.CloseException | backend/governance/exceptions.py:470-504 | anything to closed |
| RiskExceptions.ExceptionStore.CheckAndExpireExceptions | backend/governance/exceptions.py:507-551 | the sweep's table, and its count equal to rows changed and events appended |
| RiskExceptions.CountOverdue | backend/governance/reviews.py:74-80 | the review's count is the size of the overdue query's answer |
| RiskExceptions.SweepExact | backend/governance/exceptions.py:518-551 | a sweep changes exactly the active rows whose expiry has come and logs one event each |
| RiskExceptions.AfterSweep | backend/governance/exceptions.py:43-616 | nothing active is past expiry, overdue are exactly those past review only, the definitions of overdue agree, sweeps compose |
| RiskExceptions.RunKeepsInv | backend/governance/exceptions.py:116-551 | on every run the log is legal and replays to each row's status, approval, closing and update; closed_at, approval, expiry and score invariants |
| RiskExceptions.ExpiryIsLastGiven | backend/governance/exceptions.py:116-427 | on every run an exception expires when the last creation, edit or renewal that gave an expiry says |
| RiskExceptions.TerminalIsAbsorbing | backend/governance/exceptions.py:350-484 | no legal log leads out of rejected, revoked and closed |
| RiskExceptions.NothingIsRevived | backend/governance/exceptions.py:350-484 | on every run a terminal exception stays terminal with closed_at set |
| RiskExceptions.ApprovedOrLapsed | backend/governance/exceptions.py:299-544 | an exception in force or expired had exactly one approval or exactly one lapse while pending |
| RiskExceptions.ApprovedWithoutApproval | backend/governance/exceptions.py:391-529 | a run ends approved with no approval event |
| SemanticCache.NormalFormIsWords | backend/services/semantic_cache.py:26-50 | the normal form is the stripped, lower-cased words, single-spaced |
| SemanticCache.CoreExactly | backend/services/semantic_cache.py:26-50 | what is kept of a prompt runs from its first to its last letter, digit or underscore |
| SemanticCache.SameNormalForm | backend/services/semantic_cache.py:26-50 | two prompts share a normal form exactly when those words are the same |
| SemanticCache.NormalizeIsIdempotent | backend/services/semantic_cache.py:26-50 | normalising twice changes nothing |
| SemanticCache.KeysAgreeExactly | backend/services/semantic_cache.py:53-65 | keys agree exactly when all four parts do, if neither provider nor role is the other extended by a colon |
| SemanticCache.KeyText | backend/services/semantic_cache.py:53-65 | the text of a key, part by part with the defaults |
| SemanticCache.RolesCollideExactly | backend/services/semantic_cache.py:53-65 | two roles can share a key if and only if one is the other, a colon, and text a model can begin with |
| ChatPipeline.Handler.GetCachedResponse | backend/services/semantic_cache.py:68-101 | a live entry under the request's key, or nothing |
| ChatPipeline.Handler.CacheResponse | backend/services/semantic_cache.py:104-146 | non-empty text is stored for the lifetime |
| ChatPipeline.Handler.Admit | backend/api/chat.py:72-200 | access, limiter and injection check in order, with their audit records |
| ChatPipeline.Handler.Consult | backend/api/chat.py:202-289 | cache hit, unsupported provider, or a call upstream with the sanitized prompt |
| ChatPipeline.Handler.Conclude | backend/api/chat.py:291-480 | provider failure, blocked response, or cached and returned sanitized text |
| ChatPipeline.Handler.Chat | backend/api/chat.py:39-480 | the whole handler, for every outcome of everything it calls |
| ChatPipeline.HandledIsThreeSteps | backend/api/chat.py:39-480 | the handler is its three protocol steps in a row |
| ChatPipeline.RunKeepsInv | backend/api/chat.py:72-480 | on every interleaving: what is sent upstream, what each answer and refusal rests on with its risk and action, what the cache holds, and one audit record per outcome that needs one |
| ChatPipeline.RunIsRooted | backend/api/chat.py:39-480 | what is sent upstream, generated or answered from behind the limiter belongs to a request that began with that policy and was let through |
| ChatPipeline.RunAsksOnce | backend/api/chat.py:46-312 | with request ids not reused, none is sent upstream twice |
| ChatPipeline.HitIsNotRescreened | backend/api/chat.py:202-289 | a cached answer a stricter policy would block is still served |
| ChatPipeline.ReusedExactly | backend/services/semantic_cache.py:104-146 | an answer is reused exactly while the one configured lifetime lasts |
| Gateway.SameKeyExactly | backend/services/semantic_cache.py:53-65 | two requests share a key exactly when provider, role, model and normal prompt agree |
| Gateway.AnswersAreIsolated | backend/api/chat.py:202-480 | every 200 answer is the filter's non-blocked output for a cleared request with the same provider, role, model and normal prompt |
| Gateway.HitIsBlockedExactly | backend/security/response_filter.py:50-80 | a hit is a text its own policy would block if and only if that threshold is at most its risk and the generating one above it |
| Gateway.LifetimesAgreeExactly | backend/policy/models.py:23-25 | a policy's lifetime is the one its answers get if and only if it equals the environment's |
| Gateway.ProviderSeesOnlyCleared | backend/api/chat.py:72-312 | every prompt sent upstream is sanitized, its role is not denied the model in the sense of the next row, and it passed the injection check |
| Gateway.RefusedForModelExactly | backend/security/rbac.py:36-55 | a request is refused for its model, with the 403 record, if and only if role or model is empty, the first entry of the lower-cased role lists neither the stripped model nor "*", or there is none and the environment lists neither |
| Gateway.DeveloperUnderDefault | backend/policy/defaults.py:15-84 | under the built-in policy a developer may use the mock model and nothing else |
| Gateway.OthersUnderDefault | backend/policy/defaults.py:15-84 | and which models analysts and admins may |
| Gateway.ProviderExactly | backend/providers/__init__.py:19-35 | which provider a model name selects |
| Gateway.SwitchesExactly | backend/api/chat.py:202-289 | the cache is used only if policy and environment both say so, and three providers are known |
| RequestFlow.RunHoldsHanded | backend/api/chat.py:53-126 | every request goes on under a policy that a policy read answered |
| RequestFlow.VerdictIsDecision | backend/security/rate_limiter.py:33-55 | the request begins with the limiter's own decision |
| RequestFlow.FirstRequestPasses | backend/api/chat.py:124-145 | a first request is counted, waits for its EXPIRE and begins, let through |
| RequestFlow.NextRequestIsDecided | backend/api/chat.py:124-145 | a later one is let through if and only if the count is within its own policy's limit |
| RequestFlow.KeyIsBounded | backend/api/chat.py:124-126 | over every run at most k * limit + limit - 1 requests of a key counted within k windows get past the limiter, for the largest limit and shortest window handed out; only those go upstream, each once |
| Endpoint.PromptsMeetGuardrails | backend/api/chat.py:53-200 | every prompt sent upstream was cleared under a policy that meets every guardrail, its threshold between 60 and 100 |
| Endpoint.AnswersMeetGuardrails | backend/api/chat.py:202-480 | every 200 answer passed the filter under such a policy, for the same provider, role, model and normal prompt |
| Endpoint.InjectionWhateverThePolicy | backend/security/prompt_injection.py:224-225 | whichever policies are activated, no prompt that scores 100 goes upstream and none below 60 is refused for injection |
| Endpoint.AnswersWhateverThePolicy | backend/security/response_filter.py:50-92 | whichever policies are activated, no text always blocked or of risk 100 is answered, fresh or cached |
| Endpoint.KeyIsBounded | backend/policy/engine.py:90-94 | the bound for the policies' own limits and windows |
| Endpoint.KeyIsBoundedPerSecond | backend/policy/models.py:7-9 | for one-second windows it holds whatever policies are handed out |
| IncidentScoring.CalculateIncidentRisk | backend/incidents/scoring.py:31-93 | computes the score the next row describes |
| IncidentScoring.ScoreIsSum | backend/incidents/scoring.py:41-93 | 40, 25, 10 and 5 for each finding by severity, 15, 15 and 10 for the flags, 10 for a second domain, the base severity without findings, held to 100 |
| IncidentScoring.EvidenceIsScored | backend/incidents/correlator.py:107-163 | what is scored: the alert and its regressions, on the alert as base or MEDIUM without one |
| Scores.TiersExactly | backend/incidents/scoring.py:17-28 | the four tiers from 80, 60 and 30 |
| IncidentScoring.RiskDependsOn | backend/incidents/scoring.py:31-93 | the score depends on the findings as a multiset and the categories as a set |
| IncidentScoring.MoreFindingsLowerExactly | backend/incidents/scoring.py:54-93 | one more finding lowers the score exactly when it is the first and lighter than the base severity |
| IncidentScoring.FactorsOnlyRaise | backend/incidents/scoring.py:66-79 | the other factors never lower it |
| IncidentScoring.EvaluateCorrelationFactors | backend/incidents/correlator.py:91-176 | risk, severity and priority by its tier, what raises each flag, and the named categories |
| IncidentScoring.MoreRegressionsOnlyRaise | backend/incidents/correlator.py:112-165 | one more regression never lowers the risk of an alert with a severity |
| Incidents.FindCorrelatableIncident | backend/incidents/correlator.py:38-88 | run, then campaign within 30 minutes, then alert; newest first |
| Incidents.FindsExactly | backend/incidents/correlator.py:38-88 | the incident found is the newest active one of the run, else of the campaign within 30 minutes, else one of the alert itself |
| Incidents.FindsNoneExactly | backend/incidents/correlator.py:38-88 | none is found if and only if there is none of the three |
| Incidents.IncidentService.CreateIncident | backend/services/incident_service.py:108-189 | a new open incident |
| Incidents.IncidentService.UpdateIncident | backend/services/incident_service.py:266-310 | edits severity, priority and assignee |
| Incidents.IncidentService.AssignIncident | backend/services/incident_service.py:313-383 | assigns, and moves open to investigating |
| Incidents.IncidentService.ChangeIncidentStatus | backend/services/incident_service.py:386-480 | any valid status, with resolved_at set or cleared |
| Incidents.IncidentService.CorrelateAlertSafe | backend/services/incident_service.py:724-852 | raises the found incident's risk or opens a new one |
| Incidents.RunIsSound | backend/services/incident_service.py:108-852 | with operations one after the other: resolved_at exactly in the terminal statuses; risk in 0..100 and never falling; no incident lost |
| Incidents.InsertIsSpacedExactly | backend/services/incident_service.py:737-819 | an insert on an earlier look keeps openings a window apart if and only if the look passed over no closed one of the window and none was opened in it since |
| Incidents.SpacedExactly | backend/incidents/correlator.py:65-88 | over all operations the incidents opened for a campaign stay more than a window apart if and only if none is opened while one opened within the window is no longer active |
| Incidents.CorrelationBound | backend/incidents/correlator.py:65-79 | without a reopening at most floor(T / 30 min) + 1 incidents of a campaign are opened in any span T, whatever else is closed |
| Incidents.BoundWhileActive | backend/incidents/correlator.py:65-79 | in particular while no incident of the campaign is closed |
| Incidents.ResolvedAdmitsAnother | backend/incidents/correlator.py:65-88 | an alert, a resolution and a second alert within the window open two incidents |
| Correlation.ConcurrentLooksOpenTwo | backend/services/incident_service.py:737-819 | two correlations that look before either commits open two within the window |
| Correlation.CorrelateIsTwoSteps | backend/services/incident_service.py:724-852 | a correlation is its look and its commit in a row |
| Correlation.RewrittenExactly | backend/services/incident_service.py:754-775 | a commit writes the larger risk, its severity and the time only where they differ from what was read |
| Correlation.SpacedExactly | backend/services/incident_service.py:737-819 | on every interleaving openings stay more than a window apart if and only if none is inserted after looking past a closed one of the window or after another was opened in it since the look |
| Correlation.ConcurrentBound | backend/services/incident_service.py:737-819 | and then the bound of serial correlation holds |
| Correlation.RisksRiseExactly | backend/services/incident_service.py:754-775 | on every interleaving no risk falls if and only if no correlation commits one above what it read and below what was written since |
| Correlation.HigherRiskIsLost | backend/services/incident_service.py:754-775 | of two risks computed on one reading the higher is overwritten by the lower |
| ReportHash.CanonicalExactly | backend/reporting/generator.py:58-130 | canonical forms agree exactly when the headers do and each list agrees key by key |
| ReportHash.VerifiesExactly | backend/reporting/generator.py:136-148 | a stored report verifies exactly when its hashed content is still the one sealed |
| ReportHash.SealedVerifies | backend/reporting/generator.py:136-148 | a sealed report verifies unless its digest is empty, one without a hash never |
| ReportHash.CategoryLinesShow | backend/reporting/generator.py:80-92 | two lists of category rows give the same hashed lines exactly when they agree on these five fields |
| ReportHash.FindingLinesShow | backend/reporting/generator.py:93-104 | likewise the four fields of a finding |
| ReportHash.RegressionLinesShow | backend/reporting/generator.py:105-115 | the three fields of a regression |
| ReportHash.MappingLinesShow | backend/reporting/generator.py:116-126 | the three fields of a control mapping |
| ReportHash.LinesCarry | backend/reporting/generator.py:80-126 | each hashed line carries its row's fields under their own names |
| ReportHash.CanonicalAscends | backend/reporting/generator.py:81-126 | the sort keys of the four lists, in dictionary order |
| ReportHash.DistinctRowsAgreeExactly | backend/reporting/generator.py:58-130 | with distinct sort keys two reports agree if and only if they have the same lines in whatever order |
| ReportHash.OrderDoesNotMatter | backend/reporting/generator.py:81-126 | with distinct keys any reordering keeps the hash |
| ReportHash.SwappedDuplicatesFail | backend/reporting/generator.py:94-105 | swapping two findings with equal keys makes verification fail |
| StableSort.SortEqualExactly | backend/reporting/generator.py:81-126 | two lists sort to the same list exactly when they agree key by key |
| StableSort.SortStringsAscend | backend/reporting/generator.py:81-126 | strings are sorted in dictionary order |
| StableSort.SortOfPermutation | backend/reporting/generator.py:81-126 | with distinct keys permutations sort to the same list |
| GovernanceRisk.CalculateGovernanceRisk | backend/governance/risk.py:23-192 | the factors, in order, of the sources that count; the raw score is the sum of their contributions |
| GovernanceRisk.ExposureAdds | backend/governance/risk.py:43-80 | a new critical exposure adds 25, or 10 to a high one of the same id; a new high one 15 unless it is critical |
| GovernanceRisk.IncidentAdds | backend/governance/risk.py:45-106 | likewise 20 and 10 for open incidents |
| GovernanceRisk.GapAdds | backend/governance/risk.py:108-145 | 15 for a control gap or an overdue exception |
| GovernanceRisk.RegressionAdds | backend/governance/risk.py:121-171 | 10 for a regression or a threat match |
| GovernanceRisk.DomainsAdd | backend/governance/risk.py:50-158 | 10 once two domains differ in more than case and blanks |
| GovernanceRisk.SourcesInOrder | backend/governance/risk.py:53-171 | the nine factors, in order, with their weights |
| GovernanceRisk.SourcesHold | backend/governance/risk.py:42-51 | which records stand behind each |
| GovernanceRisk.RawDependsOnSets | backend/governance/risk.py:43-52 | order and repetition of ids do not matter |
| GovernanceRisk.ScoreIsMonotone | backend/governance/risk.py:43-174 | more records, or one moving from high to critical, never lower the score |

## Left out

- NextRun.CalculateNextRunAt: does not model `datetime` running past the year 9999, because instants are unbounded; `int` is read on ASCII digits only, without signs or underscores; naive times are taken as UTC.
- CampaignRun.BaselineIsStable: assumes that every execution releases before its lock expires, that none takes the lock after another committed since it read the row, and that no operator sets a baseline while an execution that saw none is under way; BaselineSurvivesExactly needs none of the three and says exactly when a baseline is lost.
- CampaignLock.MutualExclusion: holds for executions that release before their lock expires, because the lock has no owner; ExclusiveExactly and OnlyOwnLocksRemovedExactly give the exact conditions.
- RateLimiter.SlidingBound: a request counts at the instant of its INCR, which is when the server sees it; MixedBound lets limit and window change; the red-team runner's deletion of rate-limit keys is not a step.
- Gateway.AnswersAreIsolated: assumes, of the requests seen, that no role is another's extension by a colon, no provider another's, digests of one length and no digest collision; RolesCollideExactly shows the first is needed; the red-team executor's direct cache writes are not steps.
- Gateway: DLP, injection detection, response filter and provider are arbitrary functions or outcomes; latencies, metrics, traces, SIEM events, headers and detected-entity lists are not modelled; audit records carry user, role, model, action, status, hit and risk.
- RequestFlow: one API key's counter at a time, the others' answers being free; the clocks of policy cache, limiter and answer cache advance independently, which includes every way they can agree; request ids are never reused.
- ChatPipeline: clearing the cache is one step; the scan loop behind it is not modelled.
- Comparator.ScoreDeltaIsBalance: scores are exact rationals, because rounding to two decimals is presentation; results have one of the four statuses.
- ReportHash: the digest is an arbitrary function of the canonical form, required to tell apart only the two forms compared; reports relabelled after hashing are outside its statements; sort keys are present strings.
- SemanticCache: ASCII text, so no NFKC and no case folding beyond letters.
- RiskExceptions: titles, descriptions, justifications and other free text are not part of a row; exception ids are fresh; times are integers.
- Incidents: notes, evidence, timelines and events are not modelled; a query carries the campaign and run already chosen between the caller's and the alert's; incidents are numbered in creation order; a correlation that fails does nothing.
- Database sessions: beyond the stale campaign row and the incident a correlation read, a session is its commits, each one atomic; reads between them see the committed state.
- PolicyValidator: a document is either unusable or a record of typed fields; error texts are constructors.
- Scheduler.HourlyBudget: holds if tasks look at the row again, which the code does not do, because otherwise it is false; AttemptsInTurnExactly gives the exact condition and QueuedTaskRunsAgain the failing run.
- Scheduler: the semaphore's limit and the poll interval are left free, so every order of tasks is covered; a task that dies never commits; manual triggering, interval presets, editing a schedule while its tasks run, alerts and history are not modelled.
- Routers, request models, dashboards, exporters, alert deduplication, control coverage, assets, exposures, threat intelligence and catalogs would only add easy members.
