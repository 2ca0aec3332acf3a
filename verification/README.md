# CommitGuard: verified models of its protocols

CommitGuard finds AI attribution in commits, reports it as GitHub checks, and keeps what it
found in a control plane with versioned policy. This project models the parts of it where
several steps have to agree, and proves what its users rely on.

| files | what they model |
|---|---|
| `ScanJobs`, `Reexecution`, `SingleExecution`, `RetryBound`, `RetryBackoff` | the scan job table; the three ways to run an old scan again, each with its own guard; at most one execution under way; the bound and the back-off of automatic retries |
| `Violations`, `AuditTrail`, `LifecycleInvariants`, `ScanCompletion`, `ControlPlane`, `ScanOrder`, `BranchScans`, `MergeAndReopen`, `DroppedViolation`, `ExposureRows`, `Standing`, `Sightings` | the violation lifecycle as transitions of a database state, and everything that holds over every interleaving of them |
| `ScanResultRecorder`, `GitHubApp` | the same operations as the code performs them: loops that update tables in place and the webhook handlers, proved equal to the transitions |
| `WebhookHandlers`, `WebhookEffects`, `WebhookRuns`, `MergeGroupRuns`, `MergeGroupScans`, `LateScans` | webhook handlers as sequences of transactions, whole runs in which handlers, workers and commands interleave transaction by transaction, and what they do to a merge group |
| `Json`, `PolicyDocuments`, `PolicyParsing`, `PolicyChanges`, `PolicyStore`, `PolicyRuns`, `PolicyRequests` | policy documents, differences and weakening, and the append-only version store under concurrent updates and rollbacks |
| `NotificationSettings`, `NotificationRequests` | the companion store that is replaced in place |
| `HookText`, `HookBlock`, `ScriptLines`, `HookScript`, `HookFiles`, `HookPairs`, `HookOutcomes`, `HookParsing`, `HookStatus`, `HookReports` | the managed block of a Git hook, installing and uninstalling it over a hook that must not be lost, and what is reported about it |
| `Replacement`, `Escaping` | ordered replacement chains for workflow commands, Markdown and LIKE patterns |
| `Base64Url`, `KeysetPaging`, `Listings` | cursors and the lists paged by them |
| `CommitRecords`, `GitHubRetry`, `RetryOutcomes` | framing of `git log` output; the retry loop of the GitHub client, which answers it tries again and after how long |

Conventions: a job's sequence number is its position in the table, and a violation is named by
its fingerprint. SHA-256 of a tuple or document is the tuple or document itself inside a
datatype (an injective function), except in `HookBlock`, where it is an arbitrary function to
text of one line. Time is an integer that never runs backwards; rows store the time an
operation read before its transaction (`record_completed` before asking Git), audit events the
time inside it, one for all events of a transaction. Git is an oracle that answers
ancestor, not an ancestor, or unknown. One transaction is one step; `record_completed`, policy
updates, rollbacks, settings saves, re-executions and webhook handlers are also modelled as
several steps, with anything else in between. Where the source updates rows, files or versions in
place there is a class whose methods do the same and are proved against the specification
functions; what holds over runs is proved about those functions.

What the proofs showed about the code, where its documentation says otherwise or nothing:

* `docs/recovery.md` promises up to two automatic retries of a scan. `list_executions` returns
  the newest hundred executions only, so a scan can be retried more than twice exactly from its
  103rd execution on (`RetryBound.OverRetriedIff`).
* Reopening a pull request selects exposures by closed reason alone. Exposures left over from an
  earlier close come back too, even if the newest scan no longer has the violation
  (`MergeAndReopen.ReopeningRestoresIff`, `DroppedViolation.DroppedViolationReturnsInRun`).
* A worker checks that a merge group still exists when it begins, not when it commits. A scan
  begun before the destroyed event and committed after it leaves an active exposure that nothing
  ends: scans never close merge group exposures, and a repeated destroyed event is ignored
  (`MergeGroupRuns.LateMergeGroupScan`, `LateScans.LateScanPossible`, `LateScans.LateScanSticks`).
* A destroyed event is marked in one transaction and its exposures are ended in a later one. If
  the handler is lost in between, the redelivered event is a duplicate and the exposures stay
  (`MergeGroupRuns.SettledExposureStays`, `LateScans.LostHandlerSticks`).
* A request for a merge group is recorded in one transaction and its job is created in a later
  one. If the handler is lost in between, the redelivered request is a duplicate and the merge
  group is never scanned (`MergeGroupScans.LostRequestIsNeverScanned`).
* The guards of GitHub's re-run, the dashboard's re-scan and the automatic retry commit before
  their insertions; a scan requested in between is overtaken by the old one (`Reexecution.GuardRace`
  says exactly when not, `Reexecution.OldScanOvertakes` shows it for all three).
* `create_execution` promises that repeated requests cannot pile up duplicate scans. A new request
  looks at the jobs with its own key only, so a scan whose first job failed and whose retry is
  queued is started a second time (`SingleExecution.StepKeepsOneIff` says exactly when,
  `SingleExecution.RequestedWhileRetried` shows it).
* Weakening detection never misses a drop, but it flags a rule whose lowered baseline is covered
  by the new floor, for example when a stricter default becomes mandatory
  (`PolicyChanges.FlagIsExact`, `PolicyChanges.PromotedDefaultIsFlagged`).
* A settings document that leaves a type out resets it to the built-in setting, although partial
  updates are documented as allowed; a delivery that was turned off comes on again unconfirmed
  (`NotificationSettings.OmittedTypesAreReset`, `NotificationSettings.OmittedTypeTurnsOn`).
* A hook whose block is the last line of the file, without a newline after it, is unchanged for
  the installer and outdated for `commitguard doctor` (`HookStatus.StatusAfterInstall`).

`dafny verify dfyconfig.toml` checks the whole project.

## Model

| member | source | states |
|---|---|---|
| Decision.MostRestrictive | src/commitguard/core/decision.py:25-27 | the result is one of the given actions and none of them ranks higher; ALLOW for none |
| Decision.MostRestrictiveIs | src/commitguard/core/decision.py:25-27 | one BLOCK outweighs everything, one WARN all but a BLOCK |
| ScanJobs.HandlersDescribeTheirScan | src/commitguard/github/app.py:379-457 | the job each webhook handler and each schedule (`governance/schedules.py` 242-256) builds names exactly the scan (group, head, event, pull request) its key stands for |
| ScanJobs.MaxIsCount | src/commitguard/github/storage.py:1753-1820 | in a well formed job table the greatest execution number of a scan is the number of its executions, so executions are numbered without gaps |
| ScanJobs.CreateJobKeepsTable | src/commitguard/github/storage.py:1667-1690 | a webhook job keeps the table well formed, becomes the newest scan of its own group if it is new, and touches no other group |
| ScanJobs.ProgressKeepsTable | src/commitguard/github/storage.py:1667-1820 | state changes of jobs keep the table well formed and every group's newest scan |
| ScanJobs.JobGroupIsGroupKey | src/commitguard/controlplane/results.py:111-120 | the group a result is recorded under is the group key its job is filed under, for every row of a reachable table |
| ScanJobs.ExecutionAndNewestScan | src/commitguard/github/storage.py:1692-1751 | a new execution leaves every group's newest scan alone if and only if nothing was created or the scan already was the newest of its group |
| ScanJobs.RedeliveryCreatesNothing | src/commitguard/github/storage.py:1692-1751 | once a delivery has created an execution, delivering it again creates nothing, however the table progressed and grew in between |
| Recorder.ScanResultRecorder.UnreachableBranchExposures | src/commitguard/controlplane/results.py:525-552 | reads at most 1000 active exposures of the branch and returns exactly those read that the scan lacks and Git answers are definitely not ancestors; nothing outside branches or without a repository |
| Recorder.ScanResultRecorder.UpsertViolation | src/commitguard/controlplane/results.py:563-654 | inserts the violation or counts the detection, reopening it (acknowledgement cleared) only if resolved and the scan is not stale, and reports exactly that opening or reopening |
| Recorder.ScanResultRecorder.ActivateExposures | src/commitguard/controlplane/results.py:656-697 | after the loop the exposures equal the one-step specification for the whole set: inserted, or reactivated with closed marks cleared |
| Recorder.ScanResultRecorder.CloseExposures | src/commitguard/controlplane/results.py:699-734 | after the loop exactly the named active exposures of the group are closed with time, reason and job |
| Recorder.ScanResultRecorder.AbsentExposures | src/commitguard/controlplane/results.py:710-727 | returns exactly the active exposures of the group that the scan lacks and that are in a pull request or known to be unreachable |
| Recorder.ScanResultRecorder.RefreshStatuses | src/commitguard/controlplane/results.py:736-787 | after the loop exactly the named violations have the status their exposures imply, and the returned events extend exactly the trails of those that changed |
| Recorder.ScanResultRecorder.RecordFindings | src/commitguard/controlplane/results.py:241-262 | the loop over the findings equals the specification's fold over them, one finding row each |
| Recorder.ScanResultRecorder.CommitScan | src/commitguard/controlplane/results.py:198-267 | the transaction of record_completed, statement by statement, has the effect of the specification's CommitScan on all five tables, and only appends audit and finding rows |
| Recorder.ScanResultRecorder.RecordCompleted | src/commitguard/controlplane/results.py:166-267 | snapshot and transaction run together without interference |
| Recorder.ScanResultRecorder.PullRequestClosed | src/commitguard/controlplane/results.py:418-456 | closing or merging equals the specified transition on all tables |
| Recorder.ScanResultRecorder.PullRequestReopened | src/commitguard/controlplane/results.py:458-479 | reopening restores exactly the rows with this pull request's closed reason and then refreshes |
| Recorder.ScanResultRecorder.MergeGroupDestroyed | src/commitguard/controlplane/results.py:373-413 | destroying a merge group equals the specified transition on all tables |
| Recorder.ScanResultRecorder.BranchDeleted | src/commitguard/controlplane/results.py:481-501 | deleting a branch equals the specified transition on all tables |
| Recorder.ScanResultRecorder.AcknowledgeViolation | src/commitguard/controlplane/commands.py:91-122 | acknowledges an open violation with one event; refuses unknown and resolved ones and then changes nothing |
| Recorder.ScanResultRecorder.Unacknowledge | src/commitguard/controlplane/commands.py:124-151 | removes an acknowledgement with one event; refuses when there is none and then changes nothing |
| AuditTrail.TrailGrammar | src/commitguard/controlplane/results.py:36-44 | every trail that replays has status events OPENED (RESOLVED REOPENED)* RESOLVED?, and the parity of their number is the status |
| AuditTrail.AcknowledgementIsNewest | src/commitguard/controlplane/results.py:43-44 | in a trail in time order a standing acknowledgement has an event after every reopening, in place and time, followed by resolutions only |
| LifecycleInvariants.RefreshRepairs | src/commitguard/controlplane/results.py:736-787 | if only the named violations may have a wrong status, a refresh of them re-establishes the whole invariant |
| LifecycleInvariants.CommitScanKeeps | src/commitguard/controlplane/results.py:198-267 | completing a scan keeps the invariant whatever the reachability answers were |
| LifecycleInvariants.EndAndMoveKeeps | src/commitguard/controlplane/results.py:373-501 | closing, merging, destroying and deleting keep the invariant |
| LifecycleInvariants.ReopenedKeeps | src/commitguard/controlplane/results.py:458-479 | reopening keeps the invariant |
| LifecycleInvariants.AcknowledgeKeeps | src/commitguard/controlplane/commands.py:91-151 | acknowledging and unacknowledging keep the invariant |
| ScanCompletion.CommitScanActive | src/commitguard/controlplane/results.py:240-265 | closed form of where violations are active after a scan: unchanged if stale or in another group, else exactly what the scan found plus what a branch or merge group could not be shown to have lost |
| ScanCompletion.StaleScanIsHistory | src/commitguard/controlplane/results.py:46-48 | a stale scan changes no exposure and no known violation's standing or trail, and records a violation seen for the first time as opened and resolved |
| ControlPlane.NextGrows | src/commitguard/controlplane/results.py:166-501 | no step of the system deletes rows, changes identities or rewrites a trail |
| ControlPlane.EveryRun | src/commitguard/controlplane/results.py:166-501 | every interleaving of job steps, snapshots, commits and lifecycle events keeps the invariant and only adds history |
| ControlPlane.ReachableViolation | src/commitguard/controlplane/results.py:36-44 | in every reachable state a violation is open iff it has an active exposure, its trail has the grammar and its parity the status, and detections count its finding rows |
| ControlPlane.ReachableAcknowledgement | src/commitguard/controlplane/commands.py:91-122 | in every reachable state a standing acknowledgement has an event that comes after every reopening in place and time and is followed by resolutions only; the time stored in the row was read no later than that event, although it was read before the transaction |
| ControlPlane.CommitClosesOnly | src/commitguard/controlplane/results.py:525-552 | in every reachable state, whatever happened between snapshot and commit, a scan closes an exposure only if absent from it, of its own group, with no newer completed scan, and outside pull requests only a branch exposure answered definitely not an ancestor; so never a merge group's |
| ScanOrder.CommitDecides | src/commitguard/controlplane/results.py:240-266 | a completion that no newer completed scan precedes makes its pull request show exactly what it tracked, from any state |
| ScanOrder.OrderIndependence | src/commitguard/controlplane/results.py:46-48 | for a pull request in any state: the same completions in any two orders leave the same active violations, those of the scan with the greatest sequence unless a greater one had completed before, and then nothing changes |
| ScanOrder.CommitAllShows | src/commitguard/controlplane/results.py:240-266 | also with repeated completions of one job and whatever older scans had completed before: the last completion of the greatest sequence decides |
| ScanOrder.EveryRunShowsNewestScan | src/commitguard/controlplane/results.py:240-266 | inside any run, with everything else interleaved, a pull request that shows its newest completed scan goes on showing its newest completed scan until it is closed or reopened |
| ScanOrder.ScanSettlesPullRequest | src/commitguard/controlplane/results.py:240-266 | in every run, whatever was closed, reopened or left over before: from the commit of a scan that no newer completed one precedes, a pull request shows exactly its newest completed scan until it is closed or reopened again |
| MergeAndReopen.MergedPullRequestConserves | src/commitguard/controlplane/results.py:435-454 | a merge into a non-empty base changes no violation row and no trail, and moves every exposure of the pull request to the base branch |
| MergeAndReopen.MergedMergeGroupConserves | src/commitguard/controlplane/results.py:391-411 | the same for a merged merge group |
| MergeAndReopen.ReopeningRestoresIff | src/commitguard/controlplane/results.py:458-477 | close unmerged, reopen at once: the active exposures are restored if and only if none was left closed by an earlier close |
| MergeAndReopen.ReopeningRestoresStatuses | src/commitguard/controlplane/results.py:458-477 | under that condition every status is restored |
| MergeAndReopen.ReopeningAndAcknowledgements | src/commitguard/controlplane/results.py:458-477 | rows the close did not resolve are untouched, rows it did resolve come back without acknowledgement |
| MergeAndReopen.DroppedViolationReturns | src/commitguard/controlplane/results.py:464-475 | the condition is needed: after a close, a scan without the violation and another close, reopening makes the violation active that the newest scan lacks |
| DroppedViolation.DroppedViolationReturnsInRun | src/commitguard/controlplane/results.py:458-477 | a run from the empty database that does so: scan, close, reopen on a new head, scan without the violation, close, reopen |
| BranchScans.BranchExposureEndsIff | src/commitguard/controlplane/results.py:525-552 | in every run, whatever happens between snapshot and commit: an active exposure of the scanned branch ends with the commit if and only if no newer scan has completed, the scan lacks the violation, and at the snapshot, with a repository at hand, Git answered that its stored commit is definitely not an ancestor of the head |
| BranchScans.EverythingIsAsked | src/commitguard/controlplane/results.py:525-552 | with fewer rows than the query's limit of 1000 every violation active on the branch is asked about |
| ExposureRows.EndingRows | src/commitguard/controlplane/results.py:373-501 | row by row: closing or merging a pull request, destroying a merge group or deleting a branch ends exactly the active rows of its group, with time and the reason that fits, makes exactly their violations active on the branch merged into, and changes no other row |
| ExposureRows.UnmergedMovesNothing | src/commitguard/controlplane/results.py:404-406 | what ends without a merge becomes active nowhere: active afterwards are exactly the places active before outside the group |
| ExposureRows.ReopeningRows | src/commitguard/controlplane/results.py:458-479 | reopening makes exactly the rows its closing without merge left active again, from now on |
| ExposureRows.CommitRows | src/commitguard/controlplane/results.py:656-734 | a scan that no newer one precedes makes exactly what it tracked active in its group, keeping when it was opened, ends exactly the absent rows of its pull request or those shown gone, with time, job and reason, and changes no other row |
| ExposureRows.TrackedIff | src/commitguard/controlplane/results.py:241-247 | a scan tracks exactly the violations of which it has a warning or blocking finding |
| ExposureRows.ReachableRows | src/commitguard/controlplane/results.py:656-734 | in every reachable state a closed row says when it was closed and why, by a reason of its own group |
| Standing.StandingFollowsExposure | src/commitguard/controlplane/results.py:736-787 | in every run every step that is not an acknowledgement of the violation changes its standing exactly as its exposure: resolved once (time, event) when exposed nowhere any more, reopened once without its acknowledgement when exposed again, otherwise neither row nor trail change |
| Standing.UnmergedResolves | src/commitguard/controlplane/results.py:373-501 | in every run what ends without a merge resolves, once, every violation exposed nowhere else |
| Standing.NewlyRecorded | src/commitguard/controlplane/results.py:563-600 | a violation that a step records for the first time was tracked by the scan that step commits, and is resolved at once if it is not exposed |
| Standing.AcknowledgementTakesEffect | src/commitguard/controlplane/commands.py:91-151 | the two commands change exactly the named violation and its trail, if it is open or acknowledged, and nothing else |
| Sightings.ReachableSummaries | src/commitguard/controlplane/results.py:563-654 | in every reachable state a violation's row summarises its finding rows: rule, commit, time and job of the first, action, time and job of the last |
| Sightings.CommitRecords | src/commitguard/controlplane/results.py:198-267 | a commit completes its own job as passed or failed, at the time its worker read, stores the scan's findings in order, and changes no other job or row |
| Sightings.StepsKeepTime | src/commitguard/controlplane/results.py:166-186 | a snapshot remembers the time its worker read before asking Git, a commit forgets its snapshot, and no other step touches either |
| Sightings.JobStepsTouchJobs | src/commitguard/github/storage.py:1667-1960 | a step on the job table moves one unfinished job, or cancels exactly the queued jobs of a group, or appends at most one row, and changes nothing else in the database |
| GitHubApp.GitHubAppService.CancelQueuedGroup | src/commitguard/github/app.py:409-412 | after the loop exactly the queued jobs of the group are cancelled |
| GitHubApp.GitHubAppService.PullRequest | src/commitguard/github/app.py:405-464 | leaves the store as the transactions of the handler, taken one after the other, leave it - for every disposition, including reopening on a duplicate |
| GitHubApp.GitHubAppService.Push | src/commitguard/github/app.py:379-403 | likewise: tags are ignored, a deleted branch ends its exposures even while monitoring is paused, other pushes create a job |
| GitHubApp.GitHubAppService.MergeGroupRequested | src/commitguard/github/app.py:469-565 | likewise: the record is inserted if missing, and only then a job is created |
| GitHubApp.GitHubAppService.MergeGroupDestroyed | src/commitguard/github/app.py:469-565 | likewise: the record is marked once, then queued jobs are cancelled and the exposures ended |
| WebhookHandlers.HandlersKeep | src/commitguard/github/app.py:379-565 | every webhook handler - pull request, push, merge group - keeps the lifecycle invariant |
| GitHubApp.ReopenOnScannedCommits | src/commitguard/github/app.py:405-464 | closing and reopening on commits whose scan completed queues nothing and restores the exposures iff no earlier close left marks |
| WebhookEffects.ClosingEndsPullRequest | src/commitguard/github/app.py:405-421 | closing without a merge cancels exactly the queued jobs of the pull request and ends exactly its exposures, for the reason that reopening looks for |
| WebhookEffects.MergingMovesPullRequest | src/commitguard/github/app.py:422-440 | merging leaves the jobs alone and moves exactly the pull request's exposures to the base branch |
| WebhookEffects.ScanningRequestsHead | src/commitguard/github/app.py:441-467 | opening, updating, retargeting or reopening a monitored pull request requests a scan of exactly its base and head, unless one is under way or finished; exposures change only when reopening requested nothing, and then exactly those come back that closing ended |
| WebhookEffects.OtherwiseIgnored | src/commitguard/github/pull_requests.py:32-39 | every other action, and a scanning one while monitoring is paused, changes nothing |
| WebhookEffects.PushRequestsOrEnds | src/commitguard/github/app.py:379-403 | a push is scanned on branches only and while monitored; a deleted branch loses exactly its exposures even while monitoring is paused |
| WebhookEffects.RequestScansMergeGroup | src/commitguard/github/app.py:507-565 | a merge group's request is recorded and scanned once, while monitored; any other changes nothing |
| WebhookEffects.DestroyingEndsMergeGroup | src/commitguard/github/app.py:469-506 | the first destroyed event cancels exactly the group's queued jobs and ends exactly its exposures, which move to the base branch if and only if it was merged |
| WebhookRuns.HostRunIsRun | src/commitguard/github/app.py:379-565 | every run of handlers, workers and commands, interleaved transaction by transaction, is a run of the lifecycle |
| WebhookRuns.EveryHostRun | src/commitguard/github/app.py:379-565 | every such run keeps the invariant, whichever handlers are lost between their transactions |
| WebhookRuns.HandledAlone | src/commitguard/github/app.py:379-565 | a webhook delivered and continued without interruption has exactly the effect of its handler |
| MergeGroupRuns.MergeGroupExposureStaysInRuns | src/commitguard/controlplane/results.py:717-727 | in any run without its destroyed event an active merge group exposure stays active |
| MergeGroupRuns.OnlyCommitsExpose | src/commitguard/controlplane/results.py:240-262 | an inactive merge group exposure becomes active by a commit of a scan of that group with the violation and no newer completed scan, and by nothing else |
| MergeGroupRuns.DestroyedOnce | src/commitguard/github/storage.py:2098-2143 | in every run the exposures of a merge group are ended at most once, and only after it was marked destroyed, however many destroyed events arrive |
| MergeGroupRuns.SettledExposureStays | src/commitguard/github/app.py:488-506 | once a merge group is marked destroyed and no handler is left to end it (it has, or was lost), whatever is exposed in it stays exposed in every continuation |
| MergeGroupRuns.LateMergeGroupScan | src/commitguard/github/app.py:488-506 | after the destroyed event ended a merge group, in every run: a violation is exposed in it again if and only if some commit of a scan of the group, with the violation and no newer completed scan, comes after the event |
| MergeGroupScans.QueuedOnce | src/commitguard/github/storage.py:2054-2096 | in every run a merge group gets at most one job from webhooks, and before its first webhook it has no job and no exposure |
| MergeGroupScans.LostRequestIsNeverScanned | src/commitguard/github/app.py:521-552 | a merge group whose request handler is lost after the record and before the job is never queued, scanned or exposed, in any continuation |
| MergeGroupScans.LostRequestSticks | src/commitguard/github/app.py:521-552 | by example, for every merge group: the request is delivered and its handler lost at once; every later request is a duplicate |
| MergeGroupScans.DestroyedFirstIsNeverScanned | src/commitguard/github/storage.py:2067-2096 | a merge group whose destroyed event arrives before its request is never queued, scanned or exposed, in any continuation |
| LateScans.LateScanPossible | src/commitguard/github/worker.py:222-372 | the condition at the destroyed event: a violation can be exposed in the group again if and only if a worker that has begun a scan of it can still commit a result with the violation: no newer scan completed, and no newer execution has taken its check run before it published; the group is checked only when the worker begins |
| LateScans.LateScanSticks | src/commitguard/github/worker.py:222-227 | by example: requested, queued, begun, claimed, published, scanned, destroyed, and then committed - the violation is active in every continuation |
| LateScans.LostHandlerSticks | src/commitguard/github/app.py:488-506 | by example: a handler that is lost after marking the group and before ending its exposures leaves them active in every continuation |
| Reexecution.ScanJobStore.CheckRunRerequested | src/commitguard/github/app.py:627-666 | refused while paused, when another scan is the newest of the group or the merge group is gone; else one more execution unless one is active or the delivery is known |
| Reexecution.ScanJobStore.CheckSuiteRerequested | src/commitguard/github/app.py:607-625 | re-runs the newest job of each check of the commit, one after the other |
| Reexecution.ScanJobStore.RescanRequested | src/commitguard/controlplane/commands.py:354-379 | refused by the first rule of rescan_eligibility that applies; else one more execution unless one is active |
| Reexecution.ScanJobStore.RetryFailedScan | src/commitguard/github/recovery.py:91-107 | one turn of the retry loop; the index into the back-off table is always in range |
| Reexecution.ScanJobStore.RetryFailedScans | src/commitguard/github/recovery.py:73-107 | the sweep equals the specified fold over at most 50 candidates and counts the rows it adds |
| Reexecution.RerunKeepsNewest | src/commitguard/github/app.py:627-666 | GitHub's re-run never changes the newest scan of any group |
| Reexecution.RerunAllKeepsNewest | src/commitguard/github/app.py:607-625 | neither does re-running all checks of a commit |
| Reexecution.RescanKeepsNewest | src/commitguard/controlplane/queries.py:731-749 | neither does a dashboard re-scan |
| Reexecution.SweepKeepsNewest | src/commitguard/github/recovery.py:73-107 | neither does a sweep of automatic retries, although it adds rows while it runs |
| Reexecution.OnlyNewScansMoveTheNewestScan | src/commitguard/github/app.py:627-666 | over any run of atomic steps a group's newest scan is the one its last new webhook or schedule asked for |
| Reexecution.NewestJobScansItsCommit | src/commitguard/github/storage.py:1832-1840 | the newest job of a group scans the head commit its scan key names |
| Reexecution.GuardThenInsert | src/commitguard/github/app.py:634-649 | re-run and re-scan are their guard followed by their insertion |
| Reexecution.GuardRace | src/commitguard/github/app.py:634-649 | guard and insertion of a re-run, re-scan or retry are separate transactions: after any run in between, the insertion leaves every newest scan alone if and only if it adds nothing, no new scan of the group was requested in between, or the last one requested is the same scan |
| Reexecution.OldScanOvertakes | src/commitguard/github/recovery.py:75-107 | by example, for each of the three guards: it passes for a failed scan, another scan of the group is queued, and the insertion puts the old scan in front |
| SingleExecution.ExecutionCreatedIff | src/commitguard/github/storage.py:1692-1751 | an execution is created if and only if none of the scan is queued or running and the delivery is new to the scan; it takes over the stored job's work, is queued at the end, and names its predecessor |
| SingleExecution.JobCreatedIff | src/commitguard/github/storage.py:1667-1690 | a requested scan gets a job if and only if the newest job with its key, if there is one, ended in an error or was cancelled |
| SingleExecution.RerunQueuedIff | src/commitguard/github/app.py:627-666 | GitHub's re-run queues an execution if and only if the repository is monitored, the scan is the newest of its group, its merge group exists, none of its executions is under way and the delivery is new; every refusal is truthful and changes nothing |
| SingleExecution.RescanQueuedIff | src/commitguard/controlplane/queries.py:731-749 | the same for the dashboard's re-scan: permission, standing, newest job of its group, nothing under way |
| SingleExecution.UnderWayIsLeftAlone | src/commitguard/github/storage.py:1708-1716 | while an execution of a scan is queued or running, re-run, re-scan and automatic retry leave the table unchanged |
| SingleExecution.SuiteRowsIff | src/commitguard/github/storage.py:1842-1860 | re-running all checks looks at exactly the newest job of each check on the commit |
| SingleExecution.RerunAllCovers | src/commitguard/github/app.py:607-625 | re-running all checks leaves every scan that may be re-run under way, unless the delivery had re-run it before, and adds nothing else |
| SingleExecution.StepKeepsOneIff | src/commitguard/github/storage.py:1667-1751 | at most one execution of a scan under way is kept by every step that revives no finished job, if and only if it is not a new request, of a scan whose own job failed, while another execution is under way |
| SingleExecution.OneExecutionUnderWay | src/commitguard/github/storage.py:1699-1707 | so in every run without such a request a scan has at most one execution under way |
| SingleExecution.RequestedWhileRetried | src/commitguard/github/storage.py:1675-1690 | by example: a scan fails, its retry is queued, and a new request for the same scan starts it a second time |
| RetryBound.RetriesAreBounded | src/commitguard/github/recovery.py:73-107 | in every run at most two of any scan's newest 101 executions are automatic retries, and a scan executed at most 102 times is retried at most twice |
| RetryBound.ThirdRetry | src/commitguard/github/recovery.py:91-97 | for every scan there is a run in which 99 failed re-scans by hand after two retries are followed by a third automatic retry, as execution 103, since only the newest hundred executions are counted; the times in the run never decrease |
| RetryBound.OverRetriedIff | src/commitguard/github/recovery.py:91-97 | the threshold: some run whose times never decrease executes a scan n times with more than two automatic retries if and only if n is at least 103, for every scan |
| RetryBackoff.RetriedIff | src/commitguard/github/recovery.py:86-107 | a candidate is retried if and only if the repository is monitored, five or twenty minutes have passed since it failed, fewer than two retries are in sight and nothing of its scan is under way |
| RetryBackoff.QueryReturns | src/commitguard/github/recovery.py:75-85 | the query returns exactly the jobs that failed for a retryable reason within a day and are newest in their group, up to fifty in order, while the installation is active |
| RetryBackoff.SweepRetriesIff | src/commitguard/github/recovery.py:73-107 | a sweep adds exactly one retry for each scan that is due, in order, if the query returns no two jobs of one scan |
| RetryBackoff.QueryScansDiffer | src/commitguard/github/recovery.py:75-85 | two returned jobs belong to one scan only if a schedule asked for it on two branches |
| RetryBackoff.RetriesWait | src/commitguard/github/recovery.py:91-107 | in any table every row a sweep adds is a retry of a returned job after its back-off, while monitored |
| Json.SortKeys | src/commitguard/controlplane/policies.py:206-209 | selecting the least key again and again yields the one sorted list of the keys |
| Json.AtMostMeans | src/commitguard/controlplane/policies.py:209 | keys are ordered by code point: a prefix first, else by the first character that differs |
| PolicyDocuments.WriteDocument | src/commitguard/controlplane/policies.py:198-209 | writes the canonical document, or refuses a rule that is mandatory and a default |
| PolicyDocuments.ReadEntry | src/commitguard/controlplane/policies.py:226-235 | accepts exactly the known rules with a warn or block floor, or a default entry with exactly its two keys |
| PolicyDocuments.ReadDocument | src/commitguard/controlplane/policies.py:217-236 | the loop equals the specification: both dictionaries exactly when every entry is valid |
| PolicyDocuments.ParsedIsValid | src/commitguard/controlplane/policies.py:217-236 | whatever parses is a valid policy |
| PolicyParsing.ParsesIff | src/commitguard/controlplane/policies.py:217-236 | a document parses to a policy if and only if the policy is valid and the document has exactly its entries: floors by name, defaults as an action with its enforcement, in any order |
| PolicyDocuments.CanonicalRoundTrip | src/commitguard/controlplane/policies.py:198-236 | parsing undoes writing for every valid policy |
| PolicyDocuments.CanonicalIsInjective | src/commitguard/controlplane/policies.py:198-209 | different valid policies have different canonical documents |
| PolicyDocuments.IntegrityIsCanonical | src/commitguard/controlplane/policies.py:1143-1160 | a version passes the integrity check if and only if its fingerprint fits and it is the canonical document of some valid policy |
| PolicyDocuments.CheckEntries | src/commitguard/controlplane/policies.py:239-271 | the validation loop stops at the first offending item with its error |
| PolicyDocuments.ValidationAccepts | src/commitguard/controlplane/policies.py:239-271 | validation accepts exactly the inputs all of whose entries are known rules with an allowed action or null |
| PolicyDocuments.ValidationYields | src/commitguard/controlplane/policies.py:239-271 | an accepted input yields the action of every text entry |
| PolicyDocuments.ValidationYieldsOnly | src/commitguard/controlplane/policies.py:239-271 | and nothing else |
| PolicyDocuments.ValidatedIsValid | src/commitguard/controlplane/policies.py:239-271 | validated floors and defaults without a common rule are a valid policy |
| PolicyDocuments.FloorsValidate | src/commitguard/controlplane/policies.py:1150-1151 | parsed floors always pass the second validation and come out unchanged |
| PolicyChanges.ListChanges | src/commitguard/controlplane/policies.py:290-328 | the two loops list the specified changes |
| PolicyChanges.ChangesListed | src/commitguard/controlplane/policies.py:290-328 | a change is listed if and only if the two policies differ in that entry, with that entry's weakening verdict |
| PolicyChanges.NoChangesIffSame | src/commitguard/controlplane/policies.py:290-328 | the list is empty if and only if the policies are equal |
| PolicyChanges.ApplyChanges | src/commitguard/controlplane/policies.py:290-328 | applying the changes to the old policy gives the new one |
| PolicyChanges.DiffPolicies | src/commitguard/controlplane/policies.py:331-363 | each list of the diff holds, in order and with unchanged verdicts, exactly the added, changed or removed entries, and the verdict is that of the changes |
| PolicyChanges.DiffPartitions | src/commitguard/controlplane/policies.py:331-363 | the three lists together hold every change exactly once |
| PolicyChanges.DropsIff | src/commitguard/controlplane/policies.py:14-23 | for some repository choice a rule is enforced less if and only if its floor drops, or its baseline drops below an old baseline the new floor does not cover |
| PolicyChanges.FlaggedIff | src/commitguard/controlplane/policies.py:299-317 | a rule is flagged if and only if its floor or its baseline is lowered |
| PolicyChanges.UnflaggedNeverDrops | src/commitguard/controlplane/policies.py:14-23 | soundness: if no change of a rule is flagged, no choice of any repository is enforced less than before |
| PolicyChanges.FlagIsExact | src/commitguard/controlplane/policies.py:299-317 | a flagged rule really drops for some choice, if and only if the new floor does not cover both the old floor and the old baseline |
| PolicyChanges.PromotedDefaultIsFlagged | src/commitguard/controlplane/policies.py:309-317 | the false alarm by example: making a stricter default mandatory is flagged although nothing drops |
| PolicyStore.OrganizationPolicyService.MaxVersion | src/commitguard/controlplane/policies.py:471-478 | finds the greatest stored version, 0 if there is none |
| PolicyStore.OrganizationPolicyService.InsertVersion | src/commitguard/controlplane/policies.py:481-522 | adds one row with its fingerprint and lineage and changes no other |
| PolicyStore.OrganizationPolicyService.Commit | src/commitguard/controlplane/policies.py:817-838 | the transaction: refused for an unknown target or when the newest version is not the expected one, else exactly one new version |
| PolicyStore.OrganizationPolicyService.PrepareUpdate | src/commitguard/controlplane/policies.py:786-813 | the refusals of update in their order, and the document, changes and verdict it decides on |
| PolicyStore.OrganizationPolicyService.PublishUpdate | src/commitguard/controlplane/policies.py:760-838 | update without interference equals the specification; a refusal changes nothing |
| PolicyStore.OrganizationPolicyService.VerifyIntegrity | src/commitguard/controlplane/policies.py:1143-1160 | accepts exactly intact canonical versions |
| PolicyStore.OrganizationPolicyService.PrepareRollback | src/commitguard/controlplane/policies.py:1030-1059 | the refusals of the second half of rollback in their order, and what it decides on |
| PolicyStore.OrganizationPolicyService.PublishRollback | src/commitguard/controlplane/policies.py:1000-1083 | rollback without interference equals the specification; a refusal changes nothing |
| PolicyRuns.UpdateDecisionIsSound | src/commitguard/controlplane/policies.py:786-813 | what update decides holds a canonical valid document and the changes against the version read |
| PolicyRuns.RollbackDecisionIsSound | src/commitguard/controlplane/policies.py:1019-1055 | the same for rollback, whose two reads may see different states |
| PolicyRuns.EveryRunKeeps | src/commitguard/controlplane/policies.py:760-1083 | every interleaving of reads and commits keeps the invariant, and published versions never change or disappear |
| PolicyRuns.NoLostUpdate | src/commitguard/controlplane/policies.py:786-826 | version n + 1 was decided (changes, verdict, confirmation, recent sign-in, reason) against exactly the policy of version n, and no two published versions name the same expected version |
| PolicyRuns.CommitsIffStillNewest | src/commitguard/controlplane/policies.py:821-826 | a decided change commits if and only if nobody has committed since the version it names |
| PolicyRuns.NeighboursDiffer | src/commitguard/controlplane/policies.py:798-800 | neighbouring versions hold different policies and documents |
| PolicyRuns.StoredVersionsAreIntact | src/commitguard/controlplane/policies.py:566-570 | every stored version of every run passes its integrity check and parses, so the empty-policy fallback is never taken |
| PolicyRuns.RollbackLineage | src/commitguard/controlplane/policies.py:1025-1083 | versions are contiguous from 1, a rollback names the version before it and restores an earlier one, and following restored versions ends at an ordinary change with the identical document |
| PolicyRuns.RollbackRestores | src/commitguard/controlplane/policies.py:1064-1083 | a successful rollback makes the restored version's policy current again |
| PolicyRequests.UpdatePublishes | src/commitguard/controlplane/policies.py:786-826 | a successful update publishes, as the next version, exactly the floors asked for and the defaults asked for - or, if omitted, the previous defaults without the rules that became mandatory - under its own reason, confirmation and sign-in, and changes no other version |
| PolicyRequests.PublishedAsRequested | src/commitguard/controlplane/policies.py:760-826 | the same in every interleaving: from the writer that read, decided and committed to the version stored in every later state |
| PolicyRequests.UpdateDecidedIff | src/commitguard/controlplane/policies.py:786-818 | exactly which updates are decided: newest version named, different policy, no rule mandatory and default, weakening confirmed from a recent sign-in, a reason for a weakening or an emergency |
| PolicyRequests.RefusalIsTrue | src/commitguard/controlplane/policies.py:786-818 | every refusal of an update names a fault that is there |
| PolicyRequests.RollbackDecidedIff | src/commitguard/controlplane/policies.py:1038-1060 | exactly which rollbacks are decided: the version is stored, intact and different, the change confirmed, a weakening one from a recent sign-in |
| PolicyRequests.RollbackPublishes | src/commitguard/controlplane/policies.py:1064-1083 | a successful rollback stores the earlier version's document under its own request, with both versions named, and changes no other version |
| PolicyRequests.UpdateSucceedsIff | src/commitguard/controlplane/policies.py:786-826 | an update that is decided is published if and only if its target is known; a refused one changes nothing |
| PolicyRequests.RollbackSucceedsIff | src/commitguard/controlplane/policies.py:1000-1083 | exactly which rollbacks succeed without interference |
| PolicyRequests.UpdateAlone | src/commitguard/controlplane/policies.py:760-826 | from any state, a writer that reads, decides and commits with nothing in between has the effect of the update as a whole |
| PolicyRequests.RollbackAlone | src/commitguard/controlplane/policies.py:1000-1083 | the same for a rollback with its two reads |
| NotificationSettings.ListDisabled | src/commitguard/notifications/preferences.py:208-225 | the nested loops list the specified deliveries in catalogue order |
| NotificationSettings.NothingDisabledIff | src/commitguard/notifications/preferences.py:208-225 | nothing is listed if and only if every delivery that was on stays on and every recipient is kept |
| NotificationSettings.NotificationService.ValidateDocument | src/commitguard/notifications/preferences.py:144-172 | the loop accepts exactly documents whose entries name declared types and leave mandatory in-app delivery on |
| NotificationSettings.NotificationService.Prepare | src/commitguard/controlplane/notifications.py:562-589 | the validation, the first read, the conflict and the confirmation of update_organization, in this order |
| NotificationSettings.SaveDecidedIff | src/commitguard/controlplane/notifications.py:562-589 | a save is decided if and only if its document is accepted, it names the current version, and it turns nothing off or is confirmed |
| NotificationSettings.NotificationService.Commit | src/commitguard/controlplane/notifications.py:592-614 | replaces the one row in place if and only if its version is still the expected one |
| NotificationSettings.NoLostSave | src/commitguard/controlplane/notifications.py:574-614 | over any interleaving, version v + 1 was decided against exactly what version v held although the row is overwritten; what it turned off was listed and confirmed; mandatory types stay on |
| NotificationSettings.OmittedTypesAreReset | src/commitguard/notifications/preferences.py:78-92 | a save that leaves a type out returns it to its built-in setting: the stored one is kept if and only if it equals the built-in one; if that turns a delivery off, it is listed and confirmed |
| NotificationSettings.OmittedTypeTurnsOn | src/commitguard/notifications/preferences.py:78-92 | by example: a type whose e-mail was turned off is left out of a save, and its e-mail is on again, unlisted and unconfirmed |
| NotificationRequests.NormalizeHolds | src/commitguard/notifications/preferences.py:69-92 | a normalised document has exactly the declared types, each with the value the document gives per channel or the built-in one, mandatory in-app delivery on |
| NotificationRequests.AcceptedIff | src/commitguard/notifications/preferences.py:144-172 | a document is accepted if and only if it names declared types only and turns no mandatory in-app delivery off |
| NotificationRequests.SavesIffStillCurrent | src/commitguard/controlplane/notifications.py:592-614 | a decided save replaces the row if and only if nobody has saved since, and changes nothing otherwise |
| NotificationRequests.ListedIff | src/commitguard/notifications/preferences.py:208-225 | a save lists, channel by channel, exactly the deliveries that were on and will be off, and the number of recipients removed |
| NotificationRequests.SavedAsAsked | src/commitguard/controlplane/notifications.py:562-614 | in every interleaving the version a writer commits holds what its request asked for, and the recipients asked for or those of the version it names |
| NotificationRequests.SaveAlone | src/commitguard/controlplane/notifications.py:562-614 | from any state, a writer that decides and commits with nothing in between has the effect of the save as a whole |
| HookText.JoinSplit | src/commitguard/git/hooks.py:200-202 | splitting a text into lines and joining them gives the text back |
| HookText.SplitJoin | src/commitguard/git/hooks.py:200-202 | and the other way round for lines without newlines |
| HookText.UnquoteUndoesQuote | src/commitguard/git/hooks.py:163-166 | unquoting a shell-quoted path gives the path back, for every path |
| HookBlock.InnerParses | src/commitguard/git/hooks.py:132-197 | the lines between the markers parse to the same hook, the same interpreter path and an intact checksum |
| HookBlock.RenderedFileParses | src/commitguard/git/hooks.py:132-197 | for every interpreter path without newline, carriage return or NUL a rendered hook file parses to one intact block with the same hook and path |
| HookBlock.ParsesAmong | src/commitguard/git/hooks.py:169-197 | the same inside any lines without markers |
| HookBlock.ReplacingKeepsTheRest | src/commitguard/git/hooks.py:342-362 | replacing the block keeps every line before and after it, up to one final newline, and the result parses as intact with the new hook and path |
| HookBlock.RemovingKeepsTheRest | src/commitguard/git/hooks.py:200-202 | removing the block leaves exactly the lines around it |
| HookScript.ShippedIsValid | src/commitguard/git/hooks.py:84-144 | the shipped notice and shell lines of all three hooks are single lines without any meaning to the parser, as the theorems about blocks ask |
| HookFiles.HooksDirectory.InstallHook | src/commitguard/git/hooks.py:324-376 | install_hook, file operation by file operation and with each of them failing, equals the specification |
| HookFiles.HooksDirectory.UninstallHook | src/commitguard/git/hooks.py:379-406 | uninstall_hook likewise |
| HookFiles.ForeignHookIsNeverLost | src/commitguard/git/hooks.py:324-406 | whatever installs (any interpreters) and uninstalls run and whichever file operations fail, a foreign hook stays unchanged at exactly one of the two paths |
| HookFiles.RunPreserves | src/commitguard/git/hooks.py:324-406 | the state behind it: foreign hook in place, or chained behind at most a wrapper; also when there was no hook |
| HookFiles.UninstallUndoesInstall | src/commitguard/git/hooks.py:379-406 | uninstalling after a successful install restores the starting state, with or without a foreign hook |
| HookFiles.InstallIsIdempotent | src/commitguard/git/hooks.py:342-362 | after any successful install the file holds an intact block for that hook and interpreter, and installing again changes nothing |
| HookFiles.UninstallKeepsOtherLines | src/commitguard/git/hooks.py:390-400 | an uninstall that keeps the file leaves exactly the lines around the block and the chained hook |
| HookPairs.BothAreRefused | src/commitguard/git/hooks.py:365-369 | with a hook of somebody else at the path and another file kept at the second path, an install is refused and changes neither |
| HookPairs.BothStay | src/commitguard/git/hooks.py:324-406 | so no run of installs and uninstalls, with any operations failing, changes either file |
| HookPairs.KeptUntilRestored | src/commitguard/git/hooks.py:324-406 | from any two files: the kept one stays where it is until the first uninstall that reports it restored, and that one moves exactly this file back |
| HookPairs.KeptHookIsNeverLost | src/commitguard/git/hooks.py:324-406 | a foreign hook kept behind a wrapper or behind nothing is at exactly one of the two paths in every run |
| HookOutcomes.InstallSucceedsIff | src/commitguard/git/hooks.py:324-376 | if no file operation fails an install succeeds if and only if the interpreter is acceptable and the path is empty, managed, or holds a hook without markers that can be moved aside |
| HookOutcomes.InstallReports | src/commitguard/git/hooks.py:324-376 | each reported success means what it says; after a failed write only a block that was already right is one |
| HookOutcomes.FailedInstallIff | src/commitguard/git/hooks.py:221-231 | a failed install leaves both files as they were, unless a new file had been linked already or the hook moved aside could not be moved back; then it is still at the second path |
| HookOutcomes.UninstallReports | src/commitguard/git/hooks.py:379-406 | a failed uninstall changes nothing, and each reported success means what it says |
| HookOutcomes.OnlyShebangIff | src/commitguard/git/hooks.py:205-207 | what an uninstall treats as an empty hook: blank lines and at most one shebang |
| HookParsing.BlockIff | src/commitguard/git/hooks.py:169-183 | for every text: no block if and only if there is neither marker, a block if and only if there is exactly one of each in order, corrupt otherwise |
| HookParsing.IntactIff | src/commitguard/git/hooks.py:184-188 | a block is intact if and only if one line between its markers is a checksum line and states the checksum of all the others |
| HookParsing.TrimmedLine | src/commitguard/git/hooks.py:172-180 | carriage returns at the end of a line do not count and nothing else is taken away |
| HookParsing.StrippedLine | src/commitguard/git/hooks.py:189-192 | the hook name is read without the white space around it, and nothing else is taken away |
| HookReports.UpToDateIff | src/commitguard/git/hooks.py:254-288 | for every file, if SHA-256 has no second text with the block's checksum: the hook is reported as installed if and only if its block is, line for line, the rendered one, another line follows it and the file is executable |
| HookReports.ReportsAreTrue | src/commitguard/git/hooks.py:254-288 | the other reports are truthful |
| HookStatus.StatusAfterInstall | src/commitguard/git/hooks.py:254-288 | after a successful install the hook is reported up to date if and only if a line follows its block, and outdated otherwise |
| HookStatus.TruncatedHookStaysOutdated | src/commitguard/git/hooks.py:254-288 | such a file by example: a rendered hook without its final newline is left unchanged by install and reported outdated |
| Replacement.ReplaceCharIsOnePass | src/commitguard/github/actions.py:41-46 | replacing one character is a pass over the characters |
| Escaping.EscapeDataIsOnePass | src/commitguard/github/actions.py:41-42 | the chain of escape_data equals one per-character map |
| Escaping.EscapePropertyIsOnePass | src/commitguard/github/actions.py:45-46 | so does the chain of escape_property |
| Escaping.WorkflowEscapesAreSafe | src/commitguard/github/actions.py:41-46 | both can be decoded back; data holds no line break, a property also no colon or comma |
| Escaping.EscapeMarkdown | src/commitguard/github/markdown.py:14-19 | the two loops that reassign the text equal one per-character map |
| Escaping.MarkdownEscapeIsSafe | src/commitguard/github/markdown.py:14-19 | which can be decoded back and leaves no raw angle bracket or bar |
| Escaping.LikeMatchesSubstrings | src/commitguard/controlplane/pagination.py:102-105 | the pattern matches a string if and only if the search text occurs in it |
| Base64Url.CursorRoundTrip | src/commitguard/controlplane/pagination.py:52-66 | stripping the padding and putting it back round-trips every byte string, using the URL-safe alphabet only |
| Base64Url.GroupIsNumber | src/commitguard/controlplane/pagination.py:52-56 | four digits are, in base 64, the number that their three bytes are in base 256 |
| Listings.ConditionFollowsOrder | src/commitguard/controlplane/queries.py:831-891 | for each sort of violations, including the mixed-direction one by repository, the hand-written condition means strictly after the cursor in that order |
| Listings.SelectionIsAfter | src/commitguard/controlplane/queries.py:831-891 | so the selected rows are those after the cursor |
| Listings.ListViolations | src/commitguard/controlplane/queries.py:831-918 | one request returns the page of the specification, and its cursor passes the type check of the next request |
| Listings.PageViolations | src/commitguard/controlplane/queries.py:788-918 | for every sort, following the cursors of list_violations ends and lists every violation of a fixed snapshot exactly once, in the advertised order |
| Listings.ListEvents | src/commitguard/controlplane/queries.py:1374-1408 | one request of the audit list, selecting by its own condition, returns the page of the specification |
| Listings.PageEvents | src/commitguard/controlplane/queries.py:1374-1408 | following the cursors of list_audit lists every event exactly once, in either direction |
| Listings.AuditConditionFollowsOrder | src/commitguard/controlplane/queries.py:1374-1388 | the condition of the audit list means strictly after the cursor, in both directions |
| Listings.ListScans | src/commitguard/controlplane/queries.py:536-564 | one request of the scan list, selecting by its own condition, returns the page of the specification |
| Listings.PageScans | src/commitguard/controlplane/queries.py:536-564 | following the cursors of list_scans over a fixed snapshot lists every scan exactly once, newest or oldest first |
| Listings.ScanConditionFollowsOrder | src/commitguard/controlplane/queries.py:543-546 | the condition of the scan list means strictly after the cursor, in both directions |
| KeysetPaging.RestOfList | src/commitguard/controlplane/queries.py:893-905 | filtering after a row's key and ordering gives the rest of the ordered list |
| KeysetPaging.PageAt | src/commitguard/controlplane/queries.py:893-918 | a page is the next limit rows, with a cursor if and only if more rows follow |
| KeysetPaging.PageIgnoresArrivals | src/commitguard/controlplane/queries.py:543-564 | a page after the first does not depend on rows that arrived in front |
| KeysetPaging.FollowCursors | src/commitguard/controlplane/queries.py:893-918 | following cursors terminates and returns every row of the first page's table exactly once in the advertised order, also while rows arrive in front |
| Listings.NewScansArriveInFront | src/commitguard/controlplane/queries.py:543-564 | newly started scans arrive in front of everything a newest-first reader has yet to read |
| Listings.PageGrowingScans | src/commitguard/controlplane/queries.py:536-564 | paging newest-first by the list's own condition while scans are started returns every initially present scan exactly once, newest first; oldest-first the table must not change |
| CommitRecords.RecordComesBack | src/commitguard/git/repository.py:484-505 | a record parses to its eight fields and its message, whatever the message contains |
| CommitRecords.ReadingUndoesLog | src/commitguard/git/repository.py:168-199 | splitting the log output returns exactly the requested commits in order, also when messages contain NULs or end in newlines, if no record contains the boundary |
| CommitRecords.AcceptedOutput | src/commitguard/git/repository.py:190-199 | output is accepted only with as many records as requested, each under the requested ID, and apart from blank leading data and newlines between records every byte of it is in the result |
| CommitRecords.OneBatch | src/commitguard/git/repository.py:168-199 | a batch is read if and only if the repository has its commits and none is named twice, for git prints a repeated one once; otherwise git fails or the count does |
| CommitRecords.ShaIff | src/commitguard/git/repository.py:145-158 | the IDs that may be asked for: 40 or 64 lower-case hexadecimal digits |
| CommitRecords.ReadCommits | src/commitguard/git/repository.py:145-158 | the batch loop returns the requested commits in order, or refuses: an invalid ID at once, else by the first batch that names a missing commit or names one twice; a commit repeated in different batches is returned twice |
| GitHubRetry.Send | src/commitguard/github/client.py:473-542 | at most the allowed number of sends, going on exactly while an answer may be retried; a request that is not idempotent is re-sent only after a rate limit; total sleep at most (attempts - 1) times the largest cap or one second; the final assertion is never reached |
| RetryOutcomes.TriedAgainIff | src/commitguard/github/client.py:473-542 | an answer is tried again if and only if attempts are left and it is a rate limit that asks for no more than the longest wait, or a failure of the server and the request may be repeated |
| RetryOutcomes.AskedWait | src/commitguard/github/client.py:443-462 | a rate limit asks for the seconds it names, read as a decimal number, else for the time until the limit is reset if nothing is left, else for a minute |
| RetryOutcomes.RateLimitIsRespected | src/commitguard/github/client.py:510-519 | the sleep after a rate limit is what it asks for, or a second if that is longer |
| RetryOutcomes.BackoffDoubles | src/commitguard/github/client.py:439-441 | after a failure of the server the sleep is the jittered delay, doubled with every attempt up to the longest, never negative |
| RetryOutcomes.OutcomeIsTrue | src/commitguard/github/client.py:495-542 | the caller gets a fine answer, or an error that says what the last answer was |

## Left out

- Tenants: one installation and one repository; scopes, roles and the conditions of list filters other than the cursor.
- Scheduled scans: a schedule requests a scan of a branch head; when it is due, and when an unchanged head is skipped, is left out.
- Texts and metadata of violations: titles, authors, severities, evidence, the resolution text, and the clean-up of stored text.
- Notifications, digests, outgoing webhooks, e-mail, metrics, logging, and the HTTP, worker and dashboard layers around the modelled operations.
- The order of audit events of different violations within one transaction, which follows random identifiers.
- Changes of a completed job's state: leases, claims and the failure path of the worker are steps that move unfinished jobs only.
- Retention, which deletes history that the invariants speak about.
- Database: SQL, unique indexes and triggers; a transaction is atomic and tables are maps or sequences.
- MergeGroupDestroyed: the queued pull requests of a merge group and the job stored with its record.
- Workers: of the checks a worker makes before it scans, only those for merge groups and for ownership of the check run; leases are progress of the job.
- ReadCommits: dates, identities, parents and UTF-8 decoding of the returned fields are left as text; Git fails only when a commit is missing.
- Policy documents as bytes: JSON text, the 16 KiB limit (known rules cannot reach it), and rules outside the five built-in ones as keys of stored floors.
- Governance around policy: drafts, approvals, rollouts, exceptions, and combining the floors of several levels.
- PrepareUpdate: reasons arrive already trimmed, and who may publish is not modelled.
- NotificationService.Prepare: validation of channel names, value types and e-mail addresses, and the messages of refusals.
- Hook wrappers: the shell lines of the script and its notice are a parameter of the block theorems, of which `HookScript` gives the shipped one; what the shell does with them is not modelled.
- Status: a report for which no interpreter is expected, which skips the comparison with the rendered block.
- Hook files: the size limit of readable hooks after an update, white space beyond ASCII in the hook name line, other processes writing the same paths, and the global template directory.
- Escaping: redaction and terminal sanitising before Markdown escaping; letter case and the non-substring alternatives of the search condition.
- Cursors: JSON text of cursor values (numbers and texts are compared as values) and the length limit; offset cursors.
- Other paging: exactly-once paging under changes other than arrivals in front, and the members list.
- Send: transport, headers and error bodies; `_paginate` and link headers.
