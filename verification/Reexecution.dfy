/**
 Three ways to run an old scan again - GitHub's re-run, the dashboard's re-scan
 and the automatic retry - each with its own guard against reviving old commits.
 */
module Reexecution {
  import opened Wrappers
  import opened ScanJobs

  const MAX_AUTOMATIC_RETRIES: nat := 2
  const RETRY_BACKOFF: seq<int> := [5 * 60, 20 * 60]
  const RETRY_WINDOW: int := 24 * 60 * 60
  const RECOVERY_BATCH: nat := 50
  /** `list_executions` returns at most this many rows. */
  const EXECUTIONS_LISTED: nat := 100

  predicate Within(rows: seq<nat>, n: nat) {
    forall i :: 0 <= i < |rows| ==> rows[i] < n
  }

  // ---------------------------------------------------------------- GitHub re-run

  datatype RerunOutcome = RerunQueued | RerunDuplicate | MonitoringPaused | NewerCommitScanned | MergeGroupIsGone

  /** `_request_rerun`; `mergeGroupAlive` says whether the merge group still exists. */
  function RequestRerun(jobs: Jobs, row: nat, monitoring: bool, mergeGroupAlive: bool, delivery: string): (Jobs, RerunOutcome)
    requires row < |jobs|
  {
    var job := jobs[row];
    var newest := NewestScan(jobs, job.request.groupKey);
    if !monitoring then (jobs, MonitoringPaused)
    else if newest.Some? && newest.value != job.scanKey then (jobs, NewerCommitScanned)
    else if job.request.event == MergeGroupEvent && !mergeGroupAlive then (jobs, MergeGroupIsGone)
    else
      var (after, created) := CreateExecution(jobs, row, Rerun, Some(delivery), |jobs|);
      (after, if created then RerunQueued else RerunDuplicate)
  }

  function ForCommit(head: string, check: CheckName): ScanJob -> bool {
    (job: ScanJob) => job.request.headSha == head && job.request.checkName == check
  }

  /** `latest_jobs_for_commit`: the newest execution per check name. */
  function LatestJobsForCommit(jobs: Jobs, head: string): (rows: seq<nat>)
    ensures Within(rows, |jobs|)
    ensures forall i :: 0 <= i < |rows| ==> jobs[rows[i]].request.headSha == head
  {
    var one := Latest(jobs, ForCommit(head, AppCheck));
    var two := Latest(jobs, ForCommit(head, AppPushCheck));
    (if one.Some? then [one.value] else []) + if two.Some? then [two.value] else []
  }

  /** "Re-run all checks": the re-runs of `rows`, one after the other. */
  function RerunAll(jobs: Jobs, rows: seq<nat>, monitoring: bool, mergeGroupAlive: bool, delivery: string): (after: Jobs)
    requires Within(rows, |jobs|)
    ensures |jobs| <= |after|
  {
    if rows == [] then jobs
    else
      RequestRerun(RerunAll(jobs, rows[..|rows| - 1], monitoring, mergeGroupAlive, delivery), rows[|rows| - 1],
                   monitoring, mergeGroupAlive, delivery).0
  }

  // ---------------------------------------------------------------- dashboard re-scan

  datatype RescanRefusal = NoPermission | NotFinished | NewerScanExists | InstallationInactive | AccessLost | Paused | AlreadyRunning

  datatype Standing = Standing(canTrigger: bool, installationActive: bool, listed: bool, monitoring: bool)

  /** `rescan_eligibility` */
  function RescanEligibility(jobs: Jobs, row: nat, who: Standing): Option<RescanRefusal>
    requires row < |jobs|
  {
    var latest := LatestGroupJob(jobs, jobs[row].request.groupKey);
    if !who.canTrigger then Some(NoPermission)
    else if Active(jobs[row]) then Some(NotFinished)
    else if latest.Some? && latest.value > row then Some(NewerScanExists)
    else if !who.installationActive then Some(InstallationInactive)
    else if !who.listed then Some(AccessLost)
    else if !who.monitoring then Some(Paused)
    else None
  }

  function RequestRescan(jobs: Jobs, row: nat, who: Standing): (Jobs, Option<RescanRefusal>)
    requires row < |jobs|
  {
    var refusal := RescanEligibility(jobs, row, who);
    if refusal.Some? then (jobs, refusal)
    else
      var (after, created) := CreateExecution(jobs, row, Manual, None, |jobs|);
      (after, if created then None else Some(AlreadyRunning))
  }

  // ---------------------------------------------------------------- automatic retry

  function RetriesAmongNewest(jobs: Jobs, scan: ScanKey, limit: nat): nat {
    if jobs == [] || limit == 0 then 0
    else
      var last, rest := jobs[|jobs| - 1], jobs[..|jobs| - 1];
      if last.scanKey != scan then RetriesAmongNewest(rest, scan, limit)
      else RetriesAmongNewest(rest, scan, limit - 1) + if last.trigger == Retry then 1 else 0
  }

  /** The retry query: failed for a retryable reason, recently, and newest in its group. */
  predicate RetryCandidate(jobs: Jobs, row: nat, now: int)
    requires row < |jobs|
  {
    var job := jobs[row];
    && job.state == Error
    && (job.failure == Some(Infrastructure) || job.failure == Some(FailureKind.Timeout))
    && job.completedAt.Some? && job.completedAt.value >= now - RETRY_WINDOW
    && !exists n :: row < n < |jobs| && jobs[n].request.groupKey == job.request.groupKey
  }

  /** Candidate rows in sequence order. */
  function CandidatesBelow(jobs: Jobs, n: nat, now: int): (rows: seq<nat>)
    requires n <= |jobs|
    ensures Within(rows, n) && forall i :: 0 <= i < |rows| ==> RetryCandidate(jobs, rows[i], now)
    ensures forall r: nat :: r < n && RetryCandidate(jobs, r, now) ==> r in rows
    ensures forall i, j :: 0 <= i < j < |rows| ==> rows[i] < rows[j]
  {
    if n == 0 then [] else CandidatesBelow(jobs, n - 1, now) + if RetryCandidate(jobs, n - 1, now) then [n - 1] else []
  }

  function RetryRows(jobs: Jobs, now: int, installationActive: bool): (rows: seq<nat>)
    ensures Within(rows, |jobs|) && |rows| <= RECOVERY_BATCH
    ensures forall i :: 0 <= i < |rows| ==> RetryCandidate(jobs, rows[i], now)
    ensures forall i, j :: 0 <= i < j < |rows| ==> rows[i] < rows[j]
  {
    if !installationActive then []
    else
      var all := CandidatesBelow(jobs, |jobs|, now);
      if |all| > RECOVERY_BATCH then all[..RECOVERY_BATCH] else all
  }

  /** One turn of the retry loop. */
  function RetryOne(jobs: Jobs, row: nat, now: int, monitoring: bool): (Jobs, bool)
    requires row < |jobs|
  {
    var job := jobs[row];
    if job.state != Error || job.completedAt.None? then (jobs, false)
    else
      var retries := RetriesAmongNewest(jobs, job.scanKey, EXECUTIONS_LISTED);
      if retries >= MAX_AUTOMATIC_RETRIES then (jobs, false)
      else if now - job.completedAt.value < RETRY_BACKOFF[retries] then (jobs, false)
      else if !monitoring then (jobs, false)
      else CreateExecution(jobs, row, Retry, None, |jobs|)
  }

  function RetryAll(jobs: Jobs, rows: seq<nat>, now: int, monitoring: bool): (after: Jobs)
    requires Within(rows, |jobs|)
    ensures |jobs| <= |after|
  {
    if rows == [] then jobs
    else RetryOne(RetryAll(jobs, rows[..|rows| - 1], now, monitoring), rows[|rows| - 1], now, monitoring).0
  }

  function RetrySweep(jobs: Jobs, now: int, installationActive: bool, monitoring: bool): Jobs {
    RetryAll(jobs, RetryRows(jobs, now, installationActive), now, monitoring)
  }

  // ---------------------------------------------------------------- the job table, updated in place

  class ScanJobStore {
    var jobs: Jobs

    constructor ()
      ensures jobs == []
    {
      jobs := [];
    }

    method CheckRunRerequested(row: nat, monitoring: bool, mergeGroupAlive: bool, delivery: string) returns (outcome: RerunOutcome)
      requires row < |jobs|
      modifies this
      ensures (jobs, outcome) == RequestRerun(old(jobs), row, monitoring, mergeGroupAlive, delivery)
    {
      var job := jobs[row];
      if !monitoring {
        return MonitoringPaused;
      }
      var latest := LatestGroupJob(jobs, job.request.groupKey);
      if latest.Some? && jobs[latest.value].scanKey != job.scanKey {
        return NewerCommitScanned;
      }
      if job.request.event == MergeGroupEvent && !mergeGroupAlive {
        return MergeGroupIsGone;
      }
      var (after, created) := CreateExecution(jobs, row, Rerun, Some(delivery), |jobs|);
      jobs := after;
      return if created then RerunQueued else RerunDuplicate;
    }

    method CheckSuiteRerequested(head: string, monitoring: bool, mergeGroupAlive: bool, delivery: string)
      modifies this
      ensures jobs == RerunAll(old(jobs), LatestJobsForCommit(old(jobs), head), monitoring, mergeGroupAlive, delivery)
    {
      var rows := LatestJobsForCommit(jobs, head);
      for i := 0 to |rows|
        invariant jobs == RerunAll(old(jobs), rows[..i], monitoring, mergeGroupAlive, delivery)
      {
        assert rows[..i + 1][..i] == rows[..i];
        var _ := CheckRunRerequested(rows[i], monitoring, mergeGroupAlive, delivery);
      }
      assert rows[..|rows|] == rows;
    }

    method RescanRequested(row: nat, who: Standing) returns (refusal: Option<RescanRefusal>)
      requires row < |jobs|
      modifies this
      ensures (jobs, refusal) == RequestRescan(old(jobs), row, who)
    {
      refusal := RescanEligibility(jobs, row, who);
      if refusal.Some? {
        return;
      }
      var (after, created) := CreateExecution(jobs, row, Manual, None, |jobs|);
      if !created {
        return Some(AlreadyRunning);
      }
      jobs := after;
      return None;
    }

    method RetryFailedScan(row: nat, now: int, monitoring: bool) returns (scheduled: bool)
      requires row < |jobs|
      modifies this
      ensures (jobs, scheduled) == RetryOne(old(jobs), row, now, monitoring)
    {
      var job := jobs[row];
      if job.state != Error || job.completedAt.None? {
        return false;
      }
      var retries := RetriesAmongNewest(jobs, job.scanKey, EXECUTIONS_LISTED);
      if retries >= MAX_AUTOMATIC_RETRIES {
        return false;
      }
      if now - job.completedAt.value < RETRY_BACKOFF[retries] {
        return false;
      }
      if !monitoring {
        return false;
      }
      var (after, created) := CreateExecution(jobs, row, Retry, None, |jobs|);
      jobs := after;
      return created;
    }

    method RetryFailedScans(now: int, installationActive: bool, monitoring: bool) returns (scheduled: nat)
      modifies this
      ensures jobs == RetrySweep(old(jobs), now, installationActive, monitoring)
      ensures |jobs| == |old(jobs)| + scheduled && scheduled <= RECOVERY_BATCH
    {
      var rows := RetryRows(jobs, now, installationActive);
      scheduled := 0;
      for i := 0 to |rows|
        invariant jobs == RetryAll(old(jobs), rows[..i], now, monitoring)
        invariant |jobs| == |old(jobs)| + scheduled && scheduled <= i
      {
        RetryAllStep(old(jobs), rows, i, now, monitoring);
        RetryOneAppends(jobs, rows[i], now, monitoring);
        var created := RetryFailedScan(rows[i], now, monitoring);
        if created {
          scheduled := scheduled + 1;
        }
      }
      assert rows[..|rows|] == rows;
    }
  }

  // ---------------------------------------------------------------- no path revives old commits

  /** `after` is `jobs`, or `jobs` with one more execution of the scan that was newest in its group. */
  ghost predicate RunsNewestAgain(jobs: Jobs, row: nat, trigger: Trigger, delivery: Option<string>, after: Jobs)
    requires row < |jobs|
  {
    || after == jobs
    || (&& after == CreateExecution(jobs, row, trigger, delivery, |jobs|).0
        && NewestScan(jobs, jobs[row].request.groupKey) == Some(jobs[row].scanKey))
  }

  lemma RunsNewestAgainKeepsNewest(jobs: Jobs, row: nat, trigger: Trigger, delivery: Option<string>, after: Jobs)
    requires WellFormed(jobs) && row < |jobs| && RunsNewestAgain(jobs, row, trigger, delivery, after)
    ensures WellFormed(after) && SameNewest(jobs, after)
  {
    ExecutionAndNewestScan(jobs, row, trigger, delivery, |jobs|);
  }

  lemma RerunGuard(jobs: Jobs, row: nat, monitoring: bool, mergeGroupAlive: bool, delivery: string)
    requires row < |jobs|
    ensures RunsNewestAgain(jobs, row, Rerun, Some(delivery), RequestRerun(jobs, row, monitoring, mergeGroupAlive, delivery).0)
  {
    assert InGroup(jobs[row].request.groupKey)(jobs[row]);
  }

  lemma RerunKeepsNewest(jobs: Jobs, row: nat, monitoring: bool, mergeGroupAlive: bool, delivery: string)
    requires WellFormed(jobs) && row < |jobs|
    ensures WellFormed(RequestRerun(jobs, row, monitoring, mergeGroupAlive, delivery).0)
    ensures SameNewest(jobs, RequestRerun(jobs, row, monitoring, mergeGroupAlive, delivery).0)
  {
    RerunGuard(jobs, row, monitoring, mergeGroupAlive, delivery);
    var after := RequestRerun(jobs, row, monitoring, mergeGroupAlive, delivery).0;
    RunsNewestAgainKeepsNewest(jobs, row, Rerun, Some(delivery), after);
  }

  lemma {:induction false} RerunAllKeepsNewest(jobs: Jobs, rows: seq<nat>, monitoring: bool, mergeGroupAlive: bool, delivery: string)
    requires WellFormed(jobs) && Within(rows, |jobs|)
    ensures WellFormed(RerunAll(jobs, rows, monitoring, mergeGroupAlive, delivery))
    ensures SameNewest(jobs, RerunAll(jobs, rows, monitoring, mergeGroupAlive, delivery))
  {
    if rows != [] {
      var rest := rows[..|rows| - 1];
      RerunAllKeepsNewest(jobs, rest, monitoring, mergeGroupAlive, delivery);
      RerunKeepsNewest(RerunAll(jobs, rest, monitoring, mergeGroupAlive, delivery), rows[|rows| - 1], monitoring, mergeGroupAlive, delivery);
    }
  }

  lemma EligibleIsNewest(jobs: Jobs, row: nat, who: Standing)
    requires row < |jobs| && RescanEligibility(jobs, row, who).None?
    ensures LatestGroupJob(jobs, jobs[row].request.groupKey) == Some(row)
  {
    assert InGroup(jobs[row].request.groupKey)(jobs[row]);
  }

  lemma RescanKeepsNewest(jobs: Jobs, row: nat, who: Standing)
    requires WellFormed(jobs) && row < |jobs|
    ensures WellFormed(RequestRescan(jobs, row, who).0)
    ensures SameNewest(jobs, RequestRescan(jobs, row, who).0)
  {
    var after := RequestRescan(jobs, row, who).0;
    if RescanEligibility(jobs, row, who).None? {
      EligibleIsNewest(jobs, row, who);
    }
    RunsNewestAgainKeepsNewest(jobs, row, Manual, None, after);
  }

  predicate NewestInGroup(jobs: Jobs, row: nat) {
    row < |jobs| && LatestGroupJob(jobs, jobs[row].request.groupKey) == Some(row)
  }

  lemma RetryOneKeepsNewest(jobs: Jobs, row: nat, now: int, monitoring: bool)
    requires WellFormed(jobs) && NewestInGroup(jobs, row)
    ensures
      var after := RetryOne(jobs, row, now, monitoring).0;
      && WellFormed(after) && SameNewest(jobs, after)
      && (forall r: nat :: NewestInGroup(jobs, r) && jobs[r].request.groupKey != jobs[row].request.groupKey ==> NewestInGroup(after, r))
  {
    ExecutionAndNewestScan(jobs, row, Retry, None, |jobs|);
  }

  lemma CandidateIsNewest(jobs: Jobs, row: nat, now: int)
    requires row < |jobs| && RetryCandidate(jobs, row, now)
    ensures NewestInGroup(jobs, row)
  {
    assert InGroup(jobs[row].request.groupKey)(jobs[row]);
  }

  /** A retry appends at most one row, and reports whether it did. */
  lemma RetryOneAppends(jobs: Jobs, row: nat, now: int, monitoring: bool)
    requires row < |jobs|
    ensures jobs <= RetryOne(jobs, row, now, monitoring).0
    ensures |RetryOne(jobs, row, now, monitoring).0| == |jobs| + if RetryOne(jobs, row, now, monitoring).1 then 1 else 0
  {
  }

  lemma RetryAllStep(jobs: Jobs, rows: seq<nat>, i: nat, now: int, monitoring: bool)
    requires Within(rows, |jobs|) && i < |rows|
    ensures RetryAll(jobs, rows[..i + 1], now, monitoring) == RetryOne(RetryAll(jobs, rows[..i], now, monitoring), rows[i], now, monitoring).0
  {
    assert rows[..i + 1][..i] == rows[..i];
  }

  lemma NewestOfDifferentGroups(jobs: Jobs, a: nat, b: nat)
    requires NewestInGroup(jobs, a) && NewestInGroup(jobs, b) && a != b
    ensures jobs[a].request.groupKey != jobs[b].request.groupKey
  {
  }

  lemma SameNewestReflexive(jobs: Jobs)
    ensures SameNewest(jobs, jobs)
  {
  }

  lemma SameNewestTransitive(a: Jobs, b: Jobs, c: Jobs)
    requires SameNewest(a, b) && SameNewest(b, c)
    ensures SameNewest(a, c)
  {
    forall g
      ensures NewestScan(c, g) == NewestScan(a, g)
    {
      assert NewestScan(b, g) == NewestScan(a, g);
    }
  }

  /** During the sweep the rows still to come stay newest in their groups. */
  lemma {:induction false} RetryAllKeepsNewest(jobs: Jobs, rows: seq<nat>, k: nat, now: int, monitoring: bool)
    requires WellFormed(jobs) && k <= |rows|
    requires Within(rows, |jobs|) && forall i :: 0 <= i < |rows| ==> NewestInGroup(jobs, rows[i])
    requires forall i, j :: 0 <= i < j < |rows| ==> rows[i] < rows[j]
    ensures
      var after := RetryAll(jobs, rows[..k], now, monitoring);
      && WellFormed(after) && SameNewest(jobs, after) && jobs <= after
      && (forall i :: k <= i < |rows| ==> NewestInGroup(after, rows[i]))
  {
    hide WellFormed, RetryOne, SameNewest, NewestInGroup, LatestGroupJob;
    if k == 0 {
      SameNewestReflexive(jobs);
    } else {
      assert rows[..k][..k - 1] == rows[..k - 1];
      RetryAllKeepsNewest(jobs, rows, k - 1, now, monitoring);
      var before := RetryAll(jobs, rows[..k - 1], now, monitoring);
      var row := rows[k - 1];
      RetryOneKeepsNewest(before, row, now, monitoring);
      RetryOneAppends(before, row, now, monitoring);
      SameNewestTransitive(jobs, before, RetryOne(before, row, now, monitoring).0);
      forall i | k <= i < |rows|
        ensures before[rows[i]].request.groupKey != before[row].request.groupKey
      {
        NewestOfDifferentGroups(before, rows[i], row);
      }
    }
  }

  lemma SweepKeepsNewest(jobs: Jobs, now: int, installationActive: bool, monitoring: bool)
    requires WellFormed(jobs)
    ensures WellFormed(RetrySweep(jobs, now, installationActive, monitoring))
    ensures SameNewest(jobs, RetrySweep(jobs, now, installationActive, monitoring))
  {
    var rows := RetryRows(jobs, now, installationActive);
    forall i | 0 <= i < |rows|
      ensures NewestInGroup(jobs, rows[i])
    {
      CandidateIsNewest(jobs, rows[i], now);
    }
    RetryAllKeepsNewest(jobs, rows, |rows|, now, monitoring);
    assert rows[..|rows|] == rows;
  }

  // ---------------------------------------------------------------- whole runs

  datatype JobTableStep =
    | NewScan(request: NewScanJob)
    | RerunCheck(row: nat, monitoring: bool, mergeGroupAlive: bool, delivery: string)
    | RerunSuite(head: string, monitoring: bool, mergeGroupAlive: bool, delivery: string)
    | Rescan(row: nat, who: Standing)
    | Sweep(now: int, installationActive: bool, monitoring: bool)
    | Moves(row: nat, state: JobState, failure: Option<FailureKind>, completedAt: Option<int>)

  predicate StepAllowed(jobs: Jobs, step: JobTableStep) {
    match step
    case NewScan(request) => FirstRequest(request)
    case RerunCheck(row, _, _, _) => row < |jobs|
    case RerunSuite(_, _, _, _) => true
    case Rescan(row, _) => row < |jobs|
    case Sweep(_, _, _) => true
    case Moves(row, _, _, _) => row < |jobs|
  }

  function AfterStep(jobs: Jobs, step: JobTableStep): Jobs {
    if !StepAllowed(jobs, step) then jobs
    else
      match step
      case NewScan(request) => CreateJob(jobs, request).0
      case RerunCheck(row, monitoring, alive, delivery) => RequestRerun(jobs, row, monitoring, alive, delivery).0
      case RerunSuite(head, monitoring, alive, delivery) => RerunAll(jobs, LatestJobsForCommit(jobs, head), monitoring, alive, delivery)
      case Rescan(row, who) => RequestRescan(jobs, row, who).0
      case Sweep(now, active, monitoring) => RetrySweep(jobs, now, active, monitoring)
      case Moves(row, state, failure, at) => jobs[row := jobs[row].(state := state, failure := failure, completedAt := at)]
  }

  function AfterSteps(jobs: Jobs, steps: seq<JobTableStep>): Jobs {
    if steps == [] then jobs else AfterStep(AfterSteps(jobs, steps[..|steps| - 1]), steps[|steps| - 1])
  }

  /** The scan of the group's last webhook or scheduled request that was not a duplicate. */
  function LastNewScan(jobs: Jobs, steps: seq<JobTableStep>, group: GroupKey): Option<ScanKey> {
    if steps == [] then NewestScan(jobs, group)
    else
      var rest, last := steps[..|steps| - 1], steps[|steps| - 1];
      if last.NewScan? && FirstRequest(last.request) && last.request.groupKey == group && CreateJob(AfterSteps(jobs, rest), last.request).1
      then Some(last.request.jobKey.scan)
      else LastNewScan(jobs, rest, group)
  }

  lemma StepAndNewest(jobs: Jobs, step: JobTableStep)
    requires WellFormed(jobs)
    ensures WellFormed(AfterStep(jobs, step))
    ensures !step.NewScan? ==> SameNewest(jobs, AfterStep(jobs, step))
  {
    if StepAllowed(jobs, step) {
      match step
      case NewScan(request) => CreateJobKeepsTable(jobs, request);
      case RerunCheck(row, monitoring, alive, delivery) => RerunKeepsNewest(jobs, row, monitoring, alive, delivery);
      case RerunSuite(head, monitoring, alive, delivery) =>
        RerunAllKeepsNewest(jobs, LatestJobsForCommit(jobs, head), monitoring, alive, delivery);
      case Rescan(row, who) => RescanKeepsNewest(jobs, row, who);
      case Sweep(now, active, monitoring) => SweepKeepsNewest(jobs, now, active, monitoring);
      case Moves(_, _, _, _) => ProgressKeepsTable(jobs, AfterStep(jobs, step));
    }
  }

  /**
   Over any run, a group's newest scan is the one its last new webhook or schedule asked for:
   no re-run, re-scan or retry ever puts an older scan in front, and the newest
   job's commit is that scan's commit.
   */
  lemma {:induction false} OnlyNewScansMoveTheNewestScan(jobs: Jobs, steps: seq<JobTableStep>, group: GroupKey)
    requires WellFormed(jobs)
    ensures WellFormed(AfterSteps(jobs, steps))
    ensures NewestScan(AfterSteps(jobs, steps), group) == LastNewScan(jobs, steps, group)
  {
    if steps != [] {
      var rest, last := steps[..|steps| - 1], steps[|steps| - 1];
      OnlyNewScansMoveTheNewestScan(jobs, rest, group);
      var before := AfterSteps(jobs, rest);
      StepAndNewest(before, last);
      if last.NewScan? && FirstRequest(last.request) {
        CreateJobKeepsTable(before, last.request);
      }
    }
  }

  /** The newest job scans the commit its scan key names. */
  lemma NewestJobScansItsCommit(jobs: Jobs, group: GroupKey)
    requires WellFormed(jobs) && LatestGroupJob(jobs, group).Some?
    ensures
      var job := jobs[LatestGroupJob(jobs, group).value];
      job.request.headSha == HeadOf(NewestScan(jobs, group).value) && GroupOf(job.scanKey, job.request.ref) == group
  {
    assert InGroup(group)(jobs[LatestGroupJob(jobs, group).value]);
  }

  // ---------------------------------------------------------------- guard and insertion are separate transactions

  /** What each way of running a scan again checks before it inserts the execution. */
  datatype Guard =
    | RerunCheckGuard(mergeGroupAlive: bool, delivery: string)
    | RescanGuard(who: Standing)
    | RetryQuery(now: int)

  predicate Passes(jobs: Jobs, row: nat, guard: Guard)
    requires row < |jobs|
  {
    var job := jobs[row];
    match guard
    case RerunCheckGuard(alive, _) =>
      var newest := NewestScan(jobs, job.request.groupKey);
      !(newest.Some? && newest.value != job.scanKey) && !(job.request.event == MergeGroupEvent && !alive)
    case RescanGuard(who) => RescanEligibility(jobs, row, who).None?
    case RetryQuery(now) => row in RetryRows(jobs, now, true)
  }

  /** The insertion, in the state it finds; a retry first reads its job and the executions again. */
  function Insert(jobs: Jobs, row: nat, guard: Guard): (Jobs, bool)
    requires row < |jobs|
  {
    match guard
    case RerunCheckGuard(_, delivery) => CreateExecution(jobs, row, Rerun, Some(delivery), |jobs|)
    case RescanGuard(_) => CreateExecution(jobs, row, Manual, None, |jobs|)
    case RetryQuery(now) => RetryOne(jobs, row, now, true)
  }

  /** The operations above are guard and insertion with nothing in between. */
  lemma GuardThenInsert(jobs: Jobs, row: nat, alive: bool, delivery: string, who: Standing)
    requires row < |jobs|
    ensures RequestRerun(jobs, row, true, alive, delivery).0
         == if Passes(jobs, row, RerunCheckGuard(alive, delivery)) then Insert(jobs, row, RerunCheckGuard(alive, delivery)).0 else jobs
    ensures RequestRescan(jobs, row, who).0 == if Passes(jobs, row, RescanGuard(who)) then Insert(jobs, row, RescanGuard(who)).0 else jobs
  {
    ExecutionAppends(jobs, row, Manual, None, |jobs|);
  }

  lemma GuardSeesNewest(jobs: Jobs, row: nat, guard: Guard)
    requires row < |jobs| && Passes(jobs, row, guard)
    ensures NewestScan(jobs, jobs[row].request.groupKey) == Some(jobs[row].scanKey)
  {
    assert InGroup(jobs[row].request.groupKey)(jobs[row]);
    match guard
    case RerunCheckGuard(_, _) =>
    case RescanGuard(who) => EligibleIsNewest(jobs, row, who);
    case RetryQuery(now) => CandidateIsNewest(jobs, row, now);
  }

  /** The rows of `a` are still where they were, with their identities. */
  ghost predicate RowsStay(a: Jobs, b: Jobs) {
    |a| <= |b| && forall i :: 0 <= i < |a| ==> SameRow(a[i], b[i])
  }

  lemma {:induction false} RerunAllRowsStay(jobs: Jobs, rows: seq<nat>, monitoring: bool, alive: bool, delivery: string)
    requires Within(rows, |jobs|)
    ensures RowsStay(jobs, RerunAll(jobs, rows, monitoring, alive, delivery))
  {
    if rows != [] {
      var before := RerunAll(jobs, rows[..|rows| - 1], monitoring, alive, delivery);
      RerunAllRowsStay(jobs, rows[..|rows| - 1], monitoring, alive, delivery);
      RerunGuard(before, rows[|rows| - 1], monitoring, alive, delivery);
      ExecutionAppends(before, rows[|rows| - 1], Rerun, Some(delivery), |before|);
    }
  }

  lemma {:induction false} RetryAllRowsStay(jobs: Jobs, rows: seq<nat>, now: int, monitoring: bool)
    requires Within(rows, |jobs|)
    ensures RowsStay(jobs, RetryAll(jobs, rows, now, monitoring))
  {
    hide RetryOne;
    if rows != [] {
      RetryAllRowsStay(jobs, rows[..|rows| - 1], now, monitoring);
      RetryOneAppends(RetryAll(jobs, rows[..|rows| - 1], now, monitoring), rows[|rows| - 1], now, monitoring);
    }
  }

  lemma StepRowsStay(jobs: Jobs, step: JobTableStep)
    ensures RowsStay(jobs, AfterStep(jobs, step))
  {
    if StepAllowed(jobs, step) {
      match step
      case NewScan(_) =>
      case RerunCheck(row, monitoring, alive, delivery) =>
        RerunGuard(jobs, row, monitoring, alive, delivery);
        ExecutionAppends(jobs, row, Rerun, Some(delivery), |jobs|);
      case RerunSuite(head, monitoring, alive, delivery) =>
        RerunAllRowsStay(jobs, LatestJobsForCommit(jobs, head), monitoring, alive, delivery);
      case Rescan(row, _) => ExecutionAppends(jobs, row, Manual, None, |jobs|);
      case Sweep(now, active, monitoring) => RetryAllRowsStay(jobs, RetryRows(jobs, now, active), now, monitoring);
      case Moves(_, _, _, _) =>
    }
  }

  lemma {:induction false} RunRowsStay(jobs: Jobs, steps: seq<JobTableStep>)
    ensures RowsStay(jobs, AfterSteps(jobs, steps))
  {
    hide AfterStep;
    if steps != [] {
      RunRowsStay(jobs, steps[..|steps| - 1]);
      StepRowsStay(AfterSteps(jobs, steps[..|steps| - 1]), steps[|steps| - 1]);
    }
  }

  /** The scan of the group's last new request within `steps`, if there is one. */
  function RequestedBetween(jobs: Jobs, steps: seq<JobTableStep>, group: GroupKey): Option<ScanKey> {
    if steps == [] then None
    else
      var rest, last := steps[..|steps| - 1], steps[|steps| - 1];
      if last.NewScan? && FirstRequest(last.request) && last.request.groupKey == group && CreateJob(AfterSteps(jobs, rest), last.request).1
      then Some(last.request.jobKey.scan)
      else RequestedBetween(jobs, rest, group)
  }

  lemma {:induction false} RequestedOrBefore(jobs: Jobs, steps: seq<JobTableStep>, group: GroupKey)
    ensures LastNewScan(jobs, steps, group)
         == if RequestedBetween(jobs, steps, group).Some? then RequestedBetween(jobs, steps, group) else NewestScan(jobs, group)
  {
    hide AfterSteps, CreateJob, NewestScan;
    if steps != [] {
      RequestedOrBefore(jobs, steps[..|steps| - 1], group);
    }
  }

  /**
   Anything may happen between the guard of a re-run, re-scan or retry and its
   insertion. The insertion then leaves every newest scan alone if and only if it
   adds nothing, no new scan of the group was requested in between, or the last
   one requested is the same scan.
   */
  lemma GuardRace(jobs: Jobs, row: nat, guard: Guard, steps: seq<JobTableStep>)
    requires WellFormed(jobs) && row < |jobs| && Passes(jobs, row, guard)
    ensures
      var later := AfterSteps(jobs, steps);
      && row < |later|
      && (SameNewest(later, Insert(later, row, guard).0)
          <==> || !Insert(later, row, guard).1
               || RequestedBetween(jobs, steps, jobs[row].request.groupKey).None?
               || RequestedBetween(jobs, steps, jobs[row].request.groupKey) == Some(jobs[row].scanKey))
  {
    hide Passes, RetryOne, CreateExecution, AfterSteps, LastNewScan, RequestedBetween, SameNewest, NewestScan;
    GuardSeesNewest(jobs, row, guard);
    RequestedOrBefore(jobs, steps, jobs[row].request.groupKey);
    var later := AfterSteps(jobs, steps);
    RunRowsStay(jobs, steps);
    OnlyNewScansMoveTheNewestScan(jobs, steps, jobs[row].request.groupKey);
    assert SameRow(jobs[row], later[row]);
    InsertAndNewest(later, row, guard);
  }

  /** Whatever a retry checks, it is an execution or nothing. */
  lemma RetryIsExecution(jobs: Jobs, row: nat, now: int, monitoring: bool)
    requires row < |jobs|
    ensures RetryOne(jobs, row, now, monitoring) == (jobs, false)
            || RetryOne(jobs, row, now, monitoring) == CreateExecution(jobs, row, Retry, None, |jobs|)
  {
  }

  lemma ExecutionOrNothing(jobs: Jobs, row: nat, trigger: Trigger, delivery: Option<string>, result: (Jobs, bool))
    requires WellFormed(jobs) && row < |jobs|
    requires result == (jobs, false) || result == CreateExecution(jobs, row, trigger, delivery, |jobs|)
    ensures SameNewest(jobs, result.0) <==> !result.1 || NewestScan(jobs, jobs[row].request.groupKey) == Some(jobs[row].scanKey)
    ensures result.1 ==> NewestScan(result.0, jobs[row].request.groupKey) == Some(jobs[row].scanKey)
  {
    hide CreateExecution, NewestScan;
    ExecutionAndNewestScan(jobs, row, trigger, delivery, |jobs|);
    SameNewestReflexive(jobs);
  }

  lemma InsertAndNewest(jobs: Jobs, row: nat, guard: Guard)
    requires WellFormed(jobs) && row < |jobs|
    ensures SameNewest(jobs, Insert(jobs, row, guard).0)
            <==> !Insert(jobs, row, guard).1 || NewestScan(jobs, jobs[row].request.groupKey) == Some(jobs[row].scanKey)
    ensures Insert(jobs, row, guard).1 ==> NewestScan(Insert(jobs, row, guard).0, jobs[row].request.groupKey) == Some(jobs[row].scanKey)
  {
    hide CreateExecution, RetryOne, NewestScan, SameNewest, WellFormed;
    match guard
    case RerunCheckGuard(_, delivery) => ExecutionOrNothing(jobs, row, Rerun, Some(delivery), Insert(jobs, row, guard));
    case RescanGuard(_) => ExecutionOrNothing(jobs, row, Manual, None, Insert(jobs, row, guard));
    case RetryQuery(now) =>
      RetryIsExecution(jobs, row, now, true);
      ExecutionOrNothing(jobs, row, Retry, None, Insert(jobs, row, guard));
  }

  const EVERYTHING_ALLOWED := Standing(true, true, true, true)

  /** A scan is queued and fails for a retryable reason at time 0. */
  function FailedOnce(first: NewScanJob): seq<JobTableStep> {
    [NewScan(first), Moves(0, Error, Some(Infrastructure), Some(0))]
  }

  function FailedOnceRow(first: NewScanJob): ScanJob
    requires first.jobKey.KeyOfScan?
  {
    ScanJob(first, first.jobKey.scan, 1, TriggerOf(first), None, Error, Some(Infrastructure), Some(0))
  }

  lemma FailedOnceReaches(first: NewScanJob)
    requires FirstRequest(first)
    ensures AfterSteps([], FailedOnce(first)) == [FailedOnceRow(first)]
  {
    var steps := FailedOnce(first);
    assert steps[..1] == [NewScan(first)] && steps[..1][..0] == [];
    assert AfterSteps([], []) == [];
    assert AfterSteps([], steps[..1]) == AfterStep([], NewScan(first));
  }

  lemma AllGuardsPass(first: NewScanJob)
    requires FirstRequest(first)
    ensures Passes([FailedOnceRow(first)], 0, RerunCheckGuard(true, "delivery"))
    ensures Passes([FailedOnceRow(first)], 0, RescanGuard(EVERYTHING_ALLOWED))
    ensures Passes([FailedOnceRow(first)], 0, RetryQuery(RETRY_BACKOFF[0]))
  {
    var jobs := [FailedOnceRow(first)];
    assert InGroup(first.groupKey)(jobs[0]);
    assert RetryCandidate(jobs, 0, RETRY_BACKOFF[0]);
    assert CandidatesBelow(jobs, 1, RETRY_BACKOFF[0]) == CandidatesBelow(jobs, 0, RETRY_BACKOFF[0]) + [0] == [0];
  }

  function SecondRow(second: NewScanJob): ScanJob
    requires second.jobKey.KeyOfScan?
  {
    ScanJob(second, second.jobKey.scan, 1, TriggerOf(second), None, Queued, None, None)
  }

  lemma SecondScanArrives(first: NewScanJob, second: NewScanJob)
    requires FirstRequest(first) && FirstRequest(second) && first.jobKey.scan != second.jobKey.scan
    ensures AfterStep([FailedOnceRow(first)], NewScan(second)) == [FailedOnceRow(first), SecondRow(second)]
    ensures second.groupKey == first.groupKey ==>
      NewestScan([FailedOnceRow(first), SecondRow(second)], first.groupKey) == Some(second.jobKey.scan)
  {
    var jobs := [FailedOnceRow(first)];
    assert jobs[..0] == [];
    assert MaxExecution([], second.jobKey.scan) == 0;
    assert MaxExecution(jobs, second.jobKey.scan) == 0;
    assert Latest(jobs, SameJobKey(second.jobKey)) == None;
    assert InGroup(second.groupKey)([FailedOnceRow(first), SecondRow(second)][1]);
  }

  lemma EveryInsertionSucceeds(first: NewScanJob, second: NewScanJob, guard: Guard)
    requires FirstRequest(first) && FirstRequest(second) && first.jobKey.scan != second.jobKey.scan
    requires first.deliveryId != Some("delivery")
    requires guard in {RerunCheckGuard(true, "delivery"), RescanGuard(EVERYTHING_ALLOWED), RetryQuery(RETRY_BACKOFF[0])}
    ensures Insert([FailedOnceRow(first), SecondRow(second)], 0, guard).1
  {
    var jobs := [FailedOnceRow(first), SecondRow(second)];
    assert jobs[..1] == [FailedOnceRow(first)] && jobs[..1][..0] == [];
    assert Latest(jobs, ActiveOfScan(first.jobKey.scan)) == None;
    assert Latest(jobs, SameDelivery(first.jobKey.scan, "delivery")) == None;
    assert RetriesAmongNewest([], first.jobKey.scan, EXECUTIONS_LISTED) == 0;
    assert RetriesAmongNewest([FailedOnceRow(first)], first.jobKey.scan, EXECUTIONS_LISTED) == 0;
    assert RetriesAmongNewest(jobs, first.jobKey.scan, EXECUTIONS_LISTED) == 0;
  }

  /**
   The race by example, for all three guards: they pass for a failed scan, a new
   scan of the same group is queued, and the insertion puts the old scan in front.
   */
  lemma OldScanOvertakes(first: NewScanJob, second: NewScanJob, guard: Guard)
    requires FirstRequest(first) && FirstRequest(second)
    requires first.groupKey == second.groupKey && first.jobKey.scan != second.jobKey.scan && first.deliveryId != Some("delivery")
    requires guard in {RerunCheckGuard(true, "delivery"), RescanGuard(EVERYTHING_ALLOWED), RetryQuery(RETRY_BACKOFF[0])}
    ensures
      var jobs := AfterSteps([], FailedOnce(first));
      var later := AfterSteps([], FailedOnce(first) + [NewScan(second)]);
      && 0 < |jobs| <= |later| && Passes(jobs, 0, guard)
      && NewestScan(later, first.groupKey) == Some(second.jobKey.scan)
      && NewestScan(Insert(later, 0, guard).0, first.groupKey) == Some(first.jobKey.scan)
  {
    hide Insert, AfterSteps, AfterStep, Passes, NewestScan;
    FailedOnceReaches(first);
    AllGuardsPass(first);
    SecondScanArrives(first, second);
    AfterOneMore(FailedOnce(first), NewScan(second));
    EveryInsertionSucceeds(first, second, guard);
    RunIsWellFormed(FailedOnce(first) + [NewScan(second)]);
    InsertAndNewest([FailedOnceRow(first), SecondRow(second)], 0, guard);
  }

  lemma AfterOneMore(steps: seq<JobTableStep>, step: JobTableStep)
    ensures AfterSteps([], steps + [step]) == AfterStep(AfterSteps([], steps), step)
  {
    assert (steps + [step])[..|steps|] == steps;
  }

  lemma RunIsWellFormed(steps: seq<JobTableStep>)
    ensures WellFormed(AfterSteps([], steps))
  {
    OnlyNewScansMoveTheNewestScan([], steps, PullRequestGroup(0));
  }
}
