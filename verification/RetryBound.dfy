/**
 How many automatic retries one scan can get. The sweep counts the retries
 among the scan's newest hundred executions only. The first execution never is
 a retry, so "at most two" holds up to 102 executions of a scan and can fail
 from 103 on.
 */
module RetryBound {
  import opened Wrappers
  import opened ScanJobs
  import opened Reexecution

  function Retries(jobs: Jobs, scan: ScanKey): nat {
    if jobs == [] then 0
    else
      var last := jobs[|jobs| - 1];
      Retries(jobs[..|jobs| - 1], scan) + if last.scanKey == scan && last.trigger == Retry then 1 else 0
  }

  /** The scan was executed before, and fewer than two of its newest hundred executions were retries. */
  predicate MayRetry(jobs: Jobs, scan: ScanKey) {
    ExecutionCount(jobs, scan) > 0 && RetriesAmongNewest(jobs, scan, EXECUTIONS_LISTED) < MAX_AUTOMATIC_RETRIES
  }

  /** Every retry was added when one was allowed. */
  ghost predicate RetryGuarded(jobs: Jobs) {
    forall i :: 0 <= i < |jobs| && jobs[i].trigger == Retry ==> MayRetry(jobs[..i], jobs[i].scanKey)
  }

  // ---------------------------------------------------------------- every step keeps the guard

  lemma {:induction false} RetriesSameRows(a: Jobs, b: Jobs, scan: ScanKey, limit: nat)
    requires SameRows(a, b)
    ensures RetriesAmongNewest(a, scan, limit) == RetriesAmongNewest(b, scan, limit)
  {
    if a != [] && limit > 0 {
      var n := |a| - 1;
      assert SameRow(a[n], b[n]);
      RetriesSameRows(a[..n], b[..n], scan, if a[n].scanKey == scan then limit - 1 else limit);
    }
  }

  lemma ProgressKeepsGuard(a: Jobs, b: Jobs)
    requires RetryGuarded(a) && SameRows(a, b)
    ensures RetryGuarded(b)
  {
    forall i | 0 <= i < |b| && b[i].trigger == Retry
      ensures MayRetry(b[..i], b[i].scanKey)
    {
      assert SameRow(a[i], b[i]);
      CountSameRows(a[..i], b[..i], b[i].scanKey);
      RetriesSameRows(a[..i], b[..i], b[i].scanKey, EXECUTIONS_LISTED);
    }
  }

  lemma AppendKeepsGuard(jobs: Jobs, row: ScanJob)
    requires RetryGuarded(jobs)
    requires row.trigger == Retry ==> MayRetry(jobs, row.scanKey)
    ensures RetryGuarded(jobs + [row])
  {
    var after := jobs + [row];
    assert forall i :: 0 <= i <= |jobs| ==> after[..i] == jobs[..i];
    assert jobs[..|jobs|] == jobs;
  }

  lemma {:induction false} ExecutedBefore(jobs: Jobs, row: nat)
    requires row < |jobs|
    ensures ExecutionCount(jobs, jobs[row].scanKey) > 0
  {
    if row < |jobs| - 1 {
      ExecutedBefore(jobs[..|jobs| - 1], row);
    }
  }

  lemma ExecutionKeepsGuard(jobs: Jobs, previous: nat, trigger: Trigger, delivery: Option<string>, uuid: nat)
    requires RetryGuarded(jobs) && previous < |jobs|
    requires trigger == Retry ==> RetriesAmongNewest(jobs, jobs[previous].scanKey, EXECUTIONS_LISTED) < MAX_AUTOMATIC_RETRIES
    ensures RetryGuarded(CreateExecution(jobs, previous, trigger, delivery, uuid).0)
  {
    var (after, created) := CreateExecution(jobs, previous, trigger, delivery, uuid);
    ExecutionAppends(jobs, previous, trigger, delivery, uuid);
    ExecutedBefore(jobs, previous);
    if created {
      AppendKeepsGuard(jobs, after[|jobs|]);
    }
  }

  lemma RerunKeepsGuard(jobs: Jobs, row: nat, monitoring: bool, mergeGroupAlive: bool, delivery: string)
    requires RetryGuarded(jobs) && row < |jobs|
    ensures RetryGuarded(RequestRerun(jobs, row, monitoring, mergeGroupAlive, delivery).0)
  {
    RerunGuard(jobs, row, monitoring, mergeGroupAlive, delivery);
    ExecutionKeepsGuard(jobs, row, Rerun, Some(delivery), |jobs|);
  }

  lemma {:induction false} RerunAllKeepsGuard(jobs: Jobs, rows: seq<nat>, monitoring: bool, mergeGroupAlive: bool, delivery: string)
    requires RetryGuarded(jobs) && Within(rows, |jobs|)
    ensures RetryGuarded(RerunAll(jobs, rows, monitoring, mergeGroupAlive, delivery))
  {
    if rows != [] {
      var rest := rows[..|rows| - 1];
      RerunAllKeepsGuard(jobs, rest, monitoring, mergeGroupAlive, delivery);
      RerunKeepsGuard(RerunAll(jobs, rest, monitoring, mergeGroupAlive, delivery), rows[|rows| - 1], monitoring, mergeGroupAlive, delivery);
    }
  }

  lemma RetryOneKeepsGuard(jobs: Jobs, row: nat, now: int, monitoring: bool)
    requires RetryGuarded(jobs) && row < |jobs|
    ensures RetryGuarded(RetryOne(jobs, row, now, monitoring).0)
  {
    if RetriesAmongNewest(jobs, jobs[row].scanKey, EXECUTIONS_LISTED) < MAX_AUTOMATIC_RETRIES {
      ExecutionKeepsGuard(jobs, row, Retry, None, |jobs|);
    }
  }

  lemma {:induction false} RetryAllKeepsGuard(jobs: Jobs, rows: seq<nat>, now: int, monitoring: bool)
    requires RetryGuarded(jobs) && Within(rows, |jobs|)
    ensures RetryGuarded(RetryAll(jobs, rows, now, monitoring))
  {
    if rows != [] {
      var rest := rows[..|rows| - 1];
      RetryAllKeepsGuard(jobs, rest, now, monitoring);
      RetryOneKeepsGuard(RetryAll(jobs, rest, now, monitoring), rows[|rows| - 1], now, monitoring);
    }
  }

  lemma NewScanKeepsGuard(jobs: Jobs, request: NewScanJob)
    requires RetryGuarded(jobs) && request.jobKey.KeyOfScan?
    ensures RetryGuarded(CreateJob(jobs, request).0)
  {
    if CreateJob(jobs, request).1 {
      AppendKeepsGuard(jobs, CreateJob(jobs, request).0[|jobs|]);
    }
  }

  lemma StepKeepsGuard(jobs: Jobs, step: JobTableStep)
    requires RetryGuarded(jobs)
    ensures RetryGuarded(AfterStep(jobs, step))
  {
    if StepAllowed(jobs, step) {
      match step
      case NewScan(request) => NewScanKeepsGuard(jobs, request);
      case RerunCheck(row, monitoring, alive, delivery) => RerunKeepsGuard(jobs, row, monitoring, alive, delivery);
      case RerunSuite(head, monitoring, alive, delivery) =>
        RerunAllKeepsGuard(jobs, LatestJobsForCommit(jobs, head), monitoring, alive, delivery);
      case Rescan(row, who) => ExecutionKeepsGuard(jobs, row, Manual, None, |jobs|);
      case Sweep(now, active, monitoring) => RetryAllKeepsGuard(jobs, RetryRows(jobs, now, active), now, monitoring);
      case Moves(_, _, _, _) => ProgressKeepsGuard(jobs, AfterStep(jobs, step));
    }
  }

  lemma {:induction false} RunKeepsGuard(steps: seq<JobTableStep>)
    ensures RetryGuarded(AfterSteps([], steps))
  {
    if steps != [] {
      RunKeepsGuard(steps[..|steps| - 1]);
      StepKeepsGuard(AfterSteps([], steps[..|steps| - 1]), steps[|steps| - 1]);
    }
  }

  // ---------------------------------------------------------------- the bound

  lemma {:induction false} WiderWindow(jobs: Jobs, scan: ScanKey, limit: nat)
    ensures RetriesAmongNewest(jobs, scan, limit) <= RetriesAmongNewest(jobs, scan, limit + 1)
  {
    if jobs != [] && limit > 0 {
      WiderWindow(jobs[..|jobs| - 1], scan, if jobs[|jobs| - 1].scanKey == scan then limit - 1 else limit);
    }
  }

  lemma {:induction false} GuardBoundsWindow(jobs: Jobs, scan: ScanKey)
    requires RetryGuarded(jobs)
    ensures RetriesAmongNewest(jobs, scan, EXECUTIONS_LISTED + 1) <= MAX_AUTOMATIC_RETRIES
  {
    if jobs != [] {
      var rest, last := jobs[..|jobs| - 1], jobs[|jobs| - 1];
      assert forall i :: 0 <= i < |rest| ==> jobs[..i] == rest[..i];
      GuardBoundsWindow(rest, scan);
      WiderWindow(rest, scan, EXECUTIONS_LISTED);
    }
  }

  lemma {:induction false} WindowSeesAll(jobs: Jobs, scan: ScanKey, limit: nat)
    requires ExecutionCount(jobs, scan) <= limit
    ensures RetriesAmongNewest(jobs, scan, limit) == Retries(jobs, scan)
  {
    if jobs != [] {
      var rest, last := jobs[..|jobs| - 1], jobs[|jobs| - 1];
      if last.scanKey == scan {
        WindowSeesAll(rest, scan, limit - 1);
      } else {
        WindowSeesAll(rest, scan, limit);
      }
      if limit == 0 {
        assert RetriesAmongNewest(rest, scan, 0) == 0;
      }
    }
  }

  /** The oldest execution is no retry, so a window one shorter than the history already sees every retry. */
  lemma {:induction false} WindowSeesRetries(jobs: Jobs, scan: ScanKey, limit: nat)
    requires RetryGuarded(jobs) && ExecutionCount(jobs, scan) <= limit + 1
    ensures RetriesAmongNewest(jobs, scan, limit) == Retries(jobs, scan)
  {
    if jobs != [] {
      var rest, last := jobs[..|jobs| - 1], jobs[|jobs| - 1];
      GuardedBefore(jobs);
      if last.scanKey != scan {
        WindowSeesRetries(rest, scan, limit);
      } else if limit > 0 {
        WindowSeesRetries(rest, scan, limit - 1);
      } else {
        NoExecutions(rest, scan);
      }
    }
  }

  lemma GuardedBefore(jobs: Jobs)
    requires jobs != [] && RetryGuarded(jobs)
    ensures RetryGuarded(jobs[..|jobs| - 1])
    ensures jobs[|jobs| - 1].trigger == Retry ==> MayRetry(jobs[..|jobs| - 1], jobs[|jobs| - 1].scanKey)
  {
    var rest := jobs[..|jobs| - 1];
    assert forall i :: 0 <= i < |rest| ==> jobs[..i] == rest[..i];
  }

  lemma {:induction false} NoExecutions(jobs: Jobs, scan: ScanKey)
    requires ExecutionCount(jobs, scan) == 0
    ensures Retries(jobs, scan) == 0
  {
    if jobs != [] {
      NoExecutions(jobs[..|jobs| - 1], scan);
    }
  }

  lemma {:induction false} GuardBoundsRetries(jobs: Jobs, scan: ScanKey)
    requires RetryGuarded(jobs) && ExecutionCount(jobs, scan) <= EXECUTIONS_LISTED + 2
    ensures Retries(jobs, scan) <= MAX_AUTOMATIC_RETRIES
  {
    if jobs != [] {
      var rest, last := jobs[..|jobs| - 1], jobs[|jobs| - 1];
      GuardedBefore(jobs);
      GuardBoundsRetries(rest, scan);
      if last.scanKey == scan {
        WindowSeesRetries(rest, scan, EXECUTIONS_LISTED);
      }
    }
  }

  /**
   In every run, at most two of any scan's newest 101 executions are automatic
   retries, and a scan executed at most 102 times was retried at most twice.
   */
  lemma RetriesAreBounded(steps: seq<JobTableStep>, scan: ScanKey)
    ensures
      var jobs := AfterSteps([], steps);
      && RetriesAmongNewest(jobs, scan, EXECUTIONS_LISTED + 1) <= MAX_AUTOMATIC_RETRIES
      && (ExecutionCount(jobs, scan) <= EXECUTIONS_LISTED + 2 ==> Retries(jobs, scan) <= MAX_AUTOMATIC_RETRIES)
  {
    var jobs := AfterSteps([], steps);
    RunKeepsGuard(steps);
    GuardBoundsWindow(jobs, scan);
    if ExecutionCount(jobs, scan) <= EXECUTIONS_LISTED + 2 {
      GuardBoundsRetries(jobs, scan);
    }
  }

  // ---------------------------------------------------------------- runs with a third retry

  /** Longer than both back-offs; row k of the runs below is queued and fails at time k * LATER. */
  const LATER := 20 * 60

  function TriggerAt(first: NewScanJob, k: nat): Trigger {
    if k == 0 then TriggerOf(first) else if k <= 2 then Retry else Manual
  }

  function RequestAt(first: NewScanJob, k: nat): NewScanJob {
    if k == 0 then first else first.(jobKey := ExecutionKey(TriggerAt(first, k), k), deliveryId := None)
  }

  function FailedRow(first: NewScanJob, k: nat): ScanJob
    requires first.jobKey.KeyOfScan?
  {
    ScanJob(RequestAt(first, k), first.jobKey.scan, k + 1, TriggerAt(first, k), if k == 0 then None else Some(k - 1),
            Error, Some(Infrastructure), Some(k * LATER))
  }

  lemma FailedRowFacts(first: NewScanJob, k: nat)
    requires first.jobKey.KeyOfScan?
    ensures
      var row := FailedRow(first, k);
      && row.scanKey == first.jobKey.scan && row.execution == k + 1 && row.trigger == TriggerAt(first, k)
      && row.state == Error && row.completedAt == Some(k * LATER) && row.request == RequestAt(first, k)
  {
  }

  /** A first scan, two automatic retries, and then re-scans by hand; all of them failed. */
  function FailedRows(first: NewScanJob, n: nat): (jobs: Jobs)
    requires first.jobKey.KeyOfScan?
    ensures |jobs| == n && forall k :: 0 <= k < n ==> jobs[k] == FailedRow(first, k)
  {
    if n == 0 then [] else FailedRows(first, n - 1) + [FailedRow(first, n - 1)]
  }

  function Adds(first: NewScanJob, n: nat): JobTableStep {
    if n == 0 then NewScan(first)
    else if n <= 2 then Sweep(n * LATER, true, true)
    else Rescan(n - 1, Standing(true, true, true, true))
  }

  function Fails(n: nat): JobTableStep {
    Moves(n, Error, Some(Infrastructure), Some(n * LATER))
  }

  /** What the clock shows at a step that reads or stores it. */
  function TimeOf(step: JobTableStep): Option<int> {
    match step
    case Sweep(now, _, _) => Some(now)
    case Moves(_, _, _, at) => at
    case _ => None
  }

  /** The clock does not run backwards. */
  ghost predicate InTime(steps: seq<JobTableStep>) {
    forall i, j :: 0 <= i < j < |steps| && TimeOf(steps[i]).Some? && TimeOf(steps[j]).Some? ==>
      TimeOf(steps[i]).value <= TimeOf(steps[j]).value
  }

  function FailingRun(first: NewScanJob, n: nat): seq<JobTableStep> {
    if n == 0 then [] else FailingRun(first, n - 1) + [Adds(first, n - 1), Fails(n - 1)]
  }

  /** What one more row does to the counts. */
  lemma CountsAppend(jobs: Jobs, row: ScanJob, scan: ScanKey, limit: nat)
    requires row.scanKey == scan
    ensures MaxExecution(jobs + [row], scan) == if row.execution > MaxExecution(jobs, scan) then row.execution else MaxExecution(jobs, scan)
    ensures ExecutionCount(jobs + [row], scan) == ExecutionCount(jobs, scan) + 1
    ensures Retries(jobs + [row], scan) == Retries(jobs, scan) + if row.trigger == Retry then 1 else 0
    ensures limit > 0 ==>
      RetriesAmongNewest(jobs + [row], scan, limit) == RetriesAmongNewest(jobs, scan, limit - 1) + if row.trigger == Retry then 1 else 0
  {
    assert (jobs + [row])[..|jobs|] == jobs;
  }

  lemma {:induction false} FailedRowsExecutions(first: NewScanJob, n: nat)
    requires first.jobKey.KeyOfScan?
    ensures MaxExecution(FailedRows(first, n), first.jobKey.scan) == n
    ensures ExecutionCount(FailedRows(first, n), first.jobKey.scan) == n
  {
    hide FailedRow, MaxExecution, ExecutionCount, Retries, RetriesAmongNewest;
    if n == 0 {
      NoRows(first.jobKey.scan);
    } else {
      FailedRowFacts(first, n - 1);
      CountsAppend(FailedRows(first, n - 1), FailedRow(first, n - 1), first.jobKey.scan, 0);
      FailedRowsExecutions(first, n - 1);
    }
  }

  lemma NoRows(scan: ScanKey)
    ensures MaxExecution([], scan) == 0 && ExecutionCount([], scan) == 0 && Retries([], scan) == 0
  {
  }

  lemma {:induction false} FailedRowsRetries(first: NewScanJob, n: nat)
    requires first.jobKey.KeyOfScan?
    ensures Retries(FailedRows(first, n), first.jobKey.scan) == if n == 0 then 0 else if n <= 2 then n - 1 else 2
  {
    hide FailedRow, MaxExecution, ExecutionCount, Retries, RetriesAmongNewest;
    if n == 0 {
      NoRows(first.jobKey.scan);
    } else {
      FailedRowFacts(first, n - 1);
      CountsAppend(FailedRows(first, n - 1), FailedRow(first, n - 1), first.jobKey.scan, 0);
      FailedRowsRetries(first, n - 1);
    }
  }

  lemma EmptyWindow(jobs: Jobs, scan: ScanKey)
    ensures RetriesAmongNewest(jobs, scan, 0) == 0
  {
  }

  lemma {:induction false} FailedRowsWindow(first: NewScanJob, n: nat, limit: nat)
    requires first.jobKey.KeyOfScan? && n >= limit + 2
    ensures RetriesAmongNewest(FailedRows(first, n), first.jobKey.scan, limit) <= if n >= limit + 3 then 0 else 1
  {
    hide FailedRow, MaxExecution, ExecutionCount, Retries, RetriesAmongNewest;
    if limit == 0 {
      EmptyWindow(FailedRows(first, n), first.jobKey.scan);
    } else {
      FailedRowFacts(first, n - 1);
      CountsAppend(FailedRows(first, n - 1), FailedRow(first, n - 1), first.jobKey.scan, limit);
      FailedRowsWindow(first, n - 1, limit - 1);
      if limit == 1 {
        EmptyWindow(FailedRows(first, n - 1), first.jobKey.scan);
      }
    }
  }

  /** A new execution of the last failed row. */
  function Queued(first: NewScanJob, n: nat, trigger: Trigger): ScanJob
    requires first.jobKey.KeyOfScan? && n > 0
  {
    ScanJob(first.(jobKey := ExecutionKey(trigger, n), deliveryId := None), first.jobKey.scan, n + 1, trigger,
            Some(n - 1), JobState.Queued, None, None)
  }

  lemma ExecutionOfFailedRows(first: NewScanJob, n: nat, trigger: Trigger)
    requires first.jobKey.KeyOfScan? && n > 0
    ensures CreateExecution(FailedRows(first, n), n - 1, trigger, None, n)
            == (FailedRows(first, n) + [Queued(first, n, trigger)], true)
  {
    hide MaxExecution, FailedRow, FailedRows;
    FailedRowsExecutions(first, n);
    NoneActive(first, n);
    FailedRowFacts(first, n - 1);
  }

  lemma NoneActive(first: NewScanJob, n: nat)
    requires first.jobKey.KeyOfScan?
    ensures Latest(FailedRows(first, n), ActiveOfScan(first.jobKey.scan)) == None
  {
    hide FailedRow, FailedRows, Latest;
    forall k | 0 <= k < n
      ensures !ActiveOfScan(first.jobKey.scan)(FailedRows(first, n)[k])
    {
      FailedRowFacts(first, k);
    }
  }

  lemma LastFailedIsCandidate(first: NewScanJob, n: nat, row: nat)
    requires first.jobKey.KeyOfScan? && row < n
    ensures RetryCandidate(FailedRows(first, n), row, n * LATER) <==> row == n - 1
  {
    var jobs := FailedRows(first, n);
    assert jobs[n - 1].request.groupKey == jobs[row].request.groupKey;
  }

  /** The sweep looks at the last of the failed rows and no other. */
  lemma SweptRows(first: NewScanJob, n: nat)
    requires first.jobKey.KeyOfScan? && n > 0
    ensures RetryRows(FailedRows(first, n), n * LATER, true) == [n - 1]
  {
    var jobs := FailedRows(first, n);
    var earlier := CandidatesBelow(jobs, n - 1, n * LATER);
    LastFailedIsCandidate(first, n, n - 1);
    if earlier != [] {
      LastFailedIsCandidate(first, n, earlier[0]);
    }
  }

  lemma RetriesLast(first: NewScanJob, n: nat)
    requires first.jobKey.KeyOfScan? && n > 0
    requires RetriesAmongNewest(FailedRows(first, n), first.jobKey.scan, EXECUTIONS_LISTED) < MAX_AUTOMATIC_RETRIES
    ensures RetryOne(FailedRows(first, n), n - 1, n * LATER, true).0 == FailedRows(first, n) + [Queued(first, n, Retry)]
  {
    hide FailedRow, FailedRows, RetriesAmongNewest, CreateExecution, Latest;
    FailedRowFacts(first, n - 1);
    ExecutionOfFailedRows(first, n, Retry);
  }

  /** If few enough retries are in sight, the sweep adds one. */
  lemma SweepOfFailedRows(first: NewScanJob, n: nat)
    requires first.jobKey.KeyOfScan? && n > 0
    requires RetriesAmongNewest(FailedRows(first, n), first.jobKey.scan, EXECUTIONS_LISTED) < MAX_AUTOMATIC_RETRIES
    ensures RetrySweep(FailedRows(first, n), n * LATER, true, true) == FailedRows(first, n) + [Queued(first, n, Retry)]
  {
    hide FailedRow, FailedRows, RetryRows, RetriesAmongNewest, RetryOne, Queued;
    var jobs := FailedRows(first, n);
    SweptRows(first, n);
    RetriesLast(first, n);
    RetryAllStep(jobs, [n - 1], 0, n * LATER, true);
    assert [n - 1][..1] == [n - 1] && [n - 1][..0] == [];
  }

  function FreshRow(first: NewScanJob, n: nat): ScanJob
    requires first.jobKey.KeyOfScan?
  {
    FailedRow(first, n).(state := JobState.Queued, failure := None, completedAt := None)
  }

  lemma FirstAddsRow(first: NewScanJob)
    requires FirstRequest(first)
    ensures AfterStep([], NewScan(first)) == [FreshRow(first, 0)]
  {
  }

  lemma FewRetriesInSight(first: NewScanJob, n: nat)
    requires first.jobKey.KeyOfScan? && n <= 2
    ensures RetriesAmongNewest(FailedRows(first, n), first.jobKey.scan, EXECUTIONS_LISTED) < MAX_AUTOMATIC_RETRIES
  {
    FailedRowsExecutions(first, n);
    FailedRowsRetries(first, n);
    WindowSeesAll(FailedRows(first, n), first.jobKey.scan, EXECUTIONS_LISTED);
  }

  lemma SweepAddsRow(first: NewScanJob, n: nat)
    requires first.jobKey.KeyOfScan? && 0 < n <= 2
    ensures RetrySweep(FailedRows(first, n), n * LATER, true, true) == FailedRows(first, n) + [FreshRow(first, n)]
  {
    FewRetriesInSight(first, n);
    SweepOfFailedRows(first, n);
    FreshIsQueued(first, n);
  }

  lemma FreshIsQueued(first: NewScanJob, n: nat)
    requires first.jobKey.KeyOfScan? && n > 0
    ensures FreshRow(first, n) == Queued(first, n, TriggerAt(first, n))
  {
  }

  lemma RescanAddsRow(first: NewScanJob, n: nat)
    requires FirstRequest(first) && n > 2
    ensures AfterStep(FailedRows(first, n), Rescan(n - 1, Standing(true, true, true, true)))
            == FailedRows(first, n) + [FreshRow(first, n)]
  {
    hide FailedRow, FailedRows, CreateExecution, Latest;
    var jobs := FailedRows(first, n);
    FailedRowFacts(first, n - 1);
    assert InGroup(first.groupKey)(jobs[n - 1]);
    FreshIsQueued(first, n);
    assert RescanEligibility(jobs, n - 1, Standing(true, true, true, true)).None?;
    ExecutionOfFailedRows(first, n, Manual);
  }

  lemma AddsRow(first: NewScanJob, n: nat)
    requires FirstRequest(first)
    ensures AfterStep(FailedRows(first, n), Adds(first, n)) == FailedRows(first, n) + [FreshRow(first, n)]
  {
    hide CreateJob, CreateExecution, RetrySweep, RequestRescan, FailedRow, FreshRow, FailedRows;
    if n == 0 {
      FirstAddsRow(first);
      assert FailedRows(first, 0) == [];
      assert FailedRows(first, n) + [FreshRow(first, 0)] == [FreshRow(first, 0)];
    } else if n <= 2 {
      SweepAddsRow(first, n);
    } else {
      RescanAddsRow(first, n);
    }
  }

  lemma FailsRow(first: NewScanJob, n: nat)
    requires first.jobKey.KeyOfScan?
    ensures AfterStep(FailedRows(first, n) + [FreshRow(first, n)], Fails(n)) == FailedRows(first, n + 1)
  {
  }

  lemma EmptyRun(first: NewScanJob)
    requires first.jobKey.KeyOfScan?
    ensures AfterSteps([], FailingRun(first, 0)) == FailedRows(first, 0)
  {
  }

  lemma {:induction false} FailingRunReaches(first: NewScanJob, n: nat)
    requires FirstRequest(first)
    ensures AfterSteps([], FailingRun(first, n)) == FailedRows(first, n)
  {
    hide AfterStep, FailedRow, FreshRow, FailedRows, AfterSteps;
    if n == 0 {
      EmptyRun(first);
    } else {
      FailingRunReaches(first, n - 1);
      var before := FailingRun(first, n - 1);
      AddsRow(first, n - 1);
      FailsRow(first, n - 1);
      AfterTwoSteps([], before, Adds(first, n - 1), Fails(n - 1));
    }
  }

  lemma AfterTwoSteps(jobs: Jobs, steps: seq<JobTableStep>, one: JobTableStep, two: JobTableStep)
    ensures AfterSteps(jobs, steps + [one]) == AfterStep(AfterSteps(jobs, steps), one)
    ensures AfterSteps(jobs, steps + [one, two]) == AfterStep(AfterStep(AfterSteps(jobs, steps), one), two)
  {
    hide AfterStep;
    assert (steps + [one])[..|steps|] == steps;
    assert (steps + [one, two])[..|steps| + 1] == steps + [one];
  }

  /** No step is after time `t`, and the clock does not run backwards. */
  ghost predicate InTimeUntil(steps: seq<JobTableStep>, t: int) {
    InTime(steps) && forall i :: 0 <= i < |steps| && TimeOf(steps[i]).Some? ==> TimeOf(steps[i]).value <= t
  }

  lemma LaterInTime(steps: seq<JobTableStep>, t: int, u: int)
    requires t <= u && (steps == [] || InTimeUntil(steps, t))
    ensures InTimeUntil(steps, u) && InTime(steps)
  {
  }

  lemma OneMoreInTime(steps: seq<JobTableStep>, t: int, step: JobTableStep, u: int)
    requires InTimeUntil(steps, t) && t <= u && (TimeOf(step).Some? ==> TimeOf(step).value == u)
    ensures InTimeUntil(steps + [step], u)
  {
  }

  lemma {:induction false} FailingRunInTime(first: NewScanJob, n: nat)
    ensures InTimeUntil(FailingRun(first, n), n * LATER)
    ensures InTime(FailingRun(first, n) + [Sweep(n * LATER, true, true)])
  {
    hide InTimeUntil;
    if n > 0 {
      var before, t := FailingRun(first, n - 1), (n - 1) * LATER;
      FailingRunInTime(first, n - 1);
      OneMoreInTime(before, t, Adds(first, n - 1), t);
      OneMoreInTime(before + [Adds(first, n - 1)], t, Fails(n - 1), t);
      assert before + [Adds(first, n - 1)] + [Fails(n - 1)] == FailingRun(first, n);
      LaterInTime(FailingRun(first, n), t, n * LATER);
    } else {
      LaterInTime([], 0, 0);
    }
    OneMoreInTime(FailingRun(first, n), n * LATER, Sweep(n * LATER, true, true), n * LATER);
    LaterInTime(FailingRun(first, n) + [Sweep(n * LATER, true, true)], n * LATER, n * LATER);
  }

  /**
   "At most two automatic retries for each scan" fails for every scan: once 99
   re-scans by hand have failed after the first execution and the two retries,
   the next sweep adds a third.
   */
  lemma ThirdRetry(first: NewScanJob, n: nat)
    requires FirstRequest(first) && n >= EXECUTIONS_LISTED + 2
    ensures
      var steps, scan := FailingRun(first, n), first.jobKey.scan;
      && Retries(AfterSteps([], steps), scan) == 2
      && Retries(AfterSteps([], steps + [Sweep(n * LATER, true, true)]), scan) == 3
      && ExecutionCount(AfterSteps([], steps + [Sweep(n * LATER, true, true)]), scan) == n + 1
      && InTime(steps + [Sweep(n * LATER, true, true)])
  {
    hide InTime, RetrySweep, FailedRow, FailedRows, AfterSteps, RetriesAmongNewest, FailingRun, ExecutionCount;
    var steps := FailingRun(first, n);
    FailingRunReaches(first, n);
    FailingRunInTime(first, n);
    FailedRowsRetries(first, n);
    FailedRowsExecutions(first, n);
    FailedRowsWindow(first, n, EXECUTIONS_LISTED);
    SweepOfFailedRows(first, n);
    AfterTwoSteps([], steps, Sweep(n * LATER, true, true), Fails(n));
    OneMoreRetry(first, n);
  }

  lemma OneMoreRetry(first: NewScanJob, n: nat)
    requires first.jobKey.KeyOfScan? && n > 0
    ensures Retries(FailedRows(first, n) + [Queued(first, n, Retry)], first.jobKey.scan)
            == Retries(FailedRows(first, n), first.jobKey.scan) + 1
    ensures ExecutionCount(FailedRows(first, n) + [Queued(first, n, Retry)], first.jobKey.scan)
            == ExecutionCount(FailedRows(first, n), first.jobKey.scan) + 1
  {
    hide FailedRows, FailedRow, Retries, ExecutionCount;
    CountsAppend(FailedRows(first, n), Queued(first, n, Retry), first.jobKey.scan, 0);
  }

  /** Some run, on a clock that does not run backwards, executes the scan `n` times with more than two automatic retries. */
  ghost predicate OverRetried(scan: ScanKey, n: nat) {
    exists steps :: InTime(steps) && ExecutionCount(AfterSteps([], steps), scan) == n && Retries(AfterSteps([], steps), scan) > MAX_AUTOMATIC_RETRIES
  }

  /** The threshold: every scan can be over-retried with `n` executions exactly when `n` is at least 103. */
  lemma OverRetriedIff(first: NewScanJob, n: nat)
    requires FirstRequest(first)
    ensures OverRetried(first.jobKey.scan, n) <==> n >= EXECUTIONS_LISTED + 3
  {
    hide AfterSteps, ExecutionCount, Retries, FailingRun, InTime;
    if OverRetried(first.jobKey.scan, n) {
      var steps :| InTime(steps) && ExecutionCount(AfterSteps([], steps), first.jobKey.scan) == n
                   && Retries(AfterSteps([], steps), first.jobKey.scan) > MAX_AUTOMATIC_RETRIES;
      RetriesAreBounded(steps, first.jobKey.scan);
    }
    if n >= EXECUTIONS_LISTED + 3 {
      ThirdRetry(first, n - 1);
      var steps := FailingRun(first, n - 1) + [Sweep((n - 1) * LATER, true, true)];
      assert Retries(AfterSteps([], steps), first.jobKey.scan) == 3;
    }
  }
}
