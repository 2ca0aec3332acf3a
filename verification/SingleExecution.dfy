/** A scan under way is not started again: when exactly an execution is created, and how a scan can still run twice. */
module SingleExecution {
  import opened Wrappers
  import opened ScanJobs
  import opened Reexecution
  import opened RetryBound

  /** Some execution of the scan is queued or running. */
  predicate UnderWay(jobs: Jobs, scan: ScanKey) {
    exists i :: 0 <= i < |jobs| && jobs[i].scanKey == scan && (jobs[i].state == Queued || jobs[i].state == Running)
  }

  /** Some execution of the scan came from this delivery. */
  predicate Delivered(jobs: Jobs, scan: ScanKey, delivery: Option<string>) {
    delivery.Some? && exists i :: 0 <= i < |jobs| && jobs[i].scanKey == scan && jobs[i].request.deliveryId == delivery
  }

  /** Everything about a job that a new execution takes over from the stored one. */
  predicate SameWork(a: ScanJob, b: ScanJob) {
    && a.scanKey == b.scanKey
    && a.request.event == b.request.event && a.request.groupKey == b.request.groupKey
    && a.request.headSha == b.request.headSha && a.request.checkName == b.request.checkName
    && a.request.pullRequest == b.request.pullRequest && a.request.ref == b.request.ref
  }

  /**
   A new execution is created if and only if none of the scan is under way and the
   delivery, if there is one, is new to it. It is queued at the end of the table,
   takes over the stored job's work, and names it as its predecessor.
   */
  lemma ExecutionCreatedIff(jobs: Jobs, previous: nat, trigger: Trigger, delivery: Option<string>, uuid: nat)
    requires previous < |jobs|
    ensures
      var (after, created) := CreateExecution(jobs, previous, trigger, delivery, uuid);
      var scan := jobs[previous].scanKey;
      && (created <==> !UnderWay(jobs, scan) && !Delivered(jobs, scan, delivery))
      && (!created ==> after == jobs)
      && (created ==>
            && |after| == |jobs| + 1 && after[..|jobs|] == jobs && SameWork(jobs[previous], after[|jobs|])
            && after[|jobs|].state == Queued && after[|jobs|].trigger == trigger
            && after[|jobs|].previous == Some(previous) && after[|jobs|].request.deliveryId == delivery)
  {
    var scan := jobs[previous].scanKey;
    if UnderWay(jobs, scan) {
      var i: nat :| i < |jobs| && jobs[i].scanKey == scan && (jobs[i].state == Queued || jobs[i].state == Running);
      assert ActiveOfScan(scan)(jobs[i]);
    }
    if Delivered(jobs, scan, delivery) {
      var i: nat :| i < |jobs| && jobs[i].scanKey == scan && jobs[i].request.deliveryId == delivery;
      assert SameDelivery(scan, delivery.value)(jobs[i]);
    }
  }

  /**
   A requested scan gets a job if and only if the newest job with its own key, if
   there is one, ended in an error or was cancelled; that job is its predecessor.
   */
  lemma JobCreatedIff(jobs: Jobs, request: NewScanJob)
    requires request.jobKey.KeyOfScan?
    ensures
      var (after, created) := CreateJob(jobs, request);
      && (created <==> forall i :: 0 <= i < |jobs| && NewestWithKey(jobs, i, request.jobKey) ==> Unsuccessful(jobs[i]))
      && (!created ==> after == jobs)
      && (created ==>
            && |after| == |jobs| + 1 && after[..|jobs|] == jobs
            && after[|jobs|].request == request && after[|jobs|].scanKey == request.jobKey.scan && after[|jobs|].state == Queued
            && after[|jobs|].trigger == (if request.event == ScheduledEvent then Scheduled else Webhook)
            && (after[|jobs|].previous.Some? <==> exists i :: 0 <= i < |jobs| && jobs[i].request.jobKey == request.jobKey)
            && (after[|jobs|].previous.Some? ==> NewestWithKey(jobs, after[|jobs|].previous.value, request.jobKey)))
  {
    var latest := Latest(jobs, SameJobKey(request.jobKey));
    forall i | 0 <= i < |jobs| && jobs[i].request.jobKey == request.jobKey
      ensures latest.Some? && i <= latest.value
    {
      assert SameJobKey(request.jobKey)(jobs[i]);
    }
    if latest.Some? {
      assert SameJobKey(request.jobKey)(jobs[latest.value]);
      assert NewestWithKey(jobs, latest.value, request.jobKey);
    }
  }

  predicate NewestWithKey(jobs: Jobs, i: int, key: JobKey) {
    && 0 <= i < |jobs| && jobs[i].request.jobKey == key
    && forall n :: i < n < |jobs| ==> jobs[n].request.jobKey != key
  }

  predicate Unsuccessful(job: ScanJob) {
    job.state == Error || job.state == Cancelled
  }

  /** GitHub's re-run queues an execution if and only if nothing speaks against it; otherwise it changes nothing. */
  lemma RerunQueuedIff(jobs: Jobs, row: nat, monitoring: bool, alive: bool, delivery: string)
    requires row < |jobs|
    ensures
      var (after, outcome) := RequestRerun(jobs, row, monitoring, alive, delivery);
      var job := jobs[row];
      && (outcome == RerunQueued <==>
            && monitoring && NewestScan(jobs, job.request.groupKey) == Some(job.scanKey)
            && (job.request.event == MergeGroupEvent ==> alive)
            && !UnderWay(jobs, job.scanKey) && !Delivered(jobs, job.scanKey, Some(delivery)))
      && (outcome == RerunQueued ==> |after| == |jobs| + 1)
      && (outcome != RerunQueued ==> after == jobs)
      && (outcome == RerunDuplicate ==> UnderWay(jobs, job.scanKey) || Delivered(jobs, job.scanKey, Some(delivery)))
      && (outcome == MonitoringPaused ==> !monitoring)
      && (outcome == NewerCommitScanned ==> NewestScan(jobs, job.request.groupKey) != Some(job.scanKey))
      && (outcome == MergeGroupIsGone ==> job.request.event == MergeGroupEvent && !alive)
  {
    hide CreateExecution, UnderWay, Delivered;
    ExecutionCreatedIff(jobs, row, Rerun, Some(delivery), |jobs|);
    assert InGroup(jobs[row].request.groupKey)(jobs[row]);
  }

  /** So does the dashboard's re-scan. */
  lemma RescanQueuedIff(jobs: Jobs, row: nat, who: Standing)
    requires row < |jobs|
    ensures
      var (after, refusal) := RequestRescan(jobs, row, who);
      var job := jobs[row];
      && (refusal == None <==>
            && who == Standing(true, true, true, true)
            && (forall i :: row < i < |jobs| ==> jobs[i].request.groupKey != job.request.groupKey)
            && !UnderWay(jobs, job.scanKey))
      && (refusal == None ==> |after| == |jobs| + 1)
      && (refusal != None ==> after == jobs)
      && (refusal == Some(NewerScanExists) ==> exists i :: row < i < |jobs| && jobs[i].request.groupKey == job.request.groupKey)
      && (refusal == Some(NotFinished) <==> who.canTrigger && (job.state == Queued || job.state == Running))
      && (refusal == Some(AlreadyRunning) ==> UnderWay(jobs, job.scanKey))
      && (refusal == Some(NoPermission) ==> !who.canTrigger) && (refusal == Some(InstallationInactive) ==> !who.installationActive)
      && (refusal == Some(AccessLost) ==> !who.listed) && (refusal == Some(Paused) ==> !who.monitoring)
  {
    hide CreateExecution, UnderWay;
    ExecutionCreatedIff(jobs, row, Manual, None, |jobs|);
    assert InGroup(jobs[row].request.groupKey)(jobs[row]);
    ActiveIsUnderWay(jobs, row);
    var latest := LatestGroupJob(jobs, jobs[row].request.groupKey);
    assert forall i :: 0 <= i < |jobs| && jobs[i].request.groupKey == jobs[row].request.groupKey ==>
      InGroup(jobs[row].request.groupKey)(jobs[i]);
    assert InGroup(jobs[row].request.groupKey)(jobs[latest.value]);
  }

  lemma ActiveIsUnderWay(jobs: Jobs, row: nat)
    requires row < |jobs|
    ensures Active(jobs[row]) ==> UnderWay(jobs, jobs[row].scanKey)
  {
  }

  /** When a scan is under way, nothing that runs a scan again changes the table. */
  lemma UnderWayIsLeftAlone(jobs: Jobs, row: nat, monitoring: bool, alive: bool, delivery: string, who: Standing, now: int)
    requires row < |jobs| && UnderWay(jobs, jobs[row].scanKey)
    ensures RequestRerun(jobs, row, monitoring, alive, delivery).0 == jobs
    ensures RequestRescan(jobs, row, who).0 == jobs
    ensures RetryOne(jobs, row, now, monitoring) == (jobs, false)
  {
    hide UnderWay, CreateExecution, RetriesAmongNewest;
    RerunQueuedIff(jobs, row, monitoring, alive, delivery);
    RescanQueuedIff(jobs, row, who);
    ExecutionCreatedIff(jobs, row, Retry, None, |jobs|);
  }

  // ---------------------------------------------------------------- re-running all checks of a commit

  /** "Re-run all checks" looks at the newest job of each check on the commit. */
  lemma SuiteRowsIff(jobs: Jobs, head: string, row: nat)
    requires row < |jobs|
    ensures row in LatestJobsForCommit(jobs, head) <==>
      && jobs[row].request.headSha == head
      && forall n :: row < n < |jobs| ==> jobs[n].request.headSha != head || jobs[n].request.checkName != jobs[row].request.checkName
  {
    var check := jobs[row].request.checkName;
    var latest := Latest(jobs, ForCommit(head, check));
    assert ForCommit(head, check)(jobs[row]) <==> jobs[row].request.headSha == head;
    forall n | row < n < |jobs| && jobs[n].request.headSha == head && jobs[n].request.checkName == check
      ensures latest.Some? && latest.value >= n
    {
      assert ForCommit(head, check)(jobs[n]);
    }
    if latest.Some? {
      assert ForCommit(head, check)(jobs[latest.value]);
    }
  }

  lemma RerunAppends(jobs: Jobs, row: nat, monitoring: bool, alive: bool, delivery: string)
    requires row < |jobs|
    ensures
      var after := RequestRerun(jobs, row, monitoring, alive, delivery).0;
      after == jobs || (|after| == |jobs| + 1 && after[..|jobs|] == jobs && after[|jobs|].state == Queued)
  {
    hide CreateExecution, UnderWay, Delivered, NewestScan;
    ExecutionCreatedIff(jobs, row, Rerun, Some(delivery), |jobs|);
  }

  lemma LongerIsUnderWay(jobs: Jobs, after: Jobs, scan: ScanKey)
    requires jobs <= after && UnderWay(jobs, scan)
    ensures UnderWay(after, scan)
  {
  }

  lemma DeliveredBefore(jobs: Jobs, after: Jobs, scan: ScanKey, delivery: string)
    requires jobs <= after && forall m :: |jobs| <= m < |after| ==> after[m].state == Queued
    requires Delivered(after, scan, Some(delivery))
    ensures UnderWay(after, scan) || Delivered(jobs, scan, Some(delivery))
  {
    var i: nat :| i < |after| && after[i].scanKey == scan && after[i].request.deliveryId == Some(delivery);
    assert i < |jobs| ==> after[i] == jobs[i];
  }

  /** A row whose re-run nothing forbids: its scan is the newest of its group, and its merge group exists. */
  predicate MayRerun(jobs: Jobs, row: nat, monitoring: bool, alive: bool)
    requires row < |jobs|
  {
    && monitoring && NewestScan(jobs, jobs[row].request.groupKey) == Some(jobs[row].scanKey)
    && (jobs[row].request.event == MergeGroupEvent ==> alive)
  }

  /** Re-running rows leaves each scan that may be re-run under way, unless this delivery had already re-run it; nothing else is added. */
  lemma {:induction false} RerunAllCovers(jobs: Jobs, rows: seq<nat>, monitoring: bool, alive: bool, delivery: string)
    requires WellFormed(jobs) && Within(rows, |jobs|)
    ensures
      var after := RerunAll(jobs, rows, monitoring, alive, delivery);
      && jobs <= after && |after| <= |jobs| + |rows|
      && (forall m :: |jobs| <= m < |after| ==> after[m].state == Queued)
      && (forall i :: 0 <= i < |rows| && MayRerun(jobs, rows[i], monitoring, alive) ==>
            UnderWay(after, jobs[rows[i]].scanKey) || Delivered(jobs, jobs[rows[i]].scanKey, Some(delivery)))
  {
    hide RequestRerun, UnderWay, Delivered, WellFormed, NewestScan;
    if rows != [] {
      var rest, row := rows[..|rows| - 1], rows[|rows| - 1];
      RerunAllCovers(jobs, rest, monitoring, alive, delivery);
      RerunAllKeepsNewest(jobs, rest, monitoring, alive, delivery);
      var before, after := RerunAll(jobs, rest, monitoring, alive, delivery), RerunAll(jobs, rows, monitoring, alive, delivery);
      RerunAppends(before, row, monitoring, alive, delivery);
      assert before <= after && before[row] == jobs[row];
      forall i | 0 <= i < |rows| && MayRerun(jobs, rows[i], monitoring, alive)
        ensures UnderWay(after, jobs[rows[i]].scanKey) || Delivered(jobs, jobs[rows[i]].scanKey, Some(delivery))
      {
        if i < |rest| {
          assert rest[i] == rows[i];
          if UnderWay(before, jobs[rows[i]].scanKey) {
            LongerIsUnderWay(before, after, jobs[rows[i]].scanKey);
          }
        } else {
          LastIsCovered(jobs, before, row, monitoring, alive, delivery);
        }
      }
    }
  }

  lemma LastIsCovered(jobs: Jobs, before: Jobs, row: nat, monitoring: bool, alive: bool, delivery: string)
    requires jobs <= before && row < |jobs| && MayRerun(jobs, row, monitoring, alive) && SameNewest(jobs, before)
    requires forall m :: |jobs| <= m < |before| ==> before[m].state == Queued
    ensures
      var after := RequestRerun(before, row, monitoring, alive, delivery).0;
      UnderWay(after, jobs[row].scanKey) || Delivered(jobs, jobs[row].scanKey, Some(delivery))
  {
    hide UnderWay, Delivered, NewestScan, RequestRerun, CreateExecution;
    var scan := jobs[row].scanKey;
    assert NewestScan(before, jobs[row].request.groupKey) == NewestScan(jobs, jobs[row].request.groupKey);
    RerunQueuedIff(before, row, monitoring, alive, delivery);
    var (after, outcome) := RequestRerun(before, row, monitoring, alive, delivery);
    if outcome == RerunQueued {
      RerunIsUnderWay(before, row, monitoring, alive, delivery);
    } else if Delivered(before, scan, Some(delivery)) {
      DeliveredBefore(jobs, before, scan, delivery);
    }
  }

  lemma RerunIsUnderWay(jobs: Jobs, row: nat, monitoring: bool, alive: bool, delivery: string)
    requires row < |jobs| && RequestRerun(jobs, row, monitoring, alive, delivery).1 == RerunQueued
    ensures UnderWay(RequestRerun(jobs, row, monitoring, alive, delivery).0, jobs[row].scanKey)
  {
    hide CreateExecution, NewestScan, Delivered;
    ExecutionCreatedIff(jobs, row, Rerun, Some(delivery), |jobs|);
    var after := RequestRerun(jobs, row, monitoring, alive, delivery).0;
    assert after[|jobs|].state == Queued && after[|jobs|].scanKey == jobs[row].scanKey;
  }

  // ---------------------------------------------------------------- at most one execution under way

  ghost predicate AtMostOne(jobs: Jobs) {
    forall i, j :: 0 <= i < j < |jobs| && Active(jobs[i]) && Active(jobs[j]) ==> jobs[i].scanKey != jobs[j].scanKey
  }

  lemma AppendKeepsOne(jobs: Jobs, row: ScanJob)
    requires AtMostOne(jobs) && Active(row)
    ensures AtMostOne(jobs + [row]) <==> !UnderWay(jobs, row.scanKey)
  {
    var after := jobs + [row];
    if UnderWay(jobs, row.scanKey) {
      var i: nat :| i < |jobs| && jobs[i].scanKey == row.scanKey && (jobs[i].state == Queued || jobs[i].state == Running);
      assert after[i] == jobs[i] && Active(after[i]) && Active(after[|jobs|]);
    }
  }

  lemma ExecutionKeepsOne(jobs: Jobs, previous: nat, trigger: Trigger, delivery: Option<string>, uuid: nat)
    requires previous < |jobs| && AtMostOne(jobs)
    ensures AtMostOne(CreateExecution(jobs, previous, trigger, delivery, uuid).0)
  {
    hide CreateExecution, UnderWay, Delivered, AtMostOne;
    ExecutionCreatedIff(jobs, previous, trigger, delivery, uuid);
    var (after, created) := CreateExecution(jobs, previous, trigger, delivery, uuid);
    if created {
      AppendKeepsOne(jobs, after[|jobs|]);
      assert after == jobs + [after[|jobs|]];
    }
  }

  lemma RerunKeepsOne(jobs: Jobs, row: nat, monitoring: bool, alive: bool, delivery: string)
    requires row < |jobs| && AtMostOne(jobs)
    ensures AtMostOne(RequestRerun(jobs, row, monitoring, alive, delivery).0)
  {
    hide CreateExecution, AtMostOne;
    ExecutionKeepsOne(jobs, row, Rerun, Some(delivery), |jobs|);
  }

  lemma {:induction false} RerunAllKeepsOne(jobs: Jobs, rows: seq<nat>, monitoring: bool, alive: bool, delivery: string)
    requires Within(rows, |jobs|) && AtMostOne(jobs)
    ensures AtMostOne(RerunAll(jobs, rows, monitoring, alive, delivery))
  {
    hide AtMostOne, RequestRerun;
    if rows != [] {
      RerunAllKeepsOne(jobs, rows[..|rows| - 1], monitoring, alive, delivery);
      RerunKeepsOne(RerunAll(jobs, rows[..|rows| - 1], monitoring, alive, delivery), rows[|rows| - 1], monitoring, alive, delivery);
    }
  }

  lemma RetryKeepsOne(jobs: Jobs, row: nat, now: int, monitoring: bool)
    requires row < |jobs| && AtMostOne(jobs)
    ensures AtMostOne(RetryOne(jobs, row, now, monitoring).0)
  {
    hide CreateExecution, AtMostOne, RetriesAmongNewest;
    ExecutionKeepsOne(jobs, row, Retry, None, |jobs|);
  }

  lemma {:induction false} RetryAllKeepsOne(jobs: Jobs, rows: seq<nat>, now: int, monitoring: bool)
    requires Within(rows, |jobs|) && AtMostOne(jobs)
    ensures AtMostOne(RetryAll(jobs, rows, now, monitoring))
  {
    hide AtMostOne, RetryOne;
    if rows != [] {
      RetryAllKeepsOne(jobs, rows[..|rows| - 1], now, monitoring);
      RetryKeepsOne(RetryAll(jobs, rows[..|rows| - 1], now, monitoring), rows[|rows| - 1], now, monitoring);
    }
  }

  /** No worker makes a finished job active again. */
  predicate Revives(jobs: Jobs, step: JobTableStep) {
    step.Moves? && step.row < |jobs| && !Active(jobs[step.row]) && (step.state == Queued || step.state == Running)
  }

  /** A new request for a scan whose own job failed, while another execution of it is under way. */
  predicate Doubles(jobs: Jobs, step: JobTableStep) {
    step.NewScan? && FirstRequest(step.request) && CreateJob(jobs, step.request).1 && UnderWay(jobs, step.request.jobKey.scan)
  }

  /** Only a new request can start a scan that is under way, for it looks at the jobs with its own key only. */
  lemma StepKeepsOneIff(jobs: Jobs, step: JobTableStep)
    requires AtMostOne(jobs) && !Revives(jobs, step)
    ensures AtMostOne(AfterStep(jobs, step)) <==> !Doubles(jobs, step)
  {
    hide RequestRerun, RerunAll, RequestRescan, RetryAll, UnderWay, AtMostOne, Describes, MaxExecution;
    if StepAllowed(jobs, step) {
      match step
      case NewScan(request) =>
        var (after, created) := CreateJob(jobs, request);
        if created {
          AppendKeepsOne(jobs, after[|jobs|]);
        }
      case RerunCheck(row, monitoring, alive, delivery) => RerunKeepsOne(jobs, row, monitoring, alive, delivery);
      case RerunSuite(head, monitoring, alive, delivery) =>
        RerunAllKeepsOne(jobs, LatestJobsForCommit(jobs, head), monitoring, alive, delivery);
      case Rescan(row, who) => RescanKeepsOne(jobs, row, who);
      case Sweep(now, active, monitoring) => RetryAllKeepsOne(jobs, RetryRows(jobs, now, active), now, monitoring);
      case Moves(_, _, _, _) => MovesKeepOne(jobs, step);
    }
  }

  lemma RescanKeepsOne(jobs: Jobs, row: nat, who: Standing)
    requires row < |jobs| && AtMostOne(jobs)
    ensures AtMostOne(RequestRescan(jobs, row, who).0)
  {
    hide CreateExecution, AtMostOne;
    ExecutionKeepsOne(jobs, row, Manual, None, |jobs|);
  }

  lemma MovesKeepOne(jobs: Jobs, step: JobTableStep)
    requires AtMostOne(jobs) && step.Moves? && StepAllowed(jobs, step) && !Revives(jobs, step)
    ensures AtMostOne(AfterStep(jobs, step))
  {
  }

  /**
   In every run in which no finished job becomes active again and no new request
   doubles a scan under way, a scan has at most one execution under way.
   */
  lemma {:induction false} OneExecutionUnderWay(steps: seq<JobTableStep>)
    requires forall k :: 0 <= k < |steps| ==>
      !Revives(AfterSteps([], steps[..k]), steps[k]) && !Doubles(AfterSteps([], steps[..k]), steps[k])
    ensures AtMostOne(AfterSteps([], steps))
  {
    hide AfterStep, Revives, Doubles;
    if steps != [] {
      var rest := steps[..|steps| - 1];
      assert forall k :: 0 <= k < |rest| ==> rest[..k] == steps[..k];
      OneExecutionUnderWay(rest);
      StepKeepsOneIff(AfterSteps([], rest), steps[|steps| - 1]);
    }
  }

  // ---------------------------------------------------------------- how a scan can run twice

  /** A scan fails, and its automatic retry is queued. */
  function Retried(first: NewScanJob): seq<JobTableStep> {
    FailingRun(first, 1) + [Sweep(LATER, true, true)]
  }

  lemma RetriedReaches(first: NewScanJob)
    requires FirstRequest(first)
    ensures AfterSteps([], Retried(first)) == [FailedRow(first, 0), FreshRow(first, 1)]
  {
    hide AfterSteps, AfterStep, FailedRow, FreshRow;
    FailingRunReaches(first, 1);
    AfterOneMore(FailingRun(first, 1), Sweep(LATER, true, true));
    AddsRow(first, 1);
    assert FailedRows(first, 1) == FailedRows(first, 0) + [FailedRow(first, 0)] == [FailedRow(first, 0)];
  }

  /**
   By example: a scan fails, its automatic retry is queued, and a new request for
   the same scan, as from reopening the pull request, queues it once more, for its
   own job has failed. Two executions of the scan are under way.
   */
  lemma RequestedWhileRetried(first: NewScanJob, again: NewScanJob)
    requires FirstRequest(first) && FirstRequest(again) && again.jobKey == first.jobKey
    ensures
      var jobs, after := AfterSteps([], Retried(first)), AfterSteps([], Retried(first) + [NewScan(again)]);
      && AtMostOne(jobs) && Doubles(jobs, NewScan(again)) && !AtMostOne(after)
  {
    hide AfterSteps, AfterStep, AtMostOne, Doubles, Retried;
    RetriedReaches(first);
    AfterOneMore(Retried(first), NewScan(again));
    RetriedDoubles(first, again);
    StepKeepsOneIff([FailedRow(first, 0), FreshRow(first, 1)], NewScan(again));
  }

  lemma RetriedDoubles(first: NewScanJob, again: NewScanJob)
    requires FirstRequest(first) && FirstRequest(again) && again.jobKey == first.jobKey
    ensures AtMostOne([FailedRow(first, 0), FreshRow(first, 1)])
    ensures Doubles([FailedRow(first, 0), FreshRow(first, 1)], NewScan(again))
  {
    var jobs := [FailedRow(first, 0), FreshRow(first, 1)];
    assert jobs[1].scanKey == again.jobKey.scan && jobs[1].state == Queued;
    assert jobs[..1] == [FailedRow(first, 0)];
    assert Latest(jobs[..1], SameJobKey(again.jobKey)) == Some(0);
    assert !SameJobKey(again.jobKey)(jobs[1]);
  }
}
