/** A run in which reopening a pull request brings back a violation that its newest scan no longer has. */
module DroppedViolation {
  import opened Wrappers
  import opened Decision
  import opened ScanJobs
  import opened Violations
  import opened LifecycleInvariants
  import opened ScanCompletion
  import opened ControlPlane
  import opened ScanOrder
  import opened MergeAndReopen

  const NOW := Moment(0, 0)

  function At(step: Step): Timed {
    Timed(step, 0, 0)
  }

  function OpenedRequest(number: int): NewScanJob {
    PullRequestRequest(number, "base", "first", "refs/heads/main", "opened")
  }

  /** The reopened event on a new head: a new scan, so nothing is restored. */
  function ReopenedOnNewHead(number: int): NewScanJob {
    PullRequestRequest(number, "base", "second", "refs/heads/main", "reopened")
  }

  function With(f: Fingerprint): ScanResult {
    ScanResult([Finding(f, "", "", Block)], false)
  }

  const WITHOUT := ScanResult([], true)

  /** A worker asks which rows to check and commits, with nothing in between. */
  function Scanned(job: nat, scan: ScanResult): seq<Timed> {
    [At(Snapshot(0, job, scan, {}, true, (commit, head) => Unknown)), At(Commit(0))]
  }

  function Close(number: int): Timed {
    At(External(ClosePullRequest(number, false, "")))
  }

  /** Scan, close, reopen on a new head, scan without the violation, close, reopen on the scanned head. */
  function Steps(number: int, f: Fingerprint): seq<Timed> {
    [At(OnJobs(Enqueue(OpenedRequest(number))))] + Scanned(0, With(f)) + [Close(number)]
    + [At(OnJobs(Enqueue(ReopenedOnNewHead(number))))] + Scanned(1, WITHOUT) + [Close(number)]
    + [At(External(ReopenPullRequest(number)))]
  }

  // ---------------------------------------------------------------- the database along the run

  function QueuedRow(request: NewScanJob): ScanJob
    requires request.jobKey.KeyOfScan?
  {
    ScanJob(request, request.jobKey.scan, 1, Webhook, None, Queued, None, None)
  }

  function AfterOpened(number: int): Db {
    Initial.db.(jobs := [QueuedRow(OpenedRequest(number))])
  }

  function AfterFirstScan(number: int, f: Fingerprint): Db {
    CommitScan(AfterOpened(number), 0, With(f), {}, NOW)
  }

  function AfterClose(number: int, f: Fingerprint): Db {
    PullRequestClosed(AfterFirstScan(number, f), number, false, "", NOW)
  }

  function AfterNewHead(number: int, f: Fingerprint): Db {
    var db := AfterClose(number, f);
    db.(jobs := db.jobs + [QueuedRow(ReopenedOnNewHead(number))])
  }

  function SystemAt(db: Db): System {
    System(db, map[], 0)
  }

  // ---------------------------------------------------------------- one operation at a time

  lemma StepAlone(sys: System, before: seq<Timed>, step: Timed)
    ensures Run(sys, before + [step]) == Next(Run(sys, before), step)
  {
    hide Next;
    assert (before + [step])[..|before|] == before;
  }

  lemma EventAlone(db: Db, event: LifecycleEvent)
    ensures Next(SystemAt(db), At(External(event))) == SystemAt(DbAfter(db, event, NOW))
  {
    hide DbAfter;
  }

  lemma EnqueueAlone(db: Db, request: NewScanJob)
    requires FirstRequest(request)
    ensures Next(SystemAt(db), At(OnJobs(Enqueue(request)))) == SystemAt(db.(jobs := CreateJob(db.jobs, request).0))
  {
    hide CreateJob, FirstRequest;
  }

  lemma SnapshotAlone(db: Db, job: nat, scan: ScanResult, number: int)
    requires job < |db.jobs| && JobGroup(db.jobs[job]) == PullRequestGroup(number)
    requires ActiveIn(db.exposures, PullRequestGroup(number)) == {}
    ensures
      var next := Next(SystemAt(db), Scanned(job, scan)[0]);
      && next.db == db && next.clock == 0 && next.inFlight.Keys == {0}
      && next.inFlight[0].job == job && next.inFlight[0].scan == scan && next.inFlight[0].gone == {} && next.inFlight[0].read == 0
  {
    hide ActiveIn, JobGroup;
    assert RowsRead(db, PullRequestGroup(number), {});
  }

  lemma CommitAlone(sys: System)
    requires sys.clock == 0 && sys.inFlight.Keys == {0} && sys.inFlight[0].job < |sys.db.jobs| && sys.inFlight[0].read == 0
    ensures Next(sys, At(Commit(0))) == SystemAt(CommitScan(sys.db, sys.inFlight[0].job, sys.inFlight[0].scan, sys.inFlight[0].gone, NOW))
  {
    hide CommitScan;
    assert sys.inFlight - {0} == map[];
  }

  lemma ScanAlone(db: Db, job: nat, scan: ScanResult, number: int)
    requires job < |db.jobs| && JobGroup(db.jobs[job]) == PullRequestGroup(number)
    requires ActiveIn(db.exposures, PullRequestGroup(number)) == {}
    ensures Next(Next(SystemAt(db), Scanned(job, scan)[0]), Scanned(job, scan)[1]) == SystemAt(CommitScan(db, job, scan, {}, NOW))
  {
    hide Next, CommitScan, JobGroup, ActiveIn;
    SnapshotAlone(db, job, scan, number);
    CommitAlone(Next(SystemAt(db), Scanned(job, scan)[0]));
  }

  // ---------------------------------------------------------------- what the first scan and the close leave

  lemma OpenedQueues(number: int)
    ensures Next(Initial, At(OnJobs(Enqueue(OpenedRequest(number))))) == SystemAt(AfterOpened(number))
    ensures JobGroup(AfterOpened(number).jobs[0]) == PullRequestGroup(number)
    ensures ActiveIn(AfterOpened(number).exposures, PullRequestGroup(number)) == {}
  {
    assert Latest([], SameJobKey(OpenedRequest(number).jobKey)) == None;
    assert MaxExecution([], OpenedRequest(number).jobKey.scan) == 0;
    assert [] + [QueuedRow(OpenedRequest(number))] == [QueuedRow(OpenedRequest(number))];
  }

  lemma FirstScanJobs(number: int, f: Fingerprint)
    ensures AfterFirstScan(number, f).jobs == Finish(AfterOpened(number).jobs, 0, false, NOW)
    ensures AfterClose(number, f).jobs == AfterFirstScan(number, f).jobs
  {
    hide CommitScan, EndAndMove, Finish;
    CommitJobs(AfterOpened(number), 0, With(f), {}, NOW);
    ClosedJobs(AfterFirstScan(number, f), number);
  }

  lemma ClosedJobs(db: Db, number: int)
    ensures PullRequestClosed(db, number, false, "", NOW).jobs == db.jobs
  {
  }

  lemma FirstScanExposes(number: int, f: Fingerprint)
    ensures f in ActiveIn(AfterFirstScan(number, f).exposures, PullRequestGroup(number))
  {
    hide CommitScan, ActiveIn;
    var group := PullRequestGroup(number);
    assert Finding(f, "", "", Block) in With(f).findings;
    assert f in Tracked(With(f).findings);
    CommitScanActive(AfterOpened(number), 0, With(f), {}, NOW);
    assert ActiveAt(AfterFirstScan(number, f).exposures, Place(f, group));
    InActiveIn(AfterFirstScan(number, f).exposures, group, f);
  }

  lemma CloseEnds(db: Db, number: int)
    ensures ActiveIn(PullRequestClosed(db, number, false, "", NOW).exposures, PullRequestGroup(number)) == {}
  {
    hide ActiveIn, EndAndMove;
    var closed := PullRequestClosed(db, number, false, "", NOW);
    EndAndMoveActive(db, PullRequestGroup(number), ClosedUnmerged(number), None, NOW);
    forall f
      ensures f !in ActiveIn(closed.exposures, PullRequestGroup(number))
    {
      InActiveIn(closed.exposures, PullRequestGroup(number), f);
    }
  }

  lemma NewHeadQueues(number: int, f: Fingerprint)
    ensures AfterClose(number, f).(jobs := CreateJob(AfterClose(number, f).jobs, ReopenedOnNewHead(number)).0) == AfterNewHead(number, f)
  {
    hide AfterFirstScan, PullRequestClosed;
    FirstScanJobs(number, f);
    var jobs, request := AfterClose(number, f).jobs, ReopenedOnNewHead(number);
    assert |jobs| == 1 && jobs[..0] == [] && jobs[0].scanKey != request.jobKey.scan && jobs[0].request.jobKey != request.jobKey;
    assert Latest(jobs, SameJobKey(request.jobKey)) == None;
    assert MaxExecution([], request.jobKey.scan) == 0;
    assert MaxExecution(jobs, request.jobKey.scan) == 0;
  }

  lemma SecondJob(number: int, f: Fingerprint)
    ensures
      var db := AfterNewHead(number, f);
      && |db.jobs| == 2 && JobGroup(db.jobs[1]) == PullRequestGroup(number) && !NewerScanCompleted(db.jobs, 1)
      && ActiveIn(db.exposures, PullRequestGroup(number)) == {}
  {
    hide AfterFirstScan, PullRequestClosed, ActiveIn;
    FirstScanJobs(number, f);
    CloseEnds(AfterFirstScan(number, f), number);
  }

  // ---------------------------------------------------------------- the run

  lemma CloseKeepsJobsApart(db: Db, number: int, jobs: Jobs)
    ensures PullRequestClosed(db.(jobs := jobs), number, false, "", NOW) == PullRequestClosed(db, number, false, "", NOW).(jobs := jobs)
  {
  }

  /** The database before the second close, and at the end, in the terms of `DroppedViolationReturns`. */
  lemma ViolationReturns(number: int, f: Fingerprint)
    ensures
      var rescanned := CommitScan(AfterNewHead(number, f), 1, WITHOUT, {}, NOW);
      && f !in ActiveIn(rescanned.exposures, PullRequestGroup(number))
      && f in ActiveIn(CloseThenReopen(rescanned, number, NOW, NOW).exposures, PullRequestGroup(number))
  {
    hide AfterFirstScan, CommitScan, PullRequestClosed, ActiveIn, CloseThenReopen, NewerScanCompleted;
    var jobs := AfterNewHead(number, f).jobs;
    var db := AfterFirstScan(number, f).(jobs := jobs);
    FirstScanExposes(number, f);
    SecondJob(number, f);
    CloseKeepsJobsApart(AfterFirstScan(number, f), number, jobs);
    DroppedViolationReturns(db, number, f, 1, WITHOUT, {}, NOW, NOW, NOW, NOW);
  }

  lemma FirstHalf(number: int, f: Fingerprint)
    ensures Run(Initial, Steps(number, f)[..5]) == SystemAt(AfterNewHead(number, f))
  {
    hide Next, Run, CommitScan, PullRequestClosed, CreateJob, ActiveIn;
    var steps := Steps(number, f);
    NoSteps(Initial);
    assert steps[..1] == [] + [steps[0]];
    StepAlone(Initial, [], steps[0]);
    assert steps[..2] == steps[..1] + [steps[1]] && steps[..3] == steps[..2] + [steps[2]];
    StepAlone(Initial, steps[..1], steps[1]);
    StepAlone(Initial, steps[..2], steps[2]);
    assert steps[..4] == steps[..3] + [steps[3]] && steps[..5] == steps[..4] + [steps[4]];
    StepAlone(Initial, steps[..3], steps[3]);
    StepAlone(Initial, steps[..4], steps[4]);
    OpenedQueues(number);
    ScanAlone(AfterOpened(number), 0, With(f), number);
    EventAlone(AfterFirstScan(number, f), ClosePullRequest(number, false, ""));
    EnqueueAlone(AfterClose(number, f), ReopenedOnNewHead(number));
    NewHeadQueues(number, f);
  }

  lemma NoSteps(sys: System)
    ensures Run(sys, []) == sys
  {
  }

  /**
   From the start state: the second scan's pull request shows no violation, and
   closing and reopening it makes the violation of the first scan active again.
   */
  lemma DroppedViolationReturnsInRun(number: int, f: Fingerprint)
    ensures |Steps(number, f)| == 9
    ensures f !in ActiveIn(Run(Initial, Steps(number, f)[..7]).db.exposures, PullRequestGroup(number))
    ensures f in ActiveIn(Run(Initial, Steps(number, f)).db.exposures, PullRequestGroup(number))
  {
    hide Next, Run, CommitScan, PullRequestClosed, PullRequestReopened, AfterNewHead, ActiveIn;
    var steps := Steps(number, f);
    FirstHalf(number, f);
    assert steps[..6] == steps[..5] + [steps[5]] && steps[..7] == steps[..6] + [steps[6]];
    StepAlone(Initial, steps[..5], steps[5]);
    StepAlone(Initial, steps[..6], steps[6]);
    assert steps[..8] == steps[..7] + [steps[7]] && steps == steps[..8] + [steps[8]];
    StepAlone(Initial, steps[..7], steps[7]);
    StepAlone(Initial, steps[..8], steps[8]);
    SecondJob(number, f);
    ScanAlone(AfterNewHead(number, f), 1, WITHOUT, number);
    var rescanned := CommitScan(AfterNewHead(number, f), 1, WITHOUT, {}, NOW);
    EventAlone(rescanned, ClosePullRequest(number, false, ""));
    EventAlone(PullRequestClosed(rescanned, number, false, "", NOW), ReopenPullRequest(number));
    ViolationReturns(number, f);
  }
}
