/**
 The whole lifecycle as a state machine in which scans, GitHub events and
 dashboard commands interleave. Recording a scan takes two steps: a snapshot
 that asks Git about reachability outside any transaction, and the commit.
 */
module ControlPlane {
  import opened Wrappers
  import opened Decision
  import opened ScanJobs
  import opened Violations
  import opened AuditTrail
  import opened LifecycleInvariants
  import opened ScanCompletion

  /** A worker that has read the clock, scanned and asked Git, but not yet committed. */
  datatype Pending = Pending(job: nat, scan: ScanResult, gone: set<Fingerprint>, git: Git, read: int)

  datatype System = System(db: Db, inFlight: map<nat, Pending>, clock: int)

  datatype JobStep =
    | Enqueue(request: NewScanJob)
    | Execute(previous: nat, trigger: Trigger, delivery: Option<string>, uuid: nat)
    | Progress(job: nat, state: JobState)
    | CancelGroup(group: GroupKey)

  datatype LifecycleEvent =
    | ClosePullRequest(number: int, merged: bool, baseRef: string)
    | ReopenPullRequest(number: int)
    | DestroyMergeGroup(head: string, reason: string, baseRef: string)
    | DeleteBranch(ref: string)
    | AcknowledgeViolation(violation: Fingerprint)
    | Unacknowledge(violation: Fingerprint)

  datatype Step =
    | OnJobs(step: JobStep)
    | Snapshot(worker: nat, job: nat, scan: ScanResult, rows: set<Fingerprint>, repository: bool, git: Git)
    | Commit(worker: nat)
    | External(event: LifecycleEvent)

  /** A step, the time that passed before it, and how long before it the clock was read. */
  datatype Timed = Timed(step: Step, elapsed: nat, lag: nat)

  const Initial := System(Db([], map[], map[], [], map[]), map[], 0)

  /** `_unreachable_branch_exposures`: only branches, and only with a repository at hand. */
  function AskGit(db: Db, job: nat, scan: ScanResult, rows: set<Fingerprint>, repository: bool, git: Git): set<Fingerprint>
    requires job < |db.jobs| && rows <= db.violations.Keys
  {
    if !JobGroup(db.jobs[job]).BranchGroup? || !repository then {}
    else Unreachable(db, job, Tracked(scan.findings), rows, git)
  }

  predicate JobStepEnabled(jobs: Jobs, step: JobStep) {
    match step
    case Enqueue(request) => FirstRequest(request)
    case Execute(previous, _, _, _) => previous < |jobs|
    case Progress(job, state) => job < |jobs| && !Completed(jobs[job]) && state != Passed && state != Failed
    case CancelGroup(_) => true
  }

  /** Webhooks and re-executions append jobs; workers claim, fail or cancel them; queued ones may become irrelevant. */
  function JobsAfter(jobs: Jobs, step: JobStep, now: Moment): Jobs
    requires JobStepEnabled(jobs, step)
  {
    match step
    case Enqueue(request) => CreateJob(jobs, request).0
    case Execute(previous, trigger, delivery, uuid) => CreateExecution(jobs, previous, trigger, delivery, uuid).0
    case Progress(job, state) =>
      jobs[job := jobs[job].(state := state,
                             completedAt := if state == Queued || state == Running then jobs[job].completedAt else Some(now.read))]
    case CancelGroup(group) => CancelQueued(jobs, group)
  }

  /** GitHub events and dashboard commands; a refused command changes nothing. */
  function DbAfter(db: Db, event: LifecycleEvent, now: Moment): Db {
    match event
    case ClosePullRequest(number, merged, baseRef) => PullRequestClosed(db, number, merged, baseRef, now)
    case ReopenPullRequest(number) => PullRequestReopened(db, number, now)
    case DestroyMergeGroup(head, reason, baseRef) => MergeGroupDestroyed(db, head, reason, baseRef, now)
    case DeleteBranch(ref) => BranchDeleted(db, ref, now)
    case AcknowledgeViolation(f) => if Acknowledge(db, f, now).Ok? then Acknowledge(db, f, now).value else db
    case Unacknowledge(f) => if RemoveAcknowledgement(db, f, now).Ok? then RemoveAcknowledgement(db, f, now).value else db
  }

  ghost predicate Enabled(sys: System, step: Step) {
    match step
    case OnJobs(step) => JobStepEnabled(sys.db.jobs, step)
    case Snapshot(_, job, _, rows, _, _) =>
      job < |sys.db.jobs| && rows <= sys.db.violations.Keys && RowsRead(sys.db, JobGroup(sys.db.jobs[job]), rows)
    case Commit(worker) => worker in sys.inFlight && sys.inFlight[worker].job < |sys.db.jobs|
    case External(_) => true
  }

  /** A commit stores the time its worker read before asking Git; other operations read it `lag` before. */
  function MomentOf(sys: System, timed: Timed): Moment {
    Moment(if timed.step.Commit? && timed.step.worker in sys.inFlight then sys.inFlight[timed.step.worker].read
           else sys.clock + timed.elapsed - timed.lag,
           sys.clock + timed.elapsed)
  }

  /** A step that is not enabled leaves the state alone. */
  ghost function Next(sys: System, timed: Timed): System {
    var now := MomentOf(sys, timed);
    if !Enabled(sys, timed.step) then sys.(clock := now.at)
    else
      match timed.step
      case OnJobs(step) => System(sys.db.(jobs := JobsAfter(sys.db.jobs, step, now)), sys.inFlight, now.at)
      case Snapshot(worker, job, scan, rows, repository, git) =>
        var p := Pending(job, scan, AskGit(sys.db, job, scan, rows, repository, git), git, now.read);
        System(sys.db, sys.inFlight[worker := p], now.at)
      case Commit(worker) =>
        var p := sys.inFlight[worker];
        System(CommitScan(sys.db, p.job, p.scan, p.gone, now), sys.inFlight - {worker}, now.at)
      case External(event) => System(DbAfter(sys.db, event, now), sys.inFlight, now.at)
  }

  ghost function Run(sys: System, steps: seq<Timed>): System {
    if steps == [] then sys else Next(Run(sys, steps[..|steps| - 1]), steps[|steps| - 1])
  }

  // ---------------------------------------------------------------- what only grows

  /** Rows are never deleted, history is append-only, identities are fixed. */
  ghost predicate Grows(a: Db, b: Db) {
    && |a.jobs| <= |b.jobs|
    && (forall i :: 0 <= i < |a.jobs| ==> SameRow(a.jobs[i], b.jobs[i]))
    && a.findings <= b.findings
    && (forall f :: f in a.violations ==> f in b.violations && b.violations[f].commit == a.violations[f].commit
                                          && b.violations[f].rule == a.violations[f].rule)
    && (forall f :: f in a.violations ==> Trail(a, f) <= Trail(b, f))
  }

  lemma GrowsTransitive(a: Db, b: Db, c: Db)
    requires Grows(a, b) && Grows(b, c)
    ensures Grows(a, c)
  {
    forall f | f in a.violations
      ensures Trail(a, f) <= Trail(c, f)
    {
      assert Trail(a, f) <= Trail(b, f) <= Trail(c, f);
    }
  }

  lemma RefreshGrows(db: Db, ids: set<Fingerprint>, now: Moment)
    ensures Grows(db, Refresh(db, ids, now))
  {
  }

  lemma ApplyFindingGrows(db: Db, job: nat, finding: Finding, stale: bool, now: Moment)
    requires job < |db.jobs|
    ensures Grows(db, ApplyFinding(db, job, finding, stale, now))
  {
  }

  lemma GrowsReflexive(db: Db)
    ensures Grows(db, db)
  {
  }

  lemma {:induction false} ApplyFindingsGrows(db: Db, job: nat, findings: seq<Finding>, stale: bool, now: Moment)
    requires job < |db.jobs|
    ensures Grows(db, ApplyFindings(db, job, findings, stale, now))
  {
    hide Grows, ApplyFinding;
    if findings == [] {
      GrowsReflexive(db);
    } else {
      var rest, last := findings[..|findings| - 1], findings[|findings| - 1];
      ApplyFindingsGrows(db, job, rest, stale, now);
      var before := ApplyFindings(db, job, rest, stale, now);
      ApplyFindingGrows(before, job, last, stale, now);
      GrowsTransitive(db, before, ApplyFinding(before, job, last, stale, now));
    }
  }

  lemma FinishGrows(db: Db, job: nat, passed: bool, now: Moment)
    requires job < |db.jobs|
    ensures Grows(db, db.(jobs := Finish(db.jobs, job, passed, now)))
  {
  }

  lemma ExposuresGrow(db: Db, exposures: ExposureTable)
    ensures Grows(db, db.(exposures := exposures))
  {
  }

  lemma CommitScanGrows(db: Db, job: nat, scan: ScanResult, gone: set<Fingerprint>, now: Moment)
    requires job < |db.jobs|
    ensures Grows(db, CommitScan(db, job, scan, gone, now))
  {
    hide Grows, Refresh, ApplyFindings, CloseIn, AbsentFrom;
    var db1 := db.(jobs := Finish(db.jobs, job, scan.passed, now));
    FinishGrows(db, job, scan.passed, now);
    var stale := NewerScanCompleted(db1.jobs, job);
    ApplyFindingsGrows(db1, job, scan.findings, stale, now);
    var db2 := ApplyFindings(db1, job, scan.findings, stale, now);
    GrowsTransitive(db, db1, db2);
    var group := JobGroup(db1.jobs[job]);
    var closed := if stale then {} else AbsentFrom(db2.exposures, group, Tracked(scan.findings), gone);
    var exposures := CloseIn(db2.exposures, closed, group, AbsentReason(db1.jobs[job]), Some(job), now);
    var db3 := db2.(exposures := exposures);
    ExposuresGrow(db2, exposures);
    GrowsTransitive(db, db2, db3);
    RefreshGrows(db3, Tracked(scan.findings) + closed, now);
    GrowsTransitive(db, db3, Refresh(db3, Tracked(scan.findings) + closed, now));
  }

  lemma EndAndMoveGrows(db: Db, group: GroupKey, reason: ClosedReason, branch: Option<string>, now: Moment)
    ensures Grows(db, EndAndMove(db, group, reason, branch, now))
  {
    hide Refresh;
    var ids := ActiveIn(db.exposures, group);
    var ended := EndGroup(db, group, reason, now);
    var moved := if branch.None? then ended
                 else ended.(exposures := ActivateAll(ended.exposures, ids, BranchGroup(branch.value), None, now));
    assert Grows(db, moved);
    RefreshGrows(moved, ids, now);
    GrowsTransitive(db, moved, Refresh(moved, ids, now));
  }

  lemma ReopenedGrows(db: Db, number: int, now: Moment)
    ensures Grows(db, PullRequestReopened(db, number, now))
  {
    hide Refresh;
    var restored := db.(exposures := RestoredExposures(db.exposures, number, now));
    RefreshGrows(restored, ClosedUnmergedIn(db.exposures, number), now);
    GrowsTransitive(db, restored, PullRequestReopened(db, number, now));
  }

  lemma EventGrows(db: Db, event: LifecycleEvent, now: Moment)
    ensures Grows(db, DbAfter(db, event, now))
  {
    hide Grows, EndAndMove, PullRequestReopened, Acknowledge, RemoveAcknowledgement;
    match event
    case ClosePullRequest(number, merged, baseRef) =>
      EndAndMoveGrows(db, PullRequestGroup(number), if merged then MergedInto(number, baseRef) else ClosedUnmerged(number),
                      if merged && baseRef != "" then Some(baseRef) else None, now);
    case ReopenPullRequest(number) => ReopenedGrows(db, number, now);
    case DestroyMergeGroup(head, reason, baseRef) =>
      EndAndMoveGrows(db, MergeGroup(head), if reason == MERGED then MergeGroupMerged(head, baseRef) else MergeGroupGone(head, reason),
                      if reason == MERGED then Some(baseRef) else None, now);
    case DeleteBranch(ref) => EndAndMoveGrows(db, BranchGroup(ref), BranchDeletedReason(ref), None, now);
    case AcknowledgeViolation(f) => AcknowledgeGrows(db, f, now);
    case Unacknowledge(f) => UnacknowledgeGrows(db, f, now);
  }

  lemma AcknowledgeGrows(db: Db, f: Fingerprint, now: Moment)
    ensures Grows(db, DbAfter(db, AcknowledgeViolation(f), now))
  {
  }

  lemma UnacknowledgeGrows(db: Db, f: Fingerprint, now: Moment)
    ensures Grows(db, DbAfter(db, Unacknowledge(f), now))
  {
  }

  lemma JobStepGrows(db: Db, step: JobStep, now: Moment)
    requires JobStepEnabled(db.jobs, step)
    ensures Grows(db, db.(jobs := JobsAfter(db.jobs, step, now)))
  {
  }

  lemma NextGrows(sys: System, timed: Timed)
    ensures Grows(sys.db, Next(sys, timed).db)
  {
    hide CommitScan, DbAfter, Grows;
    var now := MomentOf(sys, timed);
    GrowsReflexive(sys.db);
    if Enabled(sys, timed.step) {
      match timed.step
      case OnJobs(step) => JobStepGrows(sys.db, step, now);
      case Snapshot(_, _, _, _, _, _) =>
      case Commit(worker) =>
        var p := sys.inFlight[worker];
        CommitScanGrows(sys.db, p.job, p.scan, p.gone, now);
      case External(event) => EventGrows(sys.db, event, now);
    }
  }

  // ---------------------------------------------------------------- the invariant of every run

  /** What a worker remembers from its snapshot is still what Git told it about the stored commit. */
  ghost predicate PendingRight(db: Db, p: Pending) {
    && p.job < |db.jobs|
    && forall f :: f in p.gone ==>
         && JobGroup(db.jobs[p.job]).BranchGroup?
         && f in db.violations
         && db.violations[f].commit != ""
         && p.git(db.violations[f].commit, db.jobs[p.job].request.headSha) == NotAncestor
  }

  ghost predicate SystemInvariant(sys: System) {
    Invariant(sys.db, sys.clock) && forall w :: w in sys.inFlight ==> PendingRight(sys.db, sys.inFlight[w])
  }

  lemma PendingStaysRight(a: Db, b: Db, p: Pending)
    requires Grows(a, b) && PendingRight(a, p)
    ensures PendingRight(b, p)
  {
    assert SameRow(a.jobs[p.job], b.jobs[p.job]);
  }

  lemma JobsOnly(db: Db, jobs: Jobs, clock: int, now: int)
    requires Invariant(db, clock) && WellFormed(jobs) && clock <= now
    ensures Invariant(db.(jobs := jobs), now)
  {
    ForwardClock(db, clock, now);
    forall f | f in db.violations
      ensures StatusRight(db.(jobs := jobs), f)
    {
      assert StatusRight(db, f);
    }
  }

  lemma JobStepKeeps(jobs: Jobs, step: JobStep, now: Moment)
    requires WellFormed(jobs) && JobStepEnabled(jobs, step)
    ensures WellFormed(JobsAfter(jobs, step, now))
  {
    match step
    case Enqueue(request) => CreateJobKeepsTable(jobs, request);
    case Execute(previous, trigger, delivery, uuid) => ExecutionAndNewestScan(jobs, previous, trigger, delivery, uuid);
    case Progress(_, _) => ProgressKeepsTable(jobs, JobsAfter(jobs, step, now));
    case CancelGroup(group) => CancelKeepsTable(jobs, group);
  }

  lemma EventKeeps(db: Db, event: LifecycleEvent, clock: int, now: Moment)
    requires Invariant(db, clock) && clock <= now.at && now.read <= now.at
    ensures Invariant(DbAfter(db, event, now), now.at)
  {
    match event
    case ClosePullRequest(number, merged, baseRef) =>
      EndAndMoveKeeps(db, PullRequestGroup(number), if merged then MergedInto(number, baseRef) else ClosedUnmerged(number),
                      if merged && baseRef != "" then Some(baseRef) else None, clock, now);
    case ReopenPullRequest(number) => ReopenedKeeps(db, number, clock, now);
    case DestroyMergeGroup(head, reason, baseRef) =>
      EndAndMoveKeeps(db, MergeGroup(head), if reason == MERGED then MergeGroupMerged(head, baseRef) else MergeGroupGone(head, reason),
                      if reason == MERGED then Some(baseRef) else None, clock, now);
    case DeleteBranch(ref) => EndAndMoveKeeps(db, BranchGroup(ref), BranchDeletedReason(ref), None, clock, now);
    case AcknowledgeViolation(f) => AcknowledgeKeeps(db, f, clock, now); ForwardClock(db, clock, now.at);
    case Unacknowledge(f) => AcknowledgeKeeps(db, f, clock, now); ForwardClock(db, clock, now.at);
  }

  lemma NextKeepsDb(sys: System, timed: Timed)
    requires SystemInvariant(sys)
    ensures Invariant(Next(sys, timed).db, Next(sys, timed).clock)
  {
    var now := MomentOf(sys, timed);
    if !Enabled(sys, timed.step) {
      ForwardClock(sys.db, sys.clock, now.at);
    } else {
      match timed.step
      case OnJobs(step) =>
        JobStepKeeps(sys.db.jobs, step, now);
        JobsOnly(sys.db, JobsAfter(sys.db.jobs, step, now), sys.clock, now.at);
      case Snapshot(_, _, _, _, _, _) => ForwardClock(sys.db, sys.clock, now.at);
      case Commit(worker) =>
        var p := sys.inFlight[worker];
        CommitScanKeeps(sys.db, p.job, p.scan, p.gone, sys.clock, now);
      case External(event) => EventKeeps(sys.db, event, sys.clock, now);
    }
  }

  lemma NextKeepsSystem(sys: System, timed: Timed)
    requires SystemInvariant(sys)
    ensures SystemInvariant(Next(sys, timed))
  {
    var after := Next(sys, timed);
    NextKeepsDb(sys, timed);
    NextGrows(sys, timed);
    forall w | w in after.inFlight
      ensures PendingRight(after.db, after.inFlight[w])
    {
      if w in sys.inFlight && after.inFlight[w] == sys.inFlight[w] {
        PendingStaysRight(sys.db, after.db, sys.inFlight[w]);
      }
    }
  }

  /** Every run, however the steps interleave, keeps the invariant and only adds history. */
  lemma {:induction false} EveryRun(sys: System, steps: seq<Timed>)
    requires SystemInvariant(sys)
    ensures SystemInvariant(Run(sys, steps)) && Grows(sys.db, Run(sys, steps).db)
  {
    if steps != [] {
      var rest := steps[..|steps| - 1];
      EveryRun(sys, rest);
      NextKeepsSystem(Run(sys, rest), steps[|steps| - 1]);
      NextGrows(Run(sys, rest), steps[|steps| - 1]);
      GrowsTransitive(sys.db, Run(sys, rest).db, Run(sys, steps).db);
    }
  }

  lemma {:induction false} RunConcat(sys: System, a: seq<Timed>, b: seq<Timed>)
    ensures Run(sys, a + b) == Run(Run(sys, a), b)
  {
    hide Next;
    if b == [] {
      assert a + b == a;
    } else {
      assert (a + b)[..|a + b| - 1] == a + b[..|b| - 1];
      RunConcat(sys, a, b[..|b| - 1]);
    }
  }

  lemma RunThrough(sys: System, before: seq<Timed>, timed: Timed, after: seq<Timed>)
    ensures Run(sys, before + [timed] + after) == Run(Next(Run(sys, before), timed), after)
  {
    hide Next;
    RunConcat(sys, before + [timed], after);
    assert (before + [timed])[..|before|] == before;
  }

  lemma InitialIsRight()
    ensures SystemInvariant(Initial)
  {
  }

  /**
   In every reachable state: a violation is open exactly when it is exposed
   somewhere, its trail is a prefix-closed OPENED (RESOLVED REOPENED)* RESOLVED?
   whose length gives the status, and its detections are its finding rows.
   */
  lemma ReachableViolation(steps: seq<Timed>, f: Fingerprint)
    requires f in Run(Initial, steps).db.violations
    ensures
      var db := Run(Initial, steps).db;
      && (db.violations[f].status == Open <==> Exposed(db.exposures, f))
      && Alternates(StatusEvents(Trail(db, f)))
      && (db.violations[f].status == Open <==> |StatusEvents(Trail(db, f))| % 2 == 1)
      && db.violations[f].detections == Detections(db.findings, f)
  {
    InitialIsRight();
    EveryRun(Initial, steps);
    var db := Run(Initial, steps).db;
    assert StatusRight(db, f) && TrailRight(db.violations[f], db.trail[f], Run(Initial, steps).clock);
    TrailGrammar(Trail(db, f));
  }

  /**
   In every reachable state a standing acknowledgement has an event that is newer
   than every reopening, and the row stores a time read no later than that event.
   */
  lemma ReachableAcknowledgement(steps: seq<Timed>, f: Fingerprint) returns (k: nat)
    requires f in Run(Initial, steps).db.violations
    requires Run(Initial, steps).db.violations[f].acknowledgedAt.Some?
    ensures
      var db := Run(Initial, steps).db;
      var trail := Trail(db, f);
      && k < |trail|
      && trail[k].kind == Acknowledged && db.violations[f].acknowledgedAt.value <= trail[k].at
      && (forall i :: k < i < |trail| ==> trail[i].kind == ResolvedEvent)
      && forall i :: 0 <= i < |trail| && trail[i].kind == Reopened ==> i < k && trail[i].at <= trail[k].at
  {
    InitialIsRight();
    EveryRun(Initial, steps);
    var db := Run(Initial, steps).db;
    assert TrailRight(db.violations[f], db.trail[f], Run(Initial, steps).clock);
    k := AcknowledgementIsNewest(Trail(db, f));
  }

  /**
   An absent violation of the scan's own group, no newer scan completed, and
   outside a pull request only a branch exposure whose stored commit Git answered
   is definitely not an ancestor of the scanned head.
   */
  ghost predicate ClosedRightly(db: Db, p: Pending, place: Place) {
    && p.job < |db.jobs|
    && place.group == JobGroup(db.jobs[p.job])
    && place.violation !in Tracked(p.scan.findings)
    && !NewerScanCompleted(db.jobs, p.job)
    && (place.group.PullRequestGroup?
        || (place.group.BranchGroup? && place.violation in db.violations
            && p.git(db.violations[place.violation].commit, db.jobs[p.job].request.headSha) == NotAncestor))
  }

  lemma CommitClosesFrom(db: Db, p: Pending, now: Moment, place: Place)
    requires PendingRight(db, p) && ActiveAt(db.exposures, place)
    requires !ActiveAt(CommitScan(db, p.job, p.scan, p.gone, now).exposures, place)
    ensures ClosedRightly(db, p, place)
  {
    CommitScanActive(db, p.job, p.scan, p.gone, now);
  }

  lemma NextOfCommit(sys: System, timed: Timed)
    requires timed.step.Commit? && Enabled(sys, timed.step)
    ensures
      var p := sys.inFlight[timed.step.worker];
      Next(sys, timed).db == CommitScan(sys.db, p.job, p.scan, p.gone, MomentOf(sys, timed))
  {
    hide CommitScan, Enabled, DbAfter, JobsAfter;
  }

  lemma NextOfEvent(sys: System, timed: Timed)
    requires timed.step.External?
    ensures Next(sys, timed).db == DbAfter(sys.db, timed.step.event, MomentOf(sys, timed))
  {
    hide DbAfter;
  }

  lemma ReachablePending(steps: seq<Timed>, worker: nat)
    requires worker in Run(Initial, steps).inFlight
    ensures PendingRight(Run(Initial, steps).db, Run(Initial, steps).inFlight[worker])
  {
    InitialIsRight();
    EveryRun(Initial, steps);
  }

  /** In every reachable state, whatever happened since the snapshot, a commit closes nothing else. */
  lemma CommitClosesOnly(steps: seq<Timed>, timed: Timed, place: Place)
    requires timed.step.Commit? && Enabled(Run(Initial, steps), timed.step)
    requires ActiveAt(Run(Initial, steps).db.exposures, place)
    requires !ActiveAt(Next(Run(Initial, steps), timed).db.exposures, place)
    ensures ClosedRightly(Run(Initial, steps).db, Run(Initial, steps).inFlight[timed.step.worker], place)
  {
    hide Run, Next, ActiveAt, ClosedRightly, CommitScan;
    ReachablePending(steps, timed.step.worker);
    NextOfCommit(Run(Initial, steps), timed);
    var sys := Run(Initial, steps);
    CommitClosesFrom(sys.db, sys.inFlight[timed.step.worker], MomentOf(sys, timed), place);
  }
}
