/** Branch scans are incremental: what exactly ends a branch exposure, from the snapshot to the commit. */
module BranchScans {
  import opened Wrappers
  import opened ScanJobs
  import opened Violations
  import opened LifecycleInvariants
  import opened ScanCompletion
  import opened ControlPlane

  predicate OfWorker(step: Step, worker: nat) {
    (step.Snapshot? || step.Commit?) && step.worker == worker
  }

  lemma OtherStepsKeepPending(sys: System, timed: Timed, worker: nat)
    requires worker in sys.inFlight && !OfWorker(timed.step, worker)
    ensures worker in Next(sys, timed).inFlight && Next(sys, timed).inFlight[worker] == sys.inFlight[worker]
  {
    hide CommitScan, DbAfter, JobsAfter, AskGit, Enabled;
  }

  lemma {:induction false} PendingKept(sys: System, steps: seq<Timed>, worker: nat)
    requires worker in sys.inFlight && forall i :: 0 <= i < |steps| ==> !OfWorker(steps[i].step, worker)
    ensures worker in Run(sys, steps).inFlight && Run(sys, steps).inFlight[worker] == sys.inFlight[worker]
  {
    hide Next;
    if steps != [] {
      PendingKept(sys, steps[..|steps| - 1], worker);
      OtherStepsKeepPending(Run(sys, steps[..|steps| - 1]), steps[|steps| - 1], worker);
    }
  }

  /** What Git was asked and what it answered, for one violation at the time of the snapshot. */
  ghost predicate ShownGone(db: Db, snapshot: Step, f: Fingerprint)
    requires snapshot.Snapshot? && snapshot.job < |db.jobs|
  {
    && snapshot.repository
    && f in snapshot.rows && f in db.violations && db.violations[f].commit != ""
    && snapshot.git(db.violations[f].commit, db.jobs[snapshot.job].request.headSha) == NotAncestor
  }

  lemma SnapshotRemembers(sys: System, timed: Timed, ref: string, f: Fingerprint)
    requires timed.step.Snapshot? && Enabled(sys, timed.step)
    requires JobGroup(sys.db.jobs[timed.step.job]) == BranchGroup(ref)
    ensures
      var after := Next(sys, timed);
      && after.db == sys.db && timed.step.worker in after.inFlight
      && after.inFlight[timed.step.worker].job == timed.step.job
      && after.inFlight[timed.step.worker].scan == timed.step.scan
      && (f !in Tracked(timed.step.scan.findings) ==>
            (f in after.inFlight[timed.step.worker].gone <==> ShownGone(sys.db, timed.step, f)))
  {
  }

  /** A violation's branch exposure after a commit, whatever the worker remembers. */
  lemma CommitOfBranch(db: Db, p: Pending, ref: string, f: Fingerprint, now: Moment)
    requires p.job < |db.jobs| && JobGroup(db.jobs[p.job]) == BranchGroup(ref)
    requires ActiveAt(db.exposures, Place(f, BranchGroup(ref)))
    ensures ActiveAt(CommitScan(db, p.job, p.scan, p.gone, now).exposures, Place(f, BranchGroup(ref)))
       <==> NewerScanCompleted(db.jobs, p.job) || f in Tracked(p.scan.findings) || f !in p.gone
  {
    CommitScanActive(db, p.job, p.scan, p.gone, now);
  }

  lemma SameJob(a: Db, b: Db, job: nat)
    requires Grows(a, b) && job < |a.jobs|
    ensures job < |b.jobs| && JobGroup(b.jobs[job]) == JobGroup(a.jobs[job])
  {
    assert SameRow(a.jobs[job], b.jobs[job]);
  }

  lemma GrowsThrough(sys: System, steps: seq<Timed>)
    requires SystemInvariant(sys)
    ensures Grows(sys.db, Run(sys, steps).db)
  {
    EveryRun(sys, steps);
  }

  /**
   In every run, whatever happens between the snapshot of a branch scan and its
   commit: an active exposure of that branch ends with the commit if and only if
   no newer scan of the branch has completed, the scan lacks the violation, and at
   the snapshot, with a repository at hand, Git answered that the stored commit is
   definitely not an ancestor of the scanned head.
   */
  lemma BranchExposureEndsIff(
    before: seq<Timed>, snapshot: Timed, between: seq<Timed>, commit: Timed, ref: string, f: Fingerprint)
    requires snapshot.step.Snapshot? && Enabled(Run(Initial, before), snapshot.step)
    requires JobGroup(Run(Initial, before).db.jobs[snapshot.step.job]) == BranchGroup(ref)
    requires forall i :: 0 <= i < |between| ==> !OfWorker(between[i].step, snapshot.step.worker)
    requires commit.step == Commit(snapshot.step.worker)
    requires ActiveAt(Run(Initial, before + [snapshot] + between).db.exposures, Place(f, BranchGroup(ref)))
    ensures
      var asked, found := Run(Initial, before).db, Run(Initial, before + [snapshot] + between);
      var s := snapshot.step;
      && s.job < |found.db.jobs|
      && (!ActiveAt(Next(found, commit).db.exposures, Place(f, BranchGroup(ref)))
          <==> !NewerScanCompleted(found.db.jobs, s.job) && f !in Tracked(s.scan.findings) && ShownGone(asked, s, f))
  {
    hide Run, Next, CommitScan, SystemInvariant, Grows, Tracked, ShownGone, ActiveAt, NewerScanCompleted;
    var sys := Run(Initial, before);
    var scanned := Next(sys, snapshot);
    InitialIsRight();
    EveryRun(Initial, before);
    NextKeepsSystem(sys, snapshot);
    RunThrough(Initial, before, snapshot, between);
    SnapshotRemembers(sys, snapshot, ref, f);
    PendingKept(scanned, between, snapshot.step.worker);
    GrowsThrough(scanned, between);
    var found := Run(scanned, between);
    SameJob(scanned.db, found.db, snapshot.step.job);
    NextOfCommit(found, commit);
    CommitOfBranch(found.db, found.inFlight[snapshot.step.worker], ref, f, MomentOf(found, commit));
  }

  /** With fewer exposures than the query's limit, everything active on the branch is asked about. */
  lemma EverythingIsAsked(sys: System, snapshot: Step, f: Fingerprint)
    requires snapshot.Snapshot? && Enabled(sys, snapshot)
    requires |snapshot.rows| < REACHABILITY_LIMIT
    ensures f in snapshot.rows <==> ActiveAt(sys.db.exposures, Place(f, JobGroup(sys.db.jobs[snapshot.job])))
  {
    var group := JobGroup(sys.db.jobs[snapshot.job]);
    if f in ActiveIn(sys.db.exposures, group) {
      var p :| p in sys.db.exposures && p.group == group && sys.db.exposures[p].active && p.violation == f;
      assert p == Place(f, group);
    }
  }
}
