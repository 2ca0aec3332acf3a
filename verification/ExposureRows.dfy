/** What every operation of the lifecycle does to the exposure rows, row by row. */
module ExposureRows {
  import opened Wrappers
  import opened Decision
  import opened ScanJobs
  import opened Violations
  import opened LifecycleInvariants
  import opened ScanCompletion
  import opened ControlPlane
  import opened ScanOrder

  // ---------------------------------------------------------------- ending a group

  /** The group whose exposures a GitHub event ends. */
  function EndedBy(event: LifecycleEvent): Option<GroupKey> {
    match event
    case ClosePullRequest(number, _, _) => Some(PullRequestGroup(number))
    case DestroyMergeGroup(head, _, _) => Some(MergeGroup(head))
    case DeleteBranch(ref) => Some(BranchGroup(ref))
    case ReopenPullRequest(_) => None
    case AcknowledgeViolation(_) => None
    case Unacknowledge(_) => None
  }

  /** Only a merge moves exposures, and only to a branch that has a name. */
  predicate MovesTo(event: LifecycleEvent, branch: string) {
    || (event.ClosePullRequest? && event.merged && event.baseRef == branch != "")
    || (event.DestroyMergeGroup? && event.reason == MERGED && event.baseRef == branch)
  }

  /** The stored reason names what happened and to what. */
  predicate SaysWhy(event: LifecycleEvent, reason: ClosedReason) {
    match event
    case ClosePullRequest(number, merged, base) =>
      if merged then reason.MergedInto? && reason.number == number && reason.base == base
      else reason.ClosedUnmerged? && reason.number == number
    case DestroyMergeGroup(head, why, base) =>
      if why == MERGED then reason.MergeGroupMerged? && reason.head == head && reason.base == base
      else reason.MergeGroupGone? && reason.head == head && reason.reason == why
    case DeleteBranch(ref) => reason.BranchDeletedReason? && reason.ref == ref
    case _ => false
  }

  predicate JustClosed(before: Exposure, after: Exposure, job: Option<nat>, now: Moment) {
    && !after.active && after.closedAt == Some(now.read) && after.closedReason.Some?
    && after.firstJob == before.firstJob && after.openedAt == before.openedAt
    && after.lastJob == if job.Some? then job else before.lastJob
  }

  /** Opened now, unless it already was open. */
  predicate JustActive(exposures: ExposureTable, place: Place, after: Exposure, job: Option<nat>, now: Moment) {
    && after.active && after.closedAt == None && after.closedReason == None
    && (place !in exposures ==> after.openedAt == now.read && after.firstJob == job == after.lastJob)
    && (place in exposures ==>
          && after.openedAt == (if exposures[place].active then exposures[place].openedAt else now.read)
          && after.firstJob == exposures[place].firstJob
          && after.lastJob == if job.Some? then job else exposures[place].lastJob)
  }

  /**
   Closing or merging a pull request, destroying a merge group, deleting a branch:
   exactly the active exposures of its group end, with time and reason; exactly
   their violations become active on the branch merged into, if there is one; and
   no other row changes.
   */
  lemma EndingRows(db: Db, event: LifecycleEvent, now: Moment, p: Place)
    requires EndedBy(event).Some?
    ensures
      var before, after := db.exposures, DbAfter(db, event, now).exposures;
      var ended := p.group == EndedBy(event).value && ActiveAt(before, p);
      var moved := p.group.BranchGroup? && MovesTo(event, p.group.ref) && ActiveAt(before, Place(p.violation, EndedBy(event).value));
      && (ended ==> p in after && JustClosed(before[p], after[p], None, now) && SaysWhy(event, after[p].closedReason.value))
      && (moved ==> p in after && JustActive(before, p, after[p], None, now))
      && (!ended && !moved ==> (p in after <==> p in before) && (p in before ==> after[p] == before[p]))
  {
    var group := EndedBy(event).value;
    InActiveIn(db.exposures, group, p.violation);
    assert p.group == group ==> p == Place(p.violation, group);
  }

  /** So what ends without a merge becomes active nowhere. */
  lemma UnmergedMovesNothing(db: Db, event: LifecycleEvent, now: Moment)
    requires EndedBy(event).Some? && forall branch :: !MovesTo(event, branch)
    ensures forall p :: ActiveAt(DbAfter(db, event, now).exposures, p) <==> ActiveAt(db.exposures, p) && p.group != EndedBy(event).value
  {
    hide DbAfter, EndedBy, MovesTo;
    forall p
      ensures ActiveAt(DbAfter(db, event, now).exposures, p) <==> ActiveAt(db.exposures, p) && p.group != EndedBy(event).value
    {
      EndingRows(db, event, now, p);
    }
  }

  /** Reopening a pull request: exactly the rows its closing without merge left are active again, from now on. */
  lemma ReopeningRows(db: Db, number: int, now: Moment, p: Place)
    ensures
      var before, after := db.exposures, DbAfter(db, ReopenPullRequest(number), now).exposures;
      var left := p in before && p.group == PullRequestGroup(number) && !before[p].active
                  && before[p].closedReason == Some(ClosedUnmerged(number));
      && (left ==> p in after && JustActive(before, p, after[p], None, now))
      && (!left ==> (p in after <==> p in before) && (p in before ==> after[p] == before[p]))
  {
  }

  // ---------------------------------------------------------------- completing a scan

  /** A scan tracks what it blocks or warns about. */
  lemma TrackedIff(findings: seq<Finding>, f: Fingerprint)
    ensures f in Tracked(findings) <==>
      exists i :: 0 <= i < |findings| && findings[i].fingerprint == f && findings[i].action != Allow
  {
    if f in Tracked(findings) {
      var finding :| finding in findings && IsTracked(finding) && finding.fingerprint == f;
      var i :| 0 <= i < |findings| && findings[i] == finding;
    }
    if i :| 0 <= i < |findings| && findings[i].fingerprint == f && findings[i].action != Allow {
      assert findings[i] in findings && IsTracked(findings[i]);
    }
  }

  predicate ActivatedBy(before: ExposureTable, after: ExposureTable, places: set<Place>, job: nat, now: Moment) {
    && after.Keys == before.Keys + places
    && (forall p :: p in places ==> JustActive(before, p, after[p], Some(job), now))
    && (forall p :: p in before && p !in places ==> after[p] == before[p])
  }

  function Places(ids: set<Fingerprint>, group: GroupKey): set<Place> {
    set f | f in ids :: Place(f, group)
  }

  lemma ActivatedTwice(a: ExposureTable, b: ExposureTable, c: ExposureTable, some: set<Place>, more: set<Place>, job: nat, now: Moment)
    requires ActivatedBy(a, b, some, job, now) && ActivatedBy(b, c, more, job, now)
    ensures ActivatedBy(a, c, some + more, job, now)
  {
  }

  lemma OneActivated(exposures: ExposureTable, f: Fingerprint, group: GroupKey, job: nat, now: Moment)
    ensures ActivatedBy(exposures, ActivateAll(exposures, {f}, group, Some(job), now), {Place(f, group)}, job, now)
  {
    assert (set g | g in {f} :: Place(g, group)) == {Place(f, group)};
  }

  lemma {:induction false} FindingsActivate(db: Db, job: nat, findings: seq<Finding>, now: Moment)
    requires job < |db.jobs|
    ensures ActivatedBy(db.exposures, ApplyFindings(db, job, findings, false, now).exposures,
                        Places(Tracked(findings), JobGroup(db.jobs[job])), job, now)
  {
    hide ActivatedBy, ActivateAll, Tracked, JobGroup;
    if findings == [] {
      NothingTracked();
      NoneActivated(db.exposures, JobGroup(db.jobs[job]), job, now);
    } else {
      var rest, last := findings[..|findings| - 1], findings[|findings| - 1];
      var group := JobGroup(db.jobs[job]);
      FindingsActivate(db, job, rest, now);
      TrackedAppend(rest, last);
      assert rest + [last] == findings;
      if IsTracked(last) {
        var before := ApplyFindings(db, job, rest, false, now);
        OneActivated(before.exposures, last.fingerprint, group, job, now);
        ActivatedTwice(db.exposures, before.exposures, ApplyFindings(db, job, findings, false, now).exposures,
                       Places(Tracked(rest), group), {Place(last.fingerprint, group)}, job, now);
        assert Places(Tracked(findings), group) == Places(Tracked(rest), group) + {Place(last.fingerprint, group)};
      } else {
        assert Tracked(rest) + {} == Tracked(rest);
      }
    }
  }

  lemma NothingTracked()
    ensures Tracked([]) == {}
  {
  }

  lemma NoneActivated(exposures: ExposureTable, group: GroupKey, job: nat, now: Moment)
    ensures ActivatedBy(exposures, exposures, Places({}, group), job, now)
  {
  }

  /** The reason a scan stores: its head, and the pull request or branch the violation is gone from. */
  predicate SaysAbsent(job: ScanJob, reason: ClosedReason) {
    match JobGroup(job)
    case PullRequestGroup(number) => reason.LeftPullRequest? && reason.number == number && reason.head == job.request.headSha
    case BranchGroup(ref) => reason.NotReachable? && reason.ref == ref && reason.head == job.request.headSha
    case MergeGroup(_) => reason.NotReachable?
  }

  lemma CommitExposures(db: Db, job: nat, scan: ScanResult, gone: set<Fingerprint>, now: Moment)
    requires job < |db.jobs| && !NewerScanCompleted(db.jobs, job)
    ensures
      var found := ApplyFindings(db.(jobs := Finish(db.jobs, job, scan.passed, now)), job, scan.findings, false, now).exposures;
      var group := JobGroup(db.jobs[job]);
      CommitScan(db, job, scan, gone, now).exposures
      == CloseIn(found, AbsentFrom(found, group, Tracked(scan.findings), gone), group, AbsentReason(db.jobs[job]), Some(job), now)
  {
    hide ApplyFindings, CloseIn, AbsentFrom, NewerScanCompleted;
    FinishKeepsNewer(db.jobs, job, scan.passed, now);
  }

  lemma ClosedOrNot(exposures: ExposureTable, group: GroupKey, current: set<Fingerprint>, gone: set<Fingerprint>,
                    reason: ClosedReason, job: nat, now: Moment, p: Place)
    ensures
      var after := CloseIn(exposures, AbsentFrom(exposures, group, current, gone), group, reason, Some(job), now);
      var absent := ActiveAt(exposures, p) && p.group == group && p.violation !in current && (group.PullRequestGroup? || p.violation in gone);
      && (p in after <==> p in exposures)
      && (absent ==> JustClosed(exposures[p], after[p], Some(job), now) && after[p].closedReason == Some(reason))
      && (!absent && p in exposures ==> after[p] == exposures[p])
  {
    InActiveIn(exposures, group, p.violation);
    assert p.group == group ==> p == Place(p.violation, group);
  }

  /**
   Completing a scan that no newer one precedes: exactly the rows of what it
   tracked are active in its group; of the rest, exactly the active rows of its
   pull request, or those shown gone, end with time, job and reason; no other row
   changes.
   */
  lemma CommitRows(db: Db, job: nat, scan: ScanResult, gone: set<Fingerprint>, now: Moment, p: Place)
    requires job < |db.jobs| && !NewerScanCompleted(db.jobs, job)
    ensures
      var before, after := db.exposures, CommitScan(db, job, scan, gone, now).exposures;
      var group := JobGroup(db.jobs[job]);
      var found := p.group == group && p.violation in Tracked(scan.findings);
      var absent := ActiveAt(before, p) && p.group == group && !found && (group.PullRequestGroup? || p.violation in gone);
      && (found ==> p in after && JustActive(before, p, after[p], Some(job), now))
      && (absent ==> p in after && JustClosed(before[p], after[p], Some(job), now) && SaysAbsent(db.jobs[job], after[p].closedReason.value))
      && (!found && !absent ==> (p in after <==> p in before) && (p in before ==> after[p] == before[p]))
  {
    hide ApplyFindings, CommitScan, CloseIn, AbsentFrom, Tracked, NewerScanCompleted, JobGroup;
    var group := JobGroup(db.jobs[job]);
    var db1 := db.(jobs := Finish(db.jobs, job, scan.passed, now));
    var found := ApplyFindings(db1, job, scan.findings, false, now).exposures;
    CommitExposures(db, job, scan, gone, now);
    FinishKeepsGroup(db.jobs, job, scan.passed, now);
    FindingsActivate(db1, job, scan.findings, now);
    assert p in Places(Tracked(scan.findings), group) <==> p.group == group && p.violation in Tracked(scan.findings) by {
      assert p.group == group ==> p == Place(p.violation, group);
    }
    assert p !in Places(Tracked(scan.findings), group) ==> (p in found <==> p in db.exposures);
    ClosedOrNot(found, group, Tracked(scan.findings), gone, AbsentReason(db.jobs[job]), job, now, p);
    ReasonSaysAbsent(db.jobs[job]);
  }

  lemma FinishKeepsGroup(jobs: Jobs, job: nat, passed: bool, now: Moment)
    requires job < |jobs|
    ensures JobGroup(Finish(jobs, job, passed, now)[job]) == JobGroup(jobs[job])
  {
  }

  lemma ReasonSaysAbsent(job: ScanJob)
    ensures SaysAbsent(job, AbsentReason(job))
  {
  }

  // ---------------------------------------------------------------- every run

  /** A reason that can be stored for an exposure of this group. */
  predicate ReasonOfGroup(group: GroupKey, reason: ClosedReason) {
    match group
    case PullRequestGroup(n) => (reason.ClosedUnmerged? || reason.MergedInto? || reason.LeftPullRequest?) && reason.number == n
    case BranchGroup(ref) => (reason.NotReachable? || reason.BranchDeletedReason?) && reason.ref == ref
    case MergeGroup(head) => (reason.MergeGroupMerged? || reason.MergeGroupGone?) && reason.head == head
  }

  /** A row is active, or it says when and why it was closed. */
  predicate RowRight(p: Place, e: Exposure) {
    && (e.active <==> e.closedAt.None?) && (e.active <==> e.closedReason.None?)
    && (e.closedReason.Some? ==> ReasonOfGroup(p.group, e.closedReason.value))
  }

  ghost predicate RowsRight(exposures: ExposureTable) {
    forall p :: p in exposures ==> RowRight(p, exposures[p])
  }

  lemma EventKeepsRows(db: Db, event: LifecycleEvent, now: Moment)
    requires RowsRight(db.exposures)
    ensures RowsRight(DbAfter(db, event, now).exposures)
  {
    hide DbAfter;
    var after := DbAfter(db, event, now).exposures;
    forall p | p in after
      ensures RowRight(p, after[p])
    {
      if EndedBy(event).Some? {
        EndingRows(db, event, now, p);
      } else if event.ReopenPullRequest? {
        ReopeningRows(db, event.number, now, p);
      } else {
        CommandKeepsExposures(db, event, now);
      }
    }
  }

  lemma CommandKeepsExposures(db: Db, event: LifecycleEvent, now: Moment)
    requires event.AcknowledgeViolation? || event.Unacknowledge?
    ensures DbAfter(db, event, now).exposures == db.exposures
  {
  }

  lemma StaleKeepsExposures(db: Db, job: nat, scan: ScanResult, gone: set<Fingerprint>, now: Moment)
    requires job < |db.jobs| && NewerScanCompleted(db.jobs, job)
    ensures CommitScan(db, job, scan, gone, now).exposures == db.exposures
  {
    StaleCommit(db, job, scan, gone, now);
    ApplyFindingsActive(db.(jobs := Finish(db.jobs, job, scan.passed, now)), job, scan.findings, true, now);
  }

  lemma CommitKeepsRows(db: Db, job: nat, scan: ScanResult, gone: set<Fingerprint>, now: Moment)
    requires job < |db.jobs| && RowsRight(db.exposures)
    requires JobGroup(db.jobs[job]).MergeGroup? ==> gone == {}
    ensures RowsRight(CommitScan(db, job, scan, gone, now).exposures)
  {
    hide CommitScan, Tracked, NewerScanCompleted;
    var after := CommitScan(db, job, scan, gone, now).exposures;
    if NewerScanCompleted(db.jobs, job) {
      StaleKeepsExposures(db, job, scan, gone, now);
    } else {
      forall p | p in after
        ensures RowRight(p, after[p])
      {
        CommitRows(db, job, scan, gone, now, p);
      }
    }
  }

  lemma PendingOfMergeGroup(db: Db, p: Pending)
    requires PendingRight(db, p) && JobGroup(db.jobs[p.job]).MergeGroup?
    ensures p.gone == {}
  {
    assert forall f :: f in p.gone ==> false;
  }

  /** In every reachable state a closed exposure says when it was closed, and why, by a reason of its own group. */
  lemma {:induction false} ReachableRows(steps: seq<Timed>)
    ensures RowsRight(Run(Initial, steps).db.exposures)
  {
    hide Next, RowsRight, CommitScan, DbAfter, JobsAfter;
    if steps == [] {
      NoRows();
    } else {
      var rest, timed := steps[..|steps| - 1], steps[|steps| - 1];
      ReachableRows(rest);
      StepKeepsRows(rest, timed);
    }
  }

  lemma NoRows()
    ensures RowsRight(Run(Initial, []).db.exposures)
  {
  }

  lemma StepKeepsRows(steps: seq<Timed>, timed: Timed)
    requires RowsRight(Run(Initial, steps).db.exposures)
    ensures RowsRight(Next(Run(Initial, steps), timed).db.exposures)
  {
    hide Run, RowsRight, CommitScan, DbAfter, JobsAfter, PendingRight;
    var sys := Run(Initial, steps);
    if Enabled(sys, timed.step) {
      if timed.step.Commit? {
        var p := sys.inFlight[timed.step.worker];
        ReachablePending(steps, timed.step.worker);
        if JobGroup(sys.db.jobs[p.job]).MergeGroup? {
          PendingOfMergeGroup(sys.db, p);
        }
        CommitKeepsRows(sys.db, p.job, p.scan, p.gone, MomentOf(sys, timed));
      } else if timed.step.External? {
        EventKeepsRows(sys.db, timed.step.event, MomentOf(sys, timed));
      }
    }
  }
}
