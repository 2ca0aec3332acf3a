/** In every run a violation's status, its times and its trail change exactly as its exposure does. */
module Standing {
  import opened Wrappers
  import opened Decision
  import opened ScanJobs
  import opened Violations
  import opened AuditTrail
  import opened LifecycleInvariants
  import opened ScanCompletion
  import opened ControlPlane
  import opened ExposureRows

  predicate Untouched(v: Violation, w: Violation, trail: seq<Event>, after: seq<Event>) {
    w.status == v.status && w.resolvedAt == v.resolvedAt && w.acknowledgedAt == v.acknowledgedAt && after == trail
  }

  predicate ResolvedNow(v: Violation, w: Violation, trail: seq<Event>, after: seq<Event>, now: Moment) {
    && v.status == Open && w.status == Resolved && w.resolvedAt == Some(now.read) && w.acknowledgedAt == v.acknowledgedAt
    && after == trail + [Event(ResolvedEvent, now.at)]
  }

  predicate ReopenedNow(v: Violation, w: Violation, trail: seq<Event>, after: seq<Event>, now: Moment) {
    && v.status == Resolved && w.status == Open && w.resolvedAt == None && w.acknowledgedAt == None
    && after == trail + [Event(Reopened, now.at)]
  }

  predicate Explained(v: Violation, w: Violation, trail: seq<Event>, after: seq<Event>, now: Moment) {
    Untouched(v, w, trail, after) || ResolvedNow(v, w, trail, after, now) || ReopenedNow(v, w, trail, after, now)
  }

  // ---------------------------------------------------------------- one operation

  lemma RefreshExplained(db: Db, ids: set<Fingerprint>, now: Moment, f: Fingerprint)
    requires f in db.violations
    ensures Explained(db.violations[f], Refresh(db, ids, now).violations[f], Trail(db, f), Trail(Refresh(db, ids, now), f), now)
    ensures f in ids && Exposed(db.exposures, f) && db.violations[f].status == Open ==>
      Untouched(db.violations[f], Refresh(db, ids, now).violations[f], Trail(db, f), Trail(Refresh(db, ids, now), f))
    ensures f !in ids ==> Untouched(db.violations[f], Refresh(db, ids, now).violations[f], Trail(db, f), Trail(Refresh(db, ids, now), f))
  {
    assert Trail(db, f) + [] == Trail(db, f);
  }

  lemma EventExplained(db: Db, event: LifecycleEvent, now: Moment, f: Fingerprint)
    requires f in db.violations && !event.AcknowledgeViolation? && !event.Unacknowledge?
    ensures f in DbAfter(db, event, now).violations
    ensures Explained(db.violations[f], DbAfter(db, event, now).violations[f], Trail(db, f), Trail(DbAfter(db, event, now), f), now)
  {
    hide Explained, Refresh;
    match event
    case ClosePullRequest(number, merged, baseRef) =>
      EndExplained(db, PullRequestGroup(number), if merged then MergedInto(number, baseRef) else ClosedUnmerged(number),
                   if merged && baseRef != "" then Some(baseRef) else None, now, f);
    case ReopenPullRequest(number) =>
      var restored := db.(exposures := RestoredExposures(db.exposures, number, now));
      RefreshExplained(restored, ClosedUnmergedIn(db.exposures, number), now, f);
      RefreshKeepsKeys(restored, ClosedUnmergedIn(db.exposures, number), now);
    case DestroyMergeGroup(head, reason, baseRef) =>
      EndExplained(db, MergeGroup(head), if reason == MERGED then MergeGroupMerged(head, baseRef) else MergeGroupGone(head, reason),
                   if reason == MERGED then Some(baseRef) else None, now, f);
    case DeleteBranch(ref) => EndExplained(db, BranchGroup(ref), BranchDeletedReason(ref), None, now, f);
  }

  lemma RefreshKeepsKeys(db: Db, ids: set<Fingerprint>, now: Moment)
    ensures Refresh(db, ids, now).violations.Keys == Refresh(db, ids, now).trail.Keys == db.violations.Keys
  {
  }

  lemma EndExplained(db: Db, group: GroupKey, reason: ClosedReason, branch: Option<string>, now: Moment, f: Fingerprint)
    requires f in db.violations
    ensures
      var after := EndAndMove(db, group, reason, branch, now);
      f in after.violations && Explained(db.violations[f], after.violations[f], Trail(db, f), Trail(after, f), now)
  {
    hide Explained, Refresh;
    var ids := ActiveIn(db.exposures, group);
    var ended := EndGroup(db, group, reason, now);
    var moved := if branch.None? then ended
                 else ended.(exposures := ActivateAll(ended.exposures, ids, BranchGroup(branch.value), None, now));
    RefreshExplained(moved, ids, now, f);
    RefreshKeepsKeys(moved, ids, now);
  }

  /** The findings loop reopens exactly the resolved violations it tracks. */
  lemma {:induction false} FindingsReopen(db: Db, job: nat, findings: seq<Finding>, now: Moment, f: Fingerprint)
    requires job < |db.jobs| && f in db.violations
    ensures
      var after := ApplyFindings(db, job, findings, false, now);
      && f in after.violations
      && if f in Tracked(findings) && db.violations[f].status == Resolved
         then ReopenedNow(db.violations[f], after.violations[f], Trail(db, f), Trail(after, f), now)
         else Untouched(db.violations[f], after.violations[f], Trail(db, f), Trail(after, f))
  {
    if findings != [] {
      var rest, last := findings[..|findings| - 1], findings[|findings| - 1];
      FindingsReopen(db, job, rest, now, f);
      TrackedAppend(rest, last);
      assert rest + [last] == findings;
      FindingReopens(ApplyFindings(db, job, rest, false, now), job, last, now, f);
    }
  }

  lemma FindingReopens(db: Db, job: nat, finding: Finding, now: Moment, f: Fingerprint)
    requires job < |db.jobs| && f in db.violations
    ensures
      var after := ApplyFinding(db, job, finding, false, now);
      && f in after.violations
      && if IsTracked(finding) && f == finding.fingerprint && db.violations[f].status == Resolved
         then ReopenedNow(db.violations[f], after.violations[f], Trail(db, f), Trail(after, f), now)
         else Untouched(db.violations[f], after.violations[f], Trail(db, f), Trail(after, f))
  {
    assert Trail(db, f) + [] == Trail(db, f);
  }

  /** What the refresh at the end of a commit starts from. */
  function Closed(db: Db, job: nat, scan: ScanResult, gone: set<Fingerprint>, now: Moment): (r: (Db, set<Fingerprint>))
    requires job < |db.jobs|
  {
    var db1 := db.(jobs := Finish(db.jobs, job, scan.passed, now));
    var found := ApplyFindings(db1, job, scan.findings, false, now);
    var group := JobGroup(db1.jobs[job]);
    var closed := AbsentFrom(found.exposures, group, Tracked(scan.findings), gone);
    (found.(exposures := CloseIn(found.exposures, closed, group, AbsentReason(db1.jobs[job]), Some(job), now)), closed)
  }

  lemma CommitRefreshes(db: Db, job: nat, scan: ScanResult, gone: set<Fingerprint>, now: Moment)
    requires job < |db.jobs| && !NewerScanCompleted(db.jobs, job)
    ensures
      var (closed, ids) := Closed(db, job, scan, gone, now);
      CommitScan(db, job, scan, gone, now) == Refresh(closed, Tracked(scan.findings) + ids, now)
  {
    hide ApplyFindings, CloseIn, AbsentFrom, Refresh, NewerScanCompleted;
    FinishKeepsNewer(db.jobs, job, scan.passed, now);
  }

  lemma FoundIsExposed(db: Db, job: nat, scan: ScanResult, gone: set<Fingerprint>, now: Moment, f: Fingerprint)
    requires job < |db.jobs| && !NewerScanCompleted(db.jobs, job) && f in Tracked(scan.findings)
    ensures Exposed(Closed(db, job, scan, gone, now).0.exposures, f)
  {
    hide ApplyFindings, CloseIn, AbsentFrom, Tracked, Closed, CommitScan, NewerScanCompleted, Exposed, JobGroup;
    CommitScanActive(db, job, scan, gone, now);
    CommitRefreshes(db, job, scan, gone, now);
    var exposures := CommitScan(db, job, scan, gone, now).exposures;
    assert ActiveAt(exposures, Place(f, JobGroup(db.jobs[job])));
    ExposedIffActive(exposures);
  }

  lemma StaleExplained(db: Db, job: nat, scan: ScanResult, gone: set<Fingerprint>, clock: int, now: Moment, f: Fingerprint)
    requires Invariant(db, clock) && job < |db.jobs| && NewerScanCompleted(db.jobs, job) && f in db.violations
    ensures
      var after := CommitScan(db, job, scan, gone, now);
      f in after.violations && Untouched(db.violations[f], after.violations[f], Trail(db, f), Trail(after, f))
  {
    hide ApplyFindings, Refresh, Tracked, NewerScanCompleted, CommitScan, WellFormed, TrailRight, Detections, StatusesRightBut;
    StaleScanIsHistory(db, job, scan, gone, clock, now);
    StaleCommit(db, job, scan, gone, now);
    RefreshKeepsKeys(ApplyFindings(db.(jobs := Finish(db.jobs, job, scan.passed, now)), job, scan.findings, true, now),
                     Tracked(scan.findings), now);
    assert f in db.trail;
  }

  lemma CommitExplained(db: Db, job: nat, scan: ScanResult, gone: set<Fingerprint>, clock: int, now: Moment, f: Fingerprint)
    requires Invariant(db, clock) && job < |db.jobs| && f in db.violations
    ensures
      var after := CommitScan(db, job, scan, gone, now);
      f in after.violations && Explained(db.violations[f], after.violations[f], Trail(db, f), Trail(after, f), now)
  {
    hide ApplyFindings, CloseIn, AbsentFrom, Tracked, Refresh, NewerScanCompleted, Exposed, CommitScan;
    if NewerScanCompleted(db.jobs, job) {
      StaleExplained(db, job, scan, gone, clock, now, f);
    } else {
      var (closed, ids) := Closed(db, job, scan, gone, now);
      CommitRefreshes(db, job, scan, gone, now);
      FindingsReopen(db.(jobs := Finish(db.jobs, job, scan.passed, now)), job, scan.findings, now, f);
      RefreshExplained(closed, Tracked(scan.findings) + ids, now, f);
      RefreshKeepsKeys(closed, Tracked(scan.findings) + ids, now);
      if f in Tracked(scan.findings) {
        FoundIsExposed(db, job, scan, gone, now, f);
      }
    }
  }

  predicate Acknowledges(step: Step, f: Fingerprint) {
    step.External? && (step.event == AcknowledgeViolation(f) || step.event == Unacknowledge(f))
  }

  lemma CommandLeavesOthers(db: Db, event: LifecycleEvent, now: Moment, f: Fingerprint)
    requires f in db.violations && (event.AcknowledgeViolation? || event.Unacknowledge?)
    requires event != AcknowledgeViolation(f) && event != Unacknowledge(f)
    ensures
      var after := DbAfter(db, event, now);
      f in after.violations && Untouched(db.violations[f], after.violations[f], Trail(db, f), Trail(after, f))
  {
  }

  lemma StepExplained(sys: System, timed: Timed, f: Fingerprint)
    requires SystemInvariant(sys) && f in sys.db.violations && !Acknowledges(timed.step, f)
    ensures
      var after := Next(sys, timed).db;
      && f in after.violations
      && Explained(sys.db.violations[f], after.violations[f], Trail(sys.db, f), Trail(after, f), MomentOf(sys, timed))
  {
    hide CommitScan, DbAfter, JobsAfter, Invariant, AskGit;
    var now := MomentOf(sys, timed);
    if Enabled(sys, timed.step) {
      match timed.step
      case OnJobs(_) =>
      case Snapshot(_, _, _, _, _, _) =>
      case Commit(worker) =>
        var p := sys.inFlight[worker];
        CommitExplained(sys.db, p.job, p.scan, p.gone, sys.clock, now, f);
      case External(event) =>
        if event.AcknowledgeViolation? || event.Unacknowledge? {
          CommandLeavesOthers(sys.db, event, now, f);
        } else {
          EventExplained(sys.db, event, now, f);
        }
    }
  }

  // ---------------------------------------------------------------- every step of every run

  lemma StatusIsExposure(sys: System, f: Fingerprint)
    requires SystemInvariant(sys) && f in sys.db.violations
    ensures sys.db.violations[f].status == Open <==> Exposed(sys.db.exposures, f)
  {
    assert StatusRight(sys.db, f);
  }

  /**
   In every run, a step that is not an acknowledgement of the violation changes its
   standing exactly as it changes its exposure: it is resolved, once, when it is no
   longer exposed anywhere, reopened without its acknowledgement, once, when it is
   exposed again, and otherwise neither its row's standing nor its trail changes.
   */
  lemma StandingFollowsExposure(steps: seq<Timed>, timed: Timed, f: Fingerprint)
    requires f in Run(Initial, steps).db.violations && !Acknowledges(timed.step, f)
    ensures
      var before, after := Run(Initial, steps).db, Next(Run(Initial, steps), timed).db;
      var now := MomentOf(Run(Initial, steps), timed);
      var was, remains := Exposed(before.exposures, f), Exposed(after.exposures, f);
      && f in after.violations
      && (was == remains ==> Untouched(before.violations[f], after.violations[f], Trail(before, f), Trail(after, f)))
      && (was && !remains ==> ResolvedNow(before.violations[f], after.violations[f], Trail(before, f), Trail(after, f), now))
      && (!was && remains ==> ReopenedNow(before.violations[f], after.violations[f], Trail(before, f), Trail(after, f), now))
  {
    hide Run, Next, SystemInvariant, Exposed, Trail;
    InitialIsRight();
    EveryRun(Initial, steps);
    var sys := Run(Initial, steps);
    NextKeepsSystem(sys, timed);
    StepExplained(sys, timed, f);
    StatusIsExposure(sys, f);
    StatusIsExposure(Next(sys, timed), f);
  }

  lemma ExposedAt(exposures: ExposureTable, f: Fingerprint)
    ensures Exposed(exposures, f) <==> exists p :: ActiveAt(exposures, p) && p.violation == f
  {
    ExposedIffActive(exposures);
  }

  /**
   In every run, what ends without a merge - a pull request closed or merged into a
   branch without a name, a merge group that was not merged, a deleted branch -
   resolves, once, every violation that was exposed nowhere else.
   */
  lemma UnmergedResolves(steps: seq<Timed>, timed: Timed, f: Fingerprint)
    requires timed.step.External? && EndedBy(timed.step.event).Some? && forall branch :: !MovesTo(timed.step.event, branch)
    requires f in Run(Initial, steps).db.violations && Exposed(Run(Initial, steps).db.exposures, f)
    requires forall p :: ActiveAt(Run(Initial, steps).db.exposures, p) && p.violation == f ==> p.group == EndedBy(timed.step.event).value
    ensures
      var before, after := Run(Initial, steps).db, Next(Run(Initial, steps), timed).db;
      && f in after.violations
      && ResolvedNow(before.violations[f], after.violations[f], Trail(before, f), Trail(after, f), MomentOf(Run(Initial, steps), timed))
  {
    hide Run, Next, Exposed, Trail, ActiveAt, MovesTo, DbAfter;
    var sys := Run(Initial, steps);
    NextOfEvent(sys, timed);
    UnmergedMovesNothing(sys.db, timed.step.event, MomentOf(sys, timed));
    ExposedAt(Next(sys, timed).db.exposures, f);
    StandingFollowsExposure(steps, timed, f);
  }

  /** A violation that a step records for the first time was found by that scan; if the scan is stale it is resolved at once. */
  lemma NewlyRecorded(steps: seq<Timed>, timed: Timed, f: Fingerprint)
    requires f !in Run(Initial, steps).db.violations && f in Next(Run(Initial, steps), timed).db.violations
    ensures
      var sys := Run(Initial, steps);
      var now := MomentOf(sys, timed);
      var v, trail := Next(sys, timed).db.violations[f], Trail(Next(sys, timed).db, f);
      && timed.step.Commit? && timed.step.worker in sys.inFlight && f in Tracked(sys.inFlight[timed.step.worker].scan.findings)
      && v.acknowledgedAt == None
      && if Exposed(Next(sys, timed).db.exposures, f)
         then v.status == Open && v.resolvedAt == None && trail == [Event(Opened, now.at)]
         else v.status == Resolved && v.resolvedAt == Some(now.read) && trail == [Event(Opened, now.at), Event(ResolvedEvent, now.at)]
  {
    hide Run, SystemInvariant, Exposed, CommitScan, DbAfter, JobsAfter, AskGit, Tracked;
    InitialIsRight();
    EveryRun(Initial, steps);
    var sys := Run(Initial, steps);
    if timed.step.External? {
      EventAddsNone(sys.db, timed.step.event, MomentOf(sys, timed));
    }
    assert timed.step.Commit? && Enabled(sys, timed.step);
    var p := sys.inFlight[timed.step.worker];
    NextKeepsSystem(sys, timed);
    StatusIsExposure(Next(sys, timed), f);
    CommitAdds(sys.db, p.job, p.scan, p.gone, MomentOf(sys, timed), f, sys.clock);
  }

  lemma EventAddsNone(db: Db, event: LifecycleEvent, now: Moment)
    ensures DbAfter(db, event, now).violations.Keys == db.violations.Keys
  {
  }

  lemma {:induction false} FindingsAdd(db: Db, job: nat, findings: seq<Finding>, stale: bool, now: Moment, f: Fingerprint)
    requires job < |db.jobs| && f !in db.violations && f !in db.trail
    ensures
      var after := ApplyFindings(db, job, findings, stale, now);
      && (f in after.violations <==> f in Tracked(findings))
      && (f in after.violations ==>
            && after.violations[f].status == Open && after.violations[f].resolvedAt == None && after.violations[f].acknowledgedAt == None
            && Trail(after, f) == [Event(Opened, now.at)])
      && (f !in after.violations ==> f !in after.trail)
  {
    if findings != [] {
      var rest, last := findings[..|findings| - 1], findings[|findings| - 1];
      FindingsAdd(db, job, rest, stale, now, f);
      TrackedAppend(rest, last);
      assert rest + [last] == findings;
      var before := ApplyFindings(db, job, rest, stale, now);
      assert Trail(before, f) + [] == Trail(before, f) && [] + [Event(Opened, now.at)] == [Event(Opened, now.at)];
    }
  }

  lemma RefreshOpened(db: Db, ids: set<Fingerprint>, now: Moment, f: Fingerprint)
    requires f in db.violations && db.violations[f].status == Open && Trail(db, f) == [Event(Opened, now.at)]
    ensures
      var after := Refresh(db, ids, now);
      if after.violations[f].status == Open then after.violations[f] == db.violations[f] && Trail(after, f) == [Event(Opened, now.at)]
      else && after.violations[f].resolvedAt == Some(now.read) && after.violations[f].acknowledgedAt == db.violations[f].acknowledgedAt
           && Trail(after, f) == [Event(Opened, now.at), Event(ResolvedEvent, now.at)]
  {
    assert Trail(db, f) + [] == Trail(db, f);
    assert [Event(Opened, now.at)] + [Event(ResolvedEvent, now.at)] == [Event(Opened, now.at), Event(ResolvedEvent, now.at)];
  }

  lemma CommitAdds(db: Db, job: nat, scan: ScanResult, gone: set<Fingerprint>, now: Moment, f: Fingerprint, clock: int)
    requires Invariant(db, clock) && job < |db.jobs| && f !in db.violations && f in CommitScan(db, job, scan, gone, now).violations
    ensures f in Tracked(scan.findings)
    ensures
      var after := CommitScan(db, job, scan, gone, now);
      && after.violations[f].acknowledgedAt == None
      && if after.violations[f].status == Open
         then after.violations[f].resolvedAt == None && Trail(after, f) == [Event(Opened, now.at)]
         else after.violations[f].resolvedAt == Some(now.read) && Trail(after, f) == [Event(Opened, now.at), Event(ResolvedEvent, now.at)]
  {
    hide ApplyFindings, CloseIn, AbsentFrom, Tracked, Refresh, NewerScanCompleted, Exposed, WellFormed, TrailRight, Detections;
    var db1 := db.(jobs := Finish(db.jobs, job, scan.passed, now));
    var stale := NewerScanCompleted(db1.jobs, job);
    var found := ApplyFindings(db1, job, scan.findings, stale, now);
    var group := JobGroup(db1.jobs[job]);
    var closed := if stale then {} else AbsentFrom(found.exposures, group, Tracked(scan.findings), gone);
    var closing := found.(exposures := CloseIn(found.exposures, closed, group, AbsentReason(db1.jobs[job]), Some(job), now));
    FindingsAdd(db1, job, scan.findings, stale, now, f);
    RefreshKeepsKeys(closing, Tracked(scan.findings) + closed, now);
    RefreshOpened(closing, Tracked(scan.findings) + closed, now, f);
  }

  // ---------------------------------------------------------------- acknowledgements

  /** The two dashboard commands change one violation, if it may be changed, and nothing else. */
  lemma AcknowledgementTakesEffect(db: Db, f: Fingerprint, now: Moment)
    ensures
      var after := DbAfter(db, AcknowledgeViolation(f), now);
      if f in db.violations && db.violations[f].status == Open then
        && after.violations == db.violations[f := db.violations[f].(acknowledgedAt := Some(now.read))]
        && Trail(after, f) == Trail(db, f) + [Event(Acknowledged, now.at)]
        && (forall g :: g != f ==> Trail(after, g) == Trail(db, g))
        && after.exposures == db.exposures && after.jobs == db.jobs && after.findings == db.findings
      else after == db
    ensures
      var after := DbAfter(db, Unacknowledge(f), now);
      if f in db.violations && db.violations[f].acknowledgedAt.Some? then
        && after.violations == db.violations[f := db.violations[f].(acknowledgedAt := None)]
        && Trail(after, f) == Trail(db, f) + [Event(AcknowledgementRemoved, now.at)]
        && (forall g :: g != f ==> Trail(after, g) == Trail(db, g))
        && after.exposures == db.exposures && after.jobs == db.jobs && after.findings == db.findings
      else after == db
  {
  }
}
