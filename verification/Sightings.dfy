/** A violation's row is the summary of its finding rows: what the first one said, what the last one said, and when. */
module Sightings {
  import opened Wrappers
  import opened Decision
  import opened ScanJobs
  import opened Violations
  import opened LifecycleInvariants
  import opened ScanCompletion
  import opened ControlPlane

  function FirstRow(findings: seq<FindingRow>, f: Fingerprint): Option<FindingRow> {
    if findings == [] then None
    else
      var before := FirstRow(findings[..|findings| - 1], f);
      if before.None? && findings[|findings| - 1].violation == Some(f) then Some(findings[|findings| - 1]) else before
  }

  function LastRow(findings: seq<FindingRow>, f: Fingerprint): Option<FindingRow> {
    if findings == [] then None
    else if findings[|findings| - 1].violation == Some(f) then Some(findings[|findings| - 1])
    else LastRow(findings[..|findings| - 1], f)
  }

  /** The rule and commit are those of the first finding, the action that of the last one. */
  predicate Summarises(v: Violation, first: Option<FindingRow>, last: Option<FindingRow>) {
    && first.Some? && last.Some?
    && v.rule == first.value.finding.rule && v.commit == first.value.finding.commit
    && v.firstJob == first.value.job && v.firstDetectedAt == first.value.createdAt
    && v.action == last.value.finding.action
    && v.lastJob == last.value.job && v.lastDetectedAt == last.value.createdAt
  }

  /** Every row of a violation's findings is a blocking or warning finding of that fingerprint; other rows name no violation. */
  predicate RowTracks(row: FindingRow) {
    row.violation == if row.finding.action == Allow then None else Some(row.finding.fingerprint)
  }

  ghost predicate Summarised(db: Db) {
    && (forall i :: 0 <= i < |db.findings| ==> RowTracks(db.findings[i]))
    && (forall f :: f in db.violations ==> Summarises(db.violations[f], FirstRow(db.findings, f), LastRow(db.findings, f)))
    && (forall f :: FirstRow(db.findings, f).Some? ==> f in db.violations)
  }

  lemma RowsAppend(findings: seq<FindingRow>, row: FindingRow, f: Fingerprint)
    ensures FirstRow(findings + [row], f)
         == if FirstRow(findings, f).None? && row.violation == Some(f) then Some(row) else FirstRow(findings, f)
    ensures LastRow(findings + [row], f) == if row.violation == Some(f) then Some(row) else LastRow(findings, f)
  {
    assert (findings + [row])[..|findings|] == findings;
  }

  /** Everything about a row that a scan sets when it finds the violation. */
  predicate SameSummary(v: Violation, w: Violation) {
    && w.rule == v.rule && w.commit == v.commit && w.action == v.action
    && w.firstJob == v.firstJob && w.lastJob == v.lastJob
    && w.firstDetectedAt == v.firstDetectedAt && w.lastDetectedAt == v.lastDetectedAt
  }

  ghost predicate OnlyStanding(a: Db, b: Db) {
    && b.findings == a.findings && b.violations.Keys == a.violations.Keys
    && forall f :: f in a.violations ==> SameSummary(a.violations[f], b.violations[f])
  }

  lemma OnlyStandingKeeps(a: Db, b: Db)
    requires Summarised(a) && OnlyStanding(a, b)
    ensures Summarised(b)
  {
    hide FirstRow, LastRow;
    forall f | f in b.violations
      ensures Summarises(b.violations[f], FirstRow(b.findings, f), LastRow(b.findings, f))
    {
      assert SameSummary(a.violations[f], b.violations[f]);
    }
  }

  lemma SameTables(a: Db, b: Db)
    requires b.violations == a.violations && b.findings == a.findings
    ensures OnlyStanding(a, b)
  {
  }

  lemma RefreshOnlyStanding(db: Db, ids: set<Fingerprint>, now: Moment)
    ensures OnlyStanding(db, Refresh(db, ids, now))
  {
  }

  lemma EventOnlyStanding(db: Db, event: LifecycleEvent, now: Moment)
    ensures OnlyStanding(db, DbAfter(db, event, now))
  {
    hide Refresh, OnlyStanding, Acknowledge, RemoveAcknowledgement;
    match event
    case ClosePullRequest(number, merged, baseRef) =>
      EndOnlyStanding(db, PullRequestGroup(number), if merged then MergedInto(number, baseRef) else ClosedUnmerged(number),
                      if merged && baseRef != "" then Some(baseRef) else None, now);
    case ReopenPullRequest(number) =>
      var restored := db.(exposures := RestoredExposures(db.exposures, number, now));
      RefreshOnlyStanding(restored, ClosedUnmergedIn(db.exposures, number), now);
      SameTables(db, restored);
      OnlyStandingTwice(db, restored, DbAfter(db, event, now));
    case DestroyMergeGroup(head, reason, baseRef) =>
      EndOnlyStanding(db, MergeGroup(head), if reason == MERGED then MergeGroupMerged(head, baseRef) else MergeGroupGone(head, reason),
                      if reason == MERGED then Some(baseRef) else None, now);
    case DeleteBranch(ref) => EndOnlyStanding(db, BranchGroup(ref), BranchDeletedReason(ref), None, now);
    case AcknowledgeViolation(_) => CommandOnlyStanding(db, event, now);
    case Unacknowledge(_) => CommandOnlyStanding(db, event, now);
  }

  lemma CommandOnlyStanding(db: Db, event: LifecycleEvent, now: Moment)
    requires event.AcknowledgeViolation? || event.Unacknowledge?
    ensures OnlyStanding(db, DbAfter(db, event, now))
  {
  }

  lemma EndOnlyStanding(db: Db, group: GroupKey, reason: ClosedReason, branch: Option<string>, now: Moment)
    ensures OnlyStanding(db, EndAndMove(db, group, reason, branch, now))
  {
    hide Refresh, OnlyStanding;
    var ids := ActiveIn(db.exposures, group);
    var ended := EndGroup(db, group, reason, now);
    var moved := if branch.None? then ended
                 else ended.(exposures := ActivateAll(ended.exposures, ids, BranchGroup(branch.value), None, now));
    SameTables(db, moved);
    RefreshOnlyStanding(moved, ids, now);
    OnlyStandingTwice(db, moved, EndAndMove(db, group, reason, branch, now));
  }

  lemma OnlyStandingTwice(a: Db, b: Db, c: Db)
    requires OnlyStanding(a, b) && OnlyStanding(b, c)
    ensures OnlyStanding(a, c)
  {
    forall f | f in a.violations
      ensures SameSummary(a.violations[f], c.violations[f])
    {
      assert SameSummary(a.violations[f], b.violations[f]) && SameSummary(b.violations[f], c.violations[f]);
    }
  }

  lemma FindingKeeps(db: Db, job: nat, finding: Finding, stale: bool, now: Moment)
    requires job < |db.jobs| && Summarised(db)
    ensures Summarised(ApplyFinding(db, job, finding, stale, now))
  {
    hide FirstRow, LastRow, ActivateAll;
    var after := ApplyFinding(db, job, finding, stale, now);
    var row := after.findings[|db.findings|];
    forall f
      ensures f in after.violations ==> Summarises(after.violations[f], FirstRow(after.findings, f), LastRow(after.findings, f))
      ensures FirstRow(after.findings, f).Some? ==> f in after.violations
    {
      RowsAppend(db.findings, row, f);
      FirstMeansLast(db.findings, f);
      assert f in db.violations ==> Summarises(db.violations[f], FirstRow(db.findings, f), LastRow(db.findings, f));
    }
  }

  lemma {:induction false} FirstMeansLast(findings: seq<FindingRow>, f: Fingerprint)
    ensures FirstRow(findings, f).Some? <==> LastRow(findings, f).Some?
  {
    if findings != [] {
      FirstMeansLast(findings[..|findings| - 1], f);
    }
  }

  lemma {:induction false} FindingsKeep(db: Db, job: nat, findings: seq<Finding>, stale: bool, now: Moment)
    requires job < |db.jobs| && Summarised(db)
    ensures Summarised(ApplyFindings(db, job, findings, stale, now))
  {
    hide Summarised, ApplyFinding;
    if findings != [] {
      FindingsKeep(db, job, findings[..|findings| - 1], stale, now);
      FindingKeeps(ApplyFindings(db, job, findings[..|findings| - 1], stale, now), job, findings[|findings| - 1], stale, now);
    }
  }

  lemma CommitKeepsSummary(db: Db, job: nat, scan: ScanResult, gone: set<Fingerprint>, now: Moment)
    requires job < |db.jobs| && Summarised(db)
    ensures Summarised(CommitScan(db, job, scan, gone, now))
  {
    hide Summarised, ApplyFindings, CloseIn, AbsentFrom, Refresh, OnlyStanding, NewerScanCompleted;
    var db1 := db.(jobs := Finish(db.jobs, job, scan.passed, now));
    var stale := NewerScanCompleted(db1.jobs, job);
    var found := ApplyFindings(db1, job, scan.findings, stale, now);
    var group := JobGroup(db1.jobs[job]);
    var closed := if stale then {} else AbsentFrom(found.exposures, group, Tracked(scan.findings), gone);
    var closing := found.(exposures := CloseIn(found.exposures, closed, group, AbsentReason(db1.jobs[job]), Some(job), now));
    SameTables(db, db1);
    OnlyStandingKeeps(db, db1);
    FindingsKeep(db1, job, scan.findings, stale, now);
    SameTables(found, closing);
    OnlyStandingKeeps(found, closing);
    RefreshOnlyStanding(closing, Tracked(scan.findings) + closed, now);
    OnlyStandingKeeps(closing, Refresh(closing, Tracked(scan.findings) + closed, now));
  }

  lemma StepKeepsSummary(sys: System, timed: Timed)
    requires Summarised(sys.db)
    ensures Summarised(Next(sys, timed).db)
  {
    hide Summarised, CommitScan, DbAfter, JobsAfter, AskGit, OnlyStanding;
    var now := MomentOf(sys, timed);
    if Enabled(sys, timed.step) {
      match timed.step
      case OnJobs(_) =>
        SameTables(sys.db, Next(sys, timed).db);
        OnlyStandingKeeps(sys.db, Next(sys, timed).db);
      case Snapshot(_, _, _, _, _, _) =>
      case Commit(worker) =>
        var p := sys.inFlight[worker];
        CommitKeepsSummary(sys.db, p.job, p.scan, p.gone, now);
      case External(event) =>
        EventOnlyStanding(sys.db, event, now);
        OnlyStandingKeeps(sys.db, DbAfter(sys.db, event, now));
    }
  }

  /**
   In every reachable state each violation's row summarises its finding rows: rule,
   commit, time and job of the first, action, time and job of the last; and every
   violation a finding row names has a row.
   */
  lemma {:induction false} ReachableSummaries(steps: seq<Timed>)
    ensures Summarised(Run(Initial, steps).db)
  {
    hide Next, Summarised;
    if steps == [] {
      NothingSeen();
    } else {
      ReachableSummaries(steps[..|steps| - 1]);
      StepKeepsSummary(Run(Initial, steps[..|steps| - 1]), steps[|steps| - 1]);
    }
  }

  lemma NothingSeen()
    ensures Summarised(Run(Initial, []).db)
  {
  }

  // ---------------------------------------------------------------- what a commit records

  predicate Records(row: FindingRow, job: nat, finding: Finding, at: int) {
    row.job == job && row.finding == finding && row.createdAt == at
  }

  lemma {:induction false} FindingsRecorded(db: Db, job: nat, findings: seq<Finding>, stale: bool, now: Moment)
    requires job < |db.jobs|
    ensures
      var after := ApplyFindings(db, job, findings, stale, now).findings;
      && |after| == |db.findings| + |findings| && db.findings <= after
      && forall i :: 0 <= i < |findings| ==> Records(after[|db.findings| + i], job, findings[i], now.read)
  {
    if findings != [] {
      var rest, last := findings[..|findings| - 1], findings[|findings| - 1];
      FindingsRecorded(db, job, rest, stale, now);
      var before, after := ApplyFindings(db, job, rest, stale, now).findings, ApplyFindings(db, job, findings, stale, now).findings;
      assert after == before + [after[|before|]] && Records(after[|before|], job, last, now.read);
      forall i | 0 <= i < |findings|
        ensures Records(after[|db.findings| + i], job, findings[i], now.read)
      {
        assert i < |rest| ==> Records(before[|db.findings| + i], job, rest[i], now.read);
      }
    }
  }

  /**
   A commit completes its own job, as passed or failed, at the time its worker read before asking Git,
   and stores the scan's findings in order; no other job or row changes.
   */
  lemma CommitRecords(sys: System, timed: Timed)
    requires timed.step.Commit? && Enabled(sys, timed.step)
    ensures
      var p := sys.inFlight[timed.step.worker];
      var before, after := sys.db, Next(sys, timed).db;
      && |after.jobs| == |before.jobs|
      && (forall i :: 0 <= i < |before.jobs| && i != p.job ==> after.jobs[i] == before.jobs[i])
      && SameRow(before.jobs[p.job], after.jobs[p.job])
      && after.jobs[p.job].state == (if p.scan.passed then Passed else Failed)
      && after.jobs[p.job].completedAt == Some(p.read)
      && |after.findings| == |before.findings| + |p.scan.findings| && before.findings <= after.findings
      && forall i :: 0 <= i < |p.scan.findings| ==>
           Records(after.findings[|before.findings| + i], p.job, p.scan.findings[i], p.read)
  {
    hide ApplyFindings, CloseIn, AbsentFrom, DbAfter, JobsAfter, NewerScanCompleted;
    var p := sys.inFlight[timed.step.worker];
    var now := MomentOf(sys, timed);
    var db1 := sys.db.(jobs := Finish(sys.db.jobs, p.job, p.scan.passed, now));
    FindingsRecorded(db1, p.job, p.scan.findings, NewerScanCompleted(db1.jobs, p.job), now);
  }

  /** A step on the job table moves one unfinished job, or cancels the queued jobs of a group, or appends; nothing else in the database changes. */
  lemma JobStepsTouchJobs(sys: System, timed: Timed)
    requires timed.step.OnJobs? && Enabled(sys, timed.step)
    ensures
      var before, after, step := sys.db.jobs, Next(sys, timed).db.jobs, timed.step.step;
      && Next(sys, timed).db == sys.db.(jobs := after)
      && (step.Progress? ==>
            && step.job < |before| == |after|
            && !Completed(before[step.job]) && SameRow(before[step.job], after[step.job]) && after[step.job].state == step.state
            && after[step.job].completedAt
               == (if step.state in {Queued, Running} then before[step.job].completedAt else Some(MomentOf(sys, timed).read))
            && forall i :: 0 <= i < |before| && i != step.job ==> after[i] == before[i])
      && (step.CancelGroup? ==>
            && |after| == |before|
            && forall i :: 0 <= i < |before| ==>
                 if before[i].request.groupKey == step.group && before[i].state == Queued then after[i] == before[i].(state := Cancelled)
                 else after[i] == before[i])
      && (step.Enqueue? || step.Execute? ==> before <= after && |after| <= |before| + 1)
  {
  }

  /**
   Every step moves the clock by the time that passed. A snapshot remembers the time
   its worker read, a commit forgets its snapshot, and no other step touches either.
   */
  lemma StepsKeepTime(sys: System, timed: Timed)
    ensures
      var after := Next(sys, timed);
      && after.clock == sys.clock + timed.elapsed
      && (timed.step.Snapshot? && Enabled(sys, timed.step) ==>
            && after.db == sys.db
            && after.inFlight == sys.inFlight[timed.step.worker := after.inFlight[timed.step.worker]]
            && after.inFlight[timed.step.worker].read == sys.clock + timed.elapsed - timed.lag
            && after.inFlight[timed.step.worker].job == timed.step.job && after.inFlight[timed.step.worker].scan == timed.step.scan)
      && (timed.step.Commit? && Enabled(sys, timed.step) ==> after.inFlight == sys.inFlight - {timed.step.worker})
      && (timed.step.OnJobs? || timed.step.External? || !Enabled(sys, timed.step) ==> after.inFlight == sys.inFlight)
      && (!Enabled(sys, timed.step) ==> after.db == sys.db)
  {
    hide CommitScan, DbAfter, JobsAfter, AskGit;
  }
}
