/** Merging moves violations without losing one; closing and reopening gives them back. */
module MergeAndReopen {
  import opened Wrappers
  import opened Decision
  import opened ScanJobs
  import opened Violations
  import opened AuditTrail
  import opened LifecycleInvariants
  import opened ScanCompletion
  import opened ScanOrder

  predicate SameStatuses(a: Db, b: Db) {
    && a.violations.Keys == b.violations.Keys
    && forall f :: f in a.violations ==> b.violations[f] == a.violations[f] && Trail(b, f) == Trail(a, f)
  }

  /** A refresh of violations whose exposure agrees with their status does nothing. */
  lemma RefreshIdle(db: Db, ids: set<Fingerprint>, now: Moment)
    requires forall f :: f in db.violations && f in ids ==> StatusRight(db, f)
    ensures SameStatuses(db, Refresh(db, ids, now))
  {
    forall f | f in db.violations
      ensures Trail(Refresh(db, ids, now), f) == Trail(db, f)
    {
      assert Trail(db, f) + [] == Trail(db, f);
    }
  }

  /** Ending a group and moving it to a branch keeps every violation exposed somewhere. */
  lemma MovingConserves(db: Db, group: GroupKey, reason: ClosedReason, branch: string, clock: int, now: Moment)
    requires Invariant(db, clock) && !group.BranchGroup?
    ensures
      var after := EndAndMove(db, group, reason, Some(branch), now);
      && SameStatuses(db, after)
      && ActiveIn(after.exposures, group) == {}
      && ActiveIn(after.exposures, BranchGroup(branch)) == ActiveIn(db.exposures, BranchGroup(branch)) + ActiveIn(db.exposures, group)
      && forall f :: Exposed(after.exposures, f) <==> Exposed(db.exposures, f)
  {
    var ids := ActiveIn(db.exposures, group);
    var after := EndAndMove(db, group, reason, Some(branch), now);
    EndAndMoveActive(db, group, reason, Some(branch), now);
    MovedStillExposed(db.exposures, after.exposures, group, branch);
    var moved := EndGroup(db, group, reason, now);
    moved := moved.(exposures := ActivateAll(moved.exposures, ids, BranchGroup(branch), None, now));
    assert moved.exposures == after.exposures && moved.violations == db.violations;
    forall f | f in db.violations
      ensures StatusRight(moved, f)
    {
      assert StatusRight(db, f);
    }
    RefreshIdle(moved, ids, now);
    forall f | f in db.violations
      ensures Trail(moved, f) == Trail(db, f)
    {
    }
    MovedSets(db.exposures, after.exposures, group, branch);
  }

  ghost predicate Moved(a: ExposureTable, b: ExposureTable, group: GroupKey, branch: string) {
    forall p :: (ActiveAt(b, p) <==> (ActiveAt(a, p) && p.group != group)
                                     || (p.group == BranchGroup(branch) && p.violation in ActiveIn(a, group)))
  }

  lemma MovedStillExposed(a: ExposureTable, b: ExposureTable, group: GroupKey, branch: string)
    requires Moved(a, b, group, branch)
    ensures forall f :: Exposed(b, f) <==> Exposed(a, f)
  {
    ExposedIffActive(a);
    ExposedIffActive(b);
    forall f | Exposed(a, f)
      ensures Exposed(b, f)
    {
      var p :| ActiveAt(a, p) && p.violation == f;
      if p.group == group {
        assert f in ActiveIn(a, group);
        assert ActiveAt(b, Place(f, BranchGroup(branch)));
      } else {
        assert ActiveAt(b, p);
      }
    }
    forall f | Exposed(b, f)
      ensures Exposed(a, f)
    {
      var p :| ActiveAt(b, p) && p.violation == f;
      if !(ActiveAt(a, p) && p.group != group) {
        InActiveIn(a, group, f);
        assert ActiveAt(a, Place(f, group));
      }
    }
  }

  lemma MovedSets(a: ExposureTable, b: ExposureTable, group: GroupKey, branch: string)
    requires Moved(a, b, group, branch) && group != BranchGroup(branch)
    ensures ActiveIn(b, group) == {}
    ensures ActiveIn(b, BranchGroup(branch)) == ActiveIn(a, BranchGroup(branch)) + ActiveIn(a, group)
  {
    forall f
      ensures f !in ActiveIn(b, group)
      ensures f in ActiveIn(b, BranchGroup(branch)) <==> f in ActiveIn(a, BranchGroup(branch)) + ActiveIn(a, group)
    {
      InActiveIn(b, group, f);
      InActiveIn(b, BranchGroup(branch), f);
      InActiveIn(a, BranchGroup(branch), f);
      assert ActiveAt(b, Place(f, group)) <==> false;
      assert ActiveAt(b, Place(f, BranchGroup(branch))) <==> ActiveAt(a, Place(f, BranchGroup(branch))) || f in ActiveIn(a, group);
    }
  }

  /**
   A merged pull request with a base branch conserves violations: no violation
   row or trail changes, and its exposures are on the base branch afterwards.
   */
  lemma MergedPullRequestConserves(db: Db, number: int, baseRef: string, clock: int, now: Moment)
    requires Invariant(db, clock) && baseRef != ""
    ensures
      var after := PullRequestClosed(db, number, true, baseRef, now);
      && SameStatuses(db, after)
      && ActiveIn(after.exposures, PullRequestGroup(number)) == {}
      && ActiveIn(after.exposures, BranchGroup(baseRef))
         == ActiveIn(db.exposures, BranchGroup(baseRef)) + ActiveIn(db.exposures, PullRequestGroup(number))
  {
    MovingConserves(db, PullRequestGroup(number), MergedInto(number, baseRef), baseRef, clock, now);
  }

  lemma MergedMergeGroupConserves(db: Db, head: string, baseRef: string, clock: int, now: Moment)
    requires Invariant(db, clock)
    ensures
      var after := MergeGroupDestroyed(db, head, MERGED, baseRef, now);
      && SameStatuses(db, after)
      && ActiveIn(after.exposures, MergeGroup(head)) == {}
      && ActiveIn(after.exposures, BranchGroup(baseRef))
         == ActiveIn(db.exposures, BranchGroup(baseRef)) + ActiveIn(db.exposures, MergeGroup(head))
  {
    MovingConserves(db, MergeGroup(head), MergeGroupMerged(head, baseRef), baseRef, clock, now);
  }

  // ---------------------------------------------------------------- close, then reopen

  function CloseThenReopen(db: Db, number: int, t1: Moment, t2: Moment): Db {
    PullRequestReopened(PullRequestClosed(db, number, false, "", t1), number, t2)
  }

  /** Closing makes every active exposure of the pull request selectable for reopening. */
  lemma ClosingMarks(db: Db, number: int, now: Moment)
    ensures
      var closed := PullRequestClosed(db, number, false, "", now);
      forall p :: (ClosedUnmergedAt(closed.exposures, p, number) <==>
                   ClosedUnmergedAt(db.exposures, p, number) || (p.group == PullRequestGroup(number) && ActiveAt(db.exposures, p)))
  {
    var closed := PullRequestClosed(db, number, false, "", now);
    forall p
      ensures ClosedUnmergedAt(closed.exposures, p, number) <==>
              ClosedUnmergedAt(db.exposures, p, number) || (p.group == PullRequestGroup(number) && ActiveAt(db.exposures, p))
    {
      if p.group == PullRequestGroup(number) && ActiveAt(db.exposures, p) {
        assert p.violation in ActiveIn(db.exposures, PullRequestGroup(number));
      }
    }
  }

  /** Where violations are active after closing unmerged and reopening. */
  lemma CloseThenReopenActive(db: Db, number: int, t1: Moment, t2: Moment)
    ensures forall p :: (ActiveAt(CloseThenReopen(db, number, t1, t2).exposures, p)
                         <==> ActiveAt(db.exposures, p) || ClosedUnmergedAt(db.exposures, p, number))
  {
    var closed := PullRequestClosed(db, number, false, "", t1);
    ClosingMarks(db, number, t1);
    EndAndMoveActive(db, PullRequestGroup(number), ClosedUnmerged(number), None, t1);
    var restored := RestoredExposures(closed.exposures, number, t2);
    assert CloseThenReopen(db, number, t1, t2).exposures == restored;
    forall p
      ensures ActiveAt(restored, p) <==> ActiveAt(closed.exposures, p) || ClosedUnmergedAt(closed.exposures, p, number)
    {
    }
  }

  /**
   Closing without merging and reopening restores the pull request's active
   exposures if and only if no exposure of it was left closed by an earlier
   close: the selection goes by closed reason only.
   */
  lemma ReopeningRestoresIff(db: Db, number: int, t1: Moment, t2: Moment)
    ensures ActiveIn(CloseThenReopen(db, number, t1, t2).exposures, PullRequestGroup(number)) == ActiveIn(db.exposures, PullRequestGroup(number))
      <==> ClosedUnmergedIn(db.exposures, number) == {}
  {
    var after := CloseThenReopen(db, number, t1, t2);
    var group := PullRequestGroup(number);
    CloseThenReopenActive(db, number, t1, t2);
    if ClosedUnmergedIn(db.exposures, number) == {} {
      NoneLeft(db.exposures, number);
      ActiveInAfter(after.exposures, db.exposures, group);
    } else {
      var f :| f in ClosedUnmergedIn(db.exposures, number);
      var p :| p in db.exposures && ClosedUnmergedAt(db.exposures, p, number) && p.violation == f;
      assert ActiveAt(after.exposures, p) && !ActiveAt(db.exposures, p) && p == Place(f, group);
      InActiveIn(after.exposures, group, f);
      InActiveIn(db.exposures, group, f);
    }
  }

  /** Then every status is back too. */
  lemma ReopeningRestoresStatuses(db: Db, number: int, clock: int, t1: Moment, t2: Moment, f: Fingerprint)
    requires Invariant(db, clock) && clock <= t1.at <= t2.at && ClosedUnmergedIn(db.exposures, number) == {}
    requires f in db.violations
    ensures f in CloseThenReopen(db, number, t1, t2).violations
    ensures CloseThenReopen(db, number, t1, t2).violations[f].status == db.violations[f].status
  {
    var closed := PullRequestClosed(db, number, false, "", t1);
    var after := CloseThenReopen(db, number, t1, t2);
    EndAndMoveKeeps(db, PullRequestGroup(number), ClosedUnmerged(number), None, clock, t1);
    ReopenedKeeps(closed, number, t1.at, t2);
    CloseThenReopenActive(db, number, t1, t2);
    NoneLeft(db.exposures, number);
    SameActiveSameExposed(db.exposures, after.exposures);
    StatusFollows(db, after, f, clock, t2.at);
  }

  /** A violation the close did not resolve is untouched; one it did resolve loses its acknowledgement. */
  lemma ReopeningAndAcknowledgements(db: Db, number: int, clock: int, t1: Moment, t2: Moment, f: Fingerprint)
    requires Invariant(db, clock) && clock <= t1.at <= t2.at && ClosedUnmergedIn(db.exposures, number) == {}
    requires f in db.violations
    ensures
      var closed := PullRequestClosed(db, number, false, "", t1);
      var after := CloseThenReopen(db, number, t1, t2);
      && f in closed.violations && f in after.violations
      && (closed.violations[f].status == db.violations[f].status ==> after.violations[f] == db.violations[f])
      && (closed.violations[f].status != db.violations[f].status ==> after.violations[f].acknowledgedAt == None)
  {
    ReopeningRestoresStatuses(db, number, clock, t1, t2, f);
    var closed := PullRequestClosed(db, number, false, "", t1);
    RowChangesWithStatus(EndGroup(db, PullRequestGroup(number), ClosedUnmerged(number), t1),
                         ActiveIn(db.exposures, PullRequestGroup(number)), t1, f);
    RowChangesWithStatus(closed.(exposures := RestoredExposures(closed.exposures, number, t2)),
                         ClosedUnmergedIn(closed.exposures, number), t2, f);
  }

  /** A refresh changes a row only together with its status, and reopening drops the acknowledgement. */
  lemma RowChangesWithStatus(db: Db, ids: set<Fingerprint>, now: Moment, f: Fingerprint)
    requires f in db.violations
    ensures
      var before, after := db.violations[f], Refresh(db, ids, now).violations[f];
      && (after.status == before.status ==> after == before)
      && (after.status != before.status && after.status == Open ==> after.acknowledgedAt == None)
  {
  }

  lemma MarkedIsSelected(exposures: ExposureTable, number: int, p: Place)
    requires ClosedUnmergedAt(exposures, p, number)
    ensures p.violation in ClosedUnmergedIn(exposures, number)
  {
  }

  lemma NoneLeft(exposures: ExposureTable, number: int)
    requires ClosedUnmergedIn(exposures, number) == {}
    ensures forall p :: !ClosedUnmergedAt(exposures, p, number)
  {
    forall p | ClosedUnmergedAt(exposures, p, number)
      ensures p.violation in ClosedUnmergedIn(exposures, number)
    {
      MarkedIsSelected(exposures, number, p);
    }
  }

  lemma SameActiveSameExposed(a: ExposureTable, b: ExposureTable)
    requires forall p :: ActiveAt(a, p) <==> ActiveAt(b, p)
    ensures forall f :: Exposed(a, f) <==> Exposed(b, f)
  {
    ExposedIffActive(a);
    ExposedIffActive(b);
    forall f
      ensures Exposed(a, f) <==> Exposed(b, f)
    {
      if Exposed(a, f) {
        var p :| ActiveAt(a, p) && p.violation == f;
        assert ActiveAt(b, p);
      }
      if Exposed(b, f) {
        var p :| ActiveAt(b, p) && p.violation == f;
        assert ActiveAt(a, p);
      }
    }
  }

  lemma StatusFollows(a: Db, b: Db, f: Fingerprint, ta: int, tb: int)
    requires Invariant(a, ta) && Invariant(b, tb) && f in a.violations && f in b.violations
    requires Exposed(a.exposures, f) <==> Exposed(b.exposures, f)
    ensures a.violations[f].status == b.violations[f].status
  {
    assert StatusRight(a, f) && StatusRight(b, f);
  }

  // ---------------------------------------------------------------- what the selection by reason brings back

  lemma {:induction false} FindingsKeepMark(db: Db, job: nat, findings: seq<Finding>, stale: bool, now: Moment, p: Place, number: int)
    requires job < |db.jobs| && ClosedUnmergedAt(db.exposures, p, number) && p.violation !in Tracked(findings)
    ensures ClosedUnmergedAt(ApplyFindings(db, job, findings, stale, now).exposures, p, number)
  {
    if findings != [] {
      var rest, last := findings[..|findings| - 1], findings[|findings| - 1];
      TrackedAppend(rest, last);
      assert rest + [last] == findings;
      FindingsKeepMark(db, job, rest, stale, now, p, number);
    }
  }

  /** A later scan that no longer finds the violation leaves the mark of the earlier close. */
  lemma ScanKeepsMark(db: Db, job: nat, scan: ScanResult, gone: set<Fingerprint>, now: Moment, p: Place, number: int)
    requires job < |db.jobs| && ClosedUnmergedAt(db.exposures, p, number) && p.violation !in Tracked(scan.findings)
    ensures ClosedUnmergedAt(CommitScan(db, job, scan, gone, now).exposures, p, number)
  {
    var db1 := db.(jobs := Finish(db.jobs, job, scan.passed, now));
    FindingsKeepMark(db1, job, scan.findings, NewerScanCompleted(db1.jobs, job), now, p, number);
  }

  /**
   Close a pull request, scan it again without the violation's commit, close and
   reopen it: the violation is active again although the newest scan lacks it.
   */
  lemma DroppedViolationReturns(
    db: Db, number: int, f: Fingerprint, job: nat, scan: ScanResult, gone: set<Fingerprint>, t1: Moment, t2: Moment, t3: Moment, t4: Moment)
    requires f in ActiveIn(db.exposures, PullRequestGroup(number))
    requires job < |db.jobs| && JobGroup(db.jobs[job]) == PullRequestGroup(number) && !NewerScanCompleted(db.jobs, job)
    requires f !in Tracked(scan.findings)
    ensures
      var rescanned := CommitScan(PullRequestClosed(db, number, false, "", t1), job, scan, gone, t2);
      && f !in ActiveIn(rescanned.exposures, PullRequestGroup(number))
      && f in ActiveIn(CloseThenReopen(rescanned, number, t3, t4).exposures, PullRequestGroup(number))
  {
    var group := PullRequestGroup(number);
    var p := Place(f, group);
    InActiveIn(db.exposures, group, f);
    ClosingMarks(db, number, t1);
    var closed := PullRequestClosed(db, number, false, "", t1);
    ScanKeepsMark(closed, job, scan, gone, t2, p, number);
    var rescanned := CommitScan(closed, job, scan, gone, t2);
    InActiveIn(rescanned.exposures, group, f);
    CloseThenReopenActive(rescanned, number, t3, t4);
    InActiveIn(CloseThenReopen(rescanned, number, t3, t4).exposures, group, f);
  }
}
