/** What every transition of the lifecycle keeps. */
module LifecycleInvariants {
  import opened Wrappers
  import opened Decision
  import opened ScanJobs
  import opened Violations
  import opened AuditTrail

  function Detections(findings: seq<FindingRow>, f: Fingerprint): nat {
    if findings == [] then 0
    else Detections(findings[..|findings| - 1], f) + if findings[|findings| - 1].violation == Some(f) then 1 else 0
  }

  /** A row agrees with its replayed trail; an acknowledgement is stored with a time read before its event. */
  predicate Follows(v: Violation, life: Life) {
    && life.Seen? && life.status == v.status
    && (life.acknowledged.Some? <==> v.acknowledgedAt.Some?)
    && (v.acknowledgedAt.Some? ==> v.acknowledgedAt.value <= life.acknowledged.value)
  }

  predicate StatusRight(db: Db, f: Fingerprint)
    requires f in db.violations
  {
    db.violations[f].status == Open <==> Exposed(db.exposures, f)
  }

  /** Foreign keys hold, rows agree with their findings and their trail, trails are in time order. */
  ghost predicate RowsConsistent(db: Db, clock: int) {
    && WellFormed(db.jobs)
    && db.trail.Keys == db.violations.Keys
    && (forall p :: p in db.exposures ==> p.violation in db.violations)
    && (forall i :: 0 <= i < |db.findings| && db.findings[i].violation.Some? ==> db.findings[i].violation.value in db.violations)
    && (forall f :: f in db.violations ==> db.violations[f].detections == Detections(db.findings, f))
    && (forall f :: f in db.violations ==> TrailRight(db.violations[f], db.trail[f], clock))
  }

  ghost predicate TrailRight(v: Violation, trail: seq<Event>, clock: int) {
    && Replay(trail).Some? && Follows(v, Replay(trail).value)
    && InOrder(trail)
    && (forall i :: 0 <= i < |trail| ==> trail[i].at <= clock)
  }

  /** A violation is open exactly when it has an active exposure - for all but the named ones. */
  ghost predicate StatusesRightBut(db: Db, pending: set<Fingerprint>) {
    forall f :: f in db.violations && f !in pending ==> StatusRight(db, f)
  }

  ghost predicate Invariant(db: Db, clock: int) {
    RowsConsistent(db, clock) && StatusesRightBut(db, {})
  }

  lemma ExtendTrail(before: Violation, after: Violation, trail: seq<Event>, more: seq<Event>, clock: int, now: int)
    requires TrailRight(before, trail, clock) && clock <= now
    requires |more| <= 1 && forall e :: e in more ==> e.at == now
    requires
      var life := Replay(trail).value;
      if more == [] then Follows(after, life)
      else NextLife(life, more[0]).Some? && Follows(after, NextLife(life, more[0]).value)
    ensures TrailRight(after, trail + more, now)
  {
    hide Replay, NextLife, Follows;
    if more == [] {
      assert trail + more == trail;
    } else {
      assert more == [more[0]];
      ReplayAppend(trail, more[0]);
    }
  }

  lemma RefreshedRowRight(v: Violation, exposed: bool, trail: seq<Event>, clock: int, now: Moment)
    requires TrailRight(v, trail, clock) && clock <= now.at
    ensures TrailRight(RefreshedRow(v, exposed, now), trail + RefreshEvents(v, exposed, now), now.at)
    ensures RefreshedRow(v, exposed, now).status == Open <==> exposed
    ensures RefreshedRow(v, exposed, now).detections == v.detections
  {
    ExtendTrail(v, RefreshedRow(v, exposed, now), trail, RefreshEvents(v, exposed, now), clock, now.at);
  }

  /** `_refresh_statuses` repairs exactly the violations it is given. */
  lemma RefreshRepairs(db: Db, ids: set<Fingerprint>, clock: int, now: Moment)
    requires RowsConsistent(db, clock) && clock <= now.at && StatusesRightBut(db, ids)
    ensures Invariant(Refresh(db, ids, now), now.at)
  {
    hide WellFormed, Detections, TrailRight, Exposed, RefreshedRow, RefreshEvents;
    var after := Refresh(db, ids, now);
    forall f | f in db.violations
      ensures TrailRight(after.violations[f], after.trail[f], now.at)
      ensures after.violations[f].status == Open <==> Exposed(db.exposures, f)
      ensures after.violations[f].detections == db.violations[f].detections
    {
      if f in ids {
        RefreshedRowRight(db.violations[f], Exposed(db.exposures, f), db.trail[f], clock, now);
      } else {
        assert StatusRight(db, f);
        LaterClock(db.violations[f], db.trail[f], clock, now.at);
      }
    }
    assert after.jobs == db.jobs && after.exposures == db.exposures && after.findings == db.findings;
    assert forall f :: f in after.violations ==> StatusRight(after, f);
  }

  lemma LaterClock(v: Violation, trail: seq<Event>, clock: int, now: int)
    requires TrailRight(v, trail, clock) && clock <= now
    ensures TrailRight(v, trail, now)
  {
  }

  lemma NoFindingsYet(findings: seq<FindingRow>, f: Fingerprint)
    requires forall i :: 0 <= i < |findings| ==> findings[i].violation != Some(f)
    ensures Detections(findings, f) == 0
  {
  }

  lemma ActivateAllActive(exposures: ExposureTable, ids: set<Fingerprint>, group: GroupKey, job: Option<nat>, now: Moment)
    ensures forall p :: (ActiveAt(ActivateAll(exposures, ids, group, job, now), p)
                         <==> ActiveAt(exposures, p) || (p.group == group && p.violation in ids))
    ensures forall f :: Exposed(ActivateAll(exposures, ids, group, job, now), f) <==> Exposed(exposures, f) || f in ids
  {
    var after := ActivateAll(exposures, ids, group, job, now);
    forall p
      ensures ActiveAt(after, p) <==> ActiveAt(exposures, p) || (p.group == group && p.violation in ids)
    {
      if p.group == group && p.violation in ids {
        assert p == Place(p.violation, group);
      }
    }
    ExposedIffActive(exposures);
    ExposedIffActive(after);
    forall f | f in ids
      ensures Exposed(after, f)
    {
      assert ActiveAt(after, Place(f, group));
    }
  }

  lemma ExposedIffActive(exposures: ExposureTable)
    ensures forall p :: ActiveAt(exposures, p) ==> Exposed(exposures, p.violation)
    ensures forall f :: Exposed(exposures, f) ==> exists p :: ActiveAt(exposures, p) && p.violation == f
  {
    forall f | Exposed(exposures, f)
      ensures exists p :: ActiveAt(exposures, p) && p.violation == f
    {
      var p :| p in exposures && p.violation == f && exposures[p].active;
      assert ActiveAt(exposures, p);
    }
  }

  lemma CloseInActive(exposures: ExposureTable, ids: set<Fingerprint>, group: GroupKey, reason: ClosedReason, job: Option<nat>, now: Moment)
    ensures forall p :: (ActiveAt(CloseIn(exposures, ids, group, reason, job, now), p)
                         <==> ActiveAt(exposures, p) && !(p.group == group && p.violation in ids))
    ensures forall f :: f !in ids ==> (Exposed(CloseIn(exposures, ids, group, reason, job, now), f) <==> Exposed(exposures, f))
  {
    var after := CloseIn(exposures, ids, group, reason, job, now);
    ExposedIffActive(exposures);
    ExposedIffActive(after);
    forall p
      ensures ActiveAt(after, p) <==> ActiveAt(exposures, p) && !(p.group == group && p.violation in ids)
    {
    }
  }

  // ---------------------------------------------------------------- one finding, then all of them

  lemma UpsertedRowRight(
    violations: ViolationTable, trail: seq<Event>, job: nat, finding: Finding, stale: bool, clock: int, now: Moment)
    requires clock <= now.at
    requires if finding.fingerprint in violations then TrailRight(violations[finding.fingerprint], trail, clock) else trail == []
    ensures TrailRight(UpsertedRow(violations, job, finding, now, stale), trail + UpsertEvents(violations, finding, now, stale), now.at)
  {
    if finding.fingerprint in violations {
      ExtendTrail(violations[finding.fingerprint], UpsertedRow(violations, job, finding, now, stale), trail,
                  UpsertEvents(violations, finding, now, stale), clock, now.at);
    } else {
      assert trail + UpsertEvents(violations, finding, now, stale) == [Event(Opened, now.at)];
      ReplayAppend([], Event(Opened, now.at));
      assert [] + [Event(Opened, now.at)] == [Event(Opened, now.at)];
    }
  }

  lemma DetectionsAppend(findings: seq<FindingRow>, row: FindingRow, f: Fingerprint)
    ensures Detections(findings + [row], f) == Detections(findings, f) + if row.violation == Some(f) then 1 else 0
  {
    assert (findings + [row])[..|findings|] == findings;
  }

  lemma ApplyFindingCounts(db: Db, job: nat, finding: Finding, stale: bool, clock: int, now: Moment)
    requires job < |db.jobs| && RowsConsistent(db, clock)
    ensures
      var after := ApplyFinding(db, job, finding, stale, now);
      forall g :: g in after.violations ==> after.violations[g].detections == Detections(after.findings, g)
  {
    var after := ApplyFinding(db, job, finding, stale, now);
    forall g | g in after.violations
      ensures after.violations[g].detections == Detections(after.findings, g)
    {
      DetectionsAppend(db.findings, after.findings[|db.findings|], g);
      if g !in db.violations {
        NoFindingsYet(db.findings, g);
      }
    }
  }

  lemma ApplyFindingTrails(db: Db, job: nat, finding: Finding, stale: bool, clock: int, now: Moment)
    requires job < |db.jobs| && RowsConsistent(db, clock) && clock <= now.at
    ensures
      var after := ApplyFinding(db, job, finding, stale, now);
      && after.trail.Keys == after.violations.Keys
      && forall g :: g in after.violations ==> TrailRight(after.violations[g], after.trail[g], now.at)
  {
    var after := ApplyFinding(db, job, finding, stale, now);
    forall g | g in after.violations
      ensures TrailRight(after.violations[g], after.trail[g], now.at)
    {
      if IsTracked(finding) && g == finding.fingerprint {
        UpsertedRowRight(db.violations, Trail(db, g), job, finding, stale, clock, now);
      } else {
        LaterClock(db.violations[g], db.trail[g], clock, now.at);
      }
    }
  }

  lemma ApplyFindingRows(db: Db, job: nat, finding: Finding, stale: bool, clock: int, now: Moment)
    requires job < |db.jobs| && RowsConsistent(db, clock) && clock <= now.at
    ensures RowsConsistent(ApplyFinding(db, job, finding, stale, now), now.at)
  {
    hide WellFormed, Detections, TrailRight;
    var after := ApplyFinding(db, job, finding, stale, now);
    ApplyFindingCounts(db, job, finding, stale, clock, now);
    ApplyFindingTrails(db, job, finding, stale, clock, now);
    forall p | p in after.exposures
      ensures p.violation in after.violations
    {
    }
    forall i | 0 <= i < |after.findings| && after.findings[i].violation.Some?
      ensures after.findings[i].violation.value in after.violations
    {
      assert i < |db.findings| ==> after.findings[i] == db.findings[i];
    }
    assert after.jobs == db.jobs;
  }

  lemma ApplyFindingStatuses(db: Db, job: nat, finding: Finding, stale: bool, pending: set<Fingerprint>, now: Moment)
    requires job < |db.jobs| && StatusesRightBut(db, pending)
    requires IsTracked(finding) ==> finding.fingerprint in pending
    ensures StatusesRightBut(ApplyFinding(db, job, finding, stale, now), pending)
  {
    var after := ApplyFinding(db, job, finding, stale, now);
    if IsTracked(finding) && !stale {
      ActivateAllActive(db.exposures, {finding.fingerprint}, JobGroup(db.jobs[job]), Some(job), now);
    }
    forall g | g in after.violations && g !in pending
      ensures StatusRight(after, g)
    {
      assert StatusRight(db, g);
    }
  }

  lemma {:induction false} ApplyFindingsKeeps(
    db: Db, job: nat, findings: seq<Finding>, stale: bool, pending: set<Fingerprint>, clock: int, now: Moment)
    requires job < |db.jobs| && RowsConsistent(db, clock) && clock <= now.at && StatusesRightBut(db, pending)
    requires Tracked(findings) <= pending
    ensures RowsConsistent(ApplyFindings(db, job, findings, stale, now), now.at)
    ensures StatusesRightBut(ApplyFindings(db, job, findings, stale, now), pending)
  {
    if findings == [] {
      forall f | f in db.violations
        ensures TrailRight(db.violations[f], db.trail[f], now.at)
      {
      }
    } else {
      var rest, last := findings[..|findings| - 1], findings[|findings| - 1];
      assert forall x :: x in rest ==> x in findings;
      ApplyFindingsKeeps(db, job, rest, stale, pending, clock, now);
      ApplyFindingRows(ApplyFindings(db, job, rest, stale, now), job, last, stale, now.at, now);
      ApplyFindingStatuses(ApplyFindings(db, job, rest, stale, now), job, last, stale, pending, now);
    }
  }

  lemma FinishKeepsJobs(jobs: Jobs, job: nat, passed: bool, now: Moment)
    requires WellFormed(jobs) && job < |jobs|
    ensures WellFormed(Finish(jobs, job, passed, now)) && SameRows(jobs, Finish(jobs, job, passed, now))
  {
    ProgressKeepsTable(jobs, Finish(jobs, job, passed, now));
  }

  /** Completing a scan keeps the invariant, whatever the reachability answers were. */
  lemma CommitScanKeeps(db: Db, job: nat, scan: ScanResult, gone: set<Fingerprint>, clock: int, now: Moment)
    requires Invariant(db, clock) && clock <= now.at && job < |db.jobs|
    ensures Invariant(CommitScan(db, job, scan, gone, now), now.at)
  {
    hide WellFormed, Detections, TrailRight, ApplyFindings, AbsentFrom, Refresh, Exposed;
    var db1 := db.(jobs := Finish(db.jobs, job, scan.passed, now));
    FinishKeepsJobs(db.jobs, job, scan.passed, now);
    var stale := NewerScanCompleted(db1.jobs, job);
    var current := Tracked(scan.findings);
    ApplyFindingsKeeps(db1, job, scan.findings, stale, current, clock, now);
    var db2 := ApplyFindings(db1, job, scan.findings, stale, now);
    var group := JobGroup(db1.jobs[job]);
    var closed := if stale then {} else AbsentFrom(db2.exposures, group, current, gone);
    var reason := AbsentReason(db1.jobs[job]);
    CloseInActive(db2.exposures, closed, group, reason, Some(job), now);
    RefreshRepairs(db2.(exposures := CloseIn(db2.exposures, closed, group, reason, Some(job), now)), current + closed, now.at, now);
  }

  lemma ExposuresOnly(db: Db, exposures: ExposureTable, pending: set<Fingerprint>, clock: int)
    requires Invariant(db, clock)
    requires forall p :: p in exposures ==> p.violation in db.violations
    requires forall f :: f in db.violations && f !in pending ==> (Exposed(exposures, f) <==> Exposed(db.exposures, f))
    ensures RowsConsistent(db.(exposures := exposures), clock) && StatusesRightBut(db.(exposures := exposures), pending)
  {
    hide WellFormed, Detections, TrailRight, Exposed;
    var after := db.(exposures := exposures);
    forall f | f in after.violations && f !in pending
      ensures StatusRight(after, f)
    {
      assert StatusRight(db, f);
    }
  }

  lemma EndAndMoveKeeps(db: Db, group: GroupKey, reason: ClosedReason, branch: Option<string>, clock: int, now: Moment)
    requires Invariant(db, clock) && clock <= now.at
    ensures Invariant(EndAndMove(db, group, reason, branch, now), now.at)
  {
    hide WellFormed, Detections, TrailRight, Refresh, Exposed;
    var ids := ActiveIn(db.exposures, group);
    var ended := EndGroup(db, group, reason, now).exposures;
    CloseInActive(db.exposures, ids, group, reason, None, now);
    if branch.None? {
      ExposuresOnly(db, ended, ids, clock);
      RefreshRepairs(db.(exposures := ended), ids, clock, now);
    } else {
      var moved := ActivateAll(ended, ids, BranchGroup(branch.value), None, now);
      ActivateAllActive(ended, ids, BranchGroup(branch.value), None, now);
      ExposuresOnly(db, moved, ids, clock);
      RefreshRepairs(db.(exposures := moved), ids, clock, now);
    }
  }

  lemma ReopenedKeeps(db: Db, number: int, clock: int, now: Moment)
    requires Invariant(db, clock) && clock <= now.at
    ensures Invariant(PullRequestReopened(db, number, now), now.at)
  {
    hide WellFormed, Detections, TrailRight, Refresh;
    var ids := ClosedUnmergedIn(db.exposures, number);
    var restored := RestoredExposures(db.exposures, number, now);
    ExposedIffActive(db.exposures);
    ExposedIffActive(restored);
    assert forall p :: ActiveAt(restored, p) && p.violation !in ids ==> ActiveAt(db.exposures, p);
    assert forall p :: ActiveAt(db.exposures, p) ==> ActiveAt(restored, p);
    ExposuresOnly(db, restored, ids, clock);
    RefreshRepairs(db.(exposures := restored), ids, clock, now);
  }

  /** Changing one violation's acknowledgement, with the event that says so. */
  lemma AcknowledgementRowKeeps(db: Db, f: Fingerprint, at: Option<int>, event: Event, clock: int, now: int)
    requires Invariant(db, clock) && clock <= now && f in db.violations && event.at == now
    requires
      var life := Replay(db.trail[f]);
      life.Some? && NextLife(life.value, event).Some?
      && Follows(db.violations[f].(acknowledgedAt := at), NextLife(life.value, event).value)
    ensures Invariant(db.(violations := db.violations[f := db.violations[f].(acknowledgedAt := at)],
                          trail := db.trail[f := db.trail[f] + [event]]), now)
  {
    hide WellFormed, Detections, TrailRight, Exposed, NextLife, Follows;
    var after := db.(violations := db.violations[f := db.violations[f].(acknowledgedAt := at)],
                     trail := db.trail[f := db.trail[f] + [event]]);
    ForwardClock(db, clock, now);
    ExtendTrail(db.violations[f], after.violations[f], db.trail[f], [event], clock, now);
    forall g | g in after.violations
      ensures StatusRight(after, g)
    {
      assert StatusRight(db, g);
    }
  }

  lemma AcknowledgementFollows(v: Violation, trail: seq<Event>, clock: int, now: Moment)
    requires TrailRight(v, trail, clock) && now.read <= now.at
    ensures
      var life := Replay(trail);
      var given, removed := Event(Acknowledged, now.at), Event(AcknowledgementRemoved, now.at);
      && life.Some?
      && (v.status == Open ==> NextLife(life.value, given).Some?
                               && Follows(v.(acknowledgedAt := Some(now.read)), NextLife(life.value, given).value))
      && (v.acknowledgedAt.Some? ==> NextLife(life.value, removed).Some?
                                     && Follows(v.(acknowledgedAt := None), NextLife(life.value, removed).value))
  {
  }

  lemma AcknowledgeKeeps(db: Db, f: Fingerprint, clock: int, now: Moment)
    requires Invariant(db, clock) && clock <= now.at && now.read <= now.at
    ensures Acknowledge(db, f, now).Ok? ==> Invariant(Acknowledge(db, f, now).value, now.at)
    ensures RemoveAcknowledgement(db, f, now).Ok? ==> Invariant(RemoveAcknowledgement(db, f, now).value, now.at)
  {
    hide WellFormed, Detections, TrailRight, Exposed, StatusesRightBut, NextLife, Follows;
    if f in db.violations {
      AcknowledgementFollows(db.violations[f], db.trail[f], clock, now);
      if db.violations[f].status == Open {
        AcknowledgementRowKeeps(db, f, Some(now.read), Event(Acknowledged, now.at), clock, now.at);
      }
      if db.violations[f].acknowledgedAt.Some? {
        AcknowledgementRowKeeps(db, f, None, Event(AcknowledgementRemoved, now.at), clock, now.at);
      }
    }
  }

  lemma ForwardClock(db: Db, clock: int, now: int)
    requires Invariant(db, clock) && clock <= now
    ensures Invariant(db, now)
  {
    forall f | f in db.violations
      ensures TrailRight(db.violations[f], db.trail[f], now)
    {
    }
  }
}
