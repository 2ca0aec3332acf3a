/** What completing one scan does to the exposures, in closed form. */
module ScanCompletion {
  import opened Wrappers
  import opened Decision
  import opened ScanJobs
  import opened Violations
  import opened AuditTrail
  import opened LifecycleInvariants

  /** Finishing a job does not change which newer scans of its group have completed. */
  lemma FinishKeepsNewer(jobs: Jobs, job: nat, passed: bool, now: Moment)
    requires job < |jobs|
    ensures NewerScanCompleted(Finish(jobs, job, passed, now), job) == NewerScanCompleted(jobs, job)
  {
    var after := Finish(jobs, job, passed, now);
    forall t | job < t < |jobs|
      ensures after[t] == jobs[t]
    {
    }
  }

  lemma {:induction false} ApplyFindingsActive(db: Db, job: nat, findings: seq<Finding>, stale: bool, now: Moment)
    requires job < |db.jobs|
    ensures stale ==> ApplyFindings(db, job, findings, stale, now).exposures == db.exposures
    ensures !stale ==> forall p :: (ActiveAt(ApplyFindings(db, job, findings, stale, now).exposures, p)
                                    <==> ActiveAt(db.exposures, p) || (p.group == JobGroup(db.jobs[job]) && p.violation in Tracked(findings)))
  {
    if findings != [] {
      var rest, last := findings[..|findings| - 1], findings[|findings| - 1];
      ApplyFindingsActive(db, job, rest, stale, now);
      var before := ApplyFindings(db, job, rest, stale, now);
      ActivateAllActive(before.exposures, {last.fingerprint}, JobGroup(before.jobs[job]), Some(job), now);
      TrackedAppend(rest, last);
      assert rest + [last] == findings;
    }
  }

  lemma TrackedAppend(findings: seq<Finding>, last: Finding)
    ensures Tracked(findings + [last]) == Tracked(findings) + if IsTracked(last) then {last.fingerprint} else {}
  {
    var all := findings + [last];
    assert last in all && forall f :: f in findings ==> f in all;
    assert forall f :: f in all ==> f in findings || f == last;
  }

  /**
   Where violations are active after a scan completed. A stale scan and other
   groups change nothing. Otherwise everything the scan found is active in its
   group; what it did not find stays only in a branch or merge group, and there
   only if its commit was not shown to be gone.
   */
  lemma CommitScanActive(db: Db, job: nat, scan: ScanResult, gone: set<Fingerprint>, now: Moment)
    requires job < |db.jobs|
    ensures
      var group := JobGroup(db.jobs[job]);
      forall p :: (ActiveAt(CommitScan(db, job, scan, gone, now).exposures, p) <==>
                   if NewerScanCompleted(db.jobs, job) || p.group != group then ActiveAt(db.exposures, p)
                   else p.violation in Tracked(scan.findings)
                        || (ActiveAt(db.exposures, p) && !group.PullRequestGroup? && p.violation !in gone))
  {
    hide ApplyFindings, CloseIn;
    var db1 := db.(jobs := Finish(db.jobs, job, scan.passed, now));
    FinishKeepsNewer(db.jobs, job, scan.passed, now);
    var stale := NewerScanCompleted(db1.jobs, job);
    ApplyFindingsActive(db1, job, scan.findings, stale, now);
    var db2 := ApplyFindings(db1, job, scan.findings, stale, now);
    var group := JobGroup(db1.jobs[job]);
    var closed := if stale then {} else AbsentFrom(db2.exposures, group, Tracked(scan.findings), gone);
    CloseInActive(db2.exposures, closed, group, AbsentReason(db1.jobs[job]), Some(job), now);
    forall p | ActiveAt(db2.exposures, p) && p.group == group
      ensures p.violation in ActiveIn(db2.exposures, group)
    {
    }
  }

  /** Everything but the bookkeeping of having been seen again. */
  predicate SameStanding(a: Violation, b: Violation) {
    a.status == b.status && a.acknowledgedAt == b.acknowledgedAt && a.resolvedAt == b.resolvedAt
    && a.commit == b.commit && a.rule == b.rule && a.firstDetectedAt == b.firstDetectedAt && a.firstJob == b.firstJob
  }

  /** `after` knows what `before` knew, and `added` besides, freshly opened. */
  ghost predicate OnlyAdds(before: Db, after: Db, added: set<Fingerprint>, now: Moment) {
    && after.violations.Keys == before.violations.Keys + added == after.trail.Keys
    && (forall f :: f in before.violations ==>
          f in before.trail && SameStanding(before.violations[f], after.violations[f]) && after.trail[f] == before.trail[f])
    && (forall f :: f in after.violations && f !in before.violations ==>
          after.violations[f].status == Open && after.trail[f] == [Event(Opened, now.at)])
  }

  lemma StaleFinding(db: Db, job: nat, finding: Finding, now: Moment)
    requires job < |db.jobs| && db.trail.Keys == db.violations.Keys
    ensures OnlyAdds(db, ApplyFinding(db, job, finding, true, now), Tracked([finding]), now)
  {
    var f := finding.fingerprint;
    TrackedAppend([], finding);
    assert [] + [finding] == [finding];
    assert Trail(db, f) + [] == Trail(db, f) && [] + [Event(Opened, now.at)] == [Event(Opened, now.at)];
  }

  lemma OnlyAddsTwice(a: Db, b: Db, c: Db, some: set<Fingerprint>, more: set<Fingerprint>, now: Moment)
    requires OnlyAdds(a, b, some, now) && OnlyAdds(b, c, more, now)
    ensures OnlyAdds(a, c, some + more, now)
  {
  }

  lemma NothingAdded(db: Db, now: Moment)
    requires db.trail.Keys == db.violations.Keys
    ensures OnlyAdds(db, db, Tracked([]), now)
  {
  }

  lemma KnownKeys(before: Db, after: Db, added: set<Fingerprint>, now: Moment)
    requires OnlyAdds(before, after, added, now)
    ensures after.trail.Keys == after.violations.Keys
  {
  }

  lemma TrackedOne(findings: seq<Finding>, last: Finding)
    ensures Tracked(findings + [last]) == Tracked(findings) + Tracked([last])
  {
    TrackedAppend(findings, last);
    TrackedAppend([], last);
    assert [] + [last] == [last];
  }

  lemma {:induction false} StaleFindings(db: Db, job: nat, findings: seq<Finding>, now: Moment)
    requires job < |db.jobs| && db.trail.Keys == db.violations.Keys
    ensures OnlyAdds(db, ApplyFindings(db, job, findings, true, now), Tracked(findings), now)
  {
    hide ApplyFinding, OnlyAdds, Tracked;
    if findings == [] {
      NothingAdded(db, now);
    } else {
      var rest, last := findings[..|findings| - 1], findings[|findings| - 1];
      StaleFindings(db, job, rest, now);
      var before := ApplyFindings(db, job, rest, true, now);
      KnownKeys(db, before, Tracked(rest), now);
      StaleFinding(before, job, last, now);
      OnlyAddsTwice(db, before, ApplyFindings(db, job, findings, true, now), Tracked(rest), Tracked([last]), now);
      TrackedOne(rest, last);
      assert rest + [last] == findings;
    }
  }

  /** A stale commit is the findings loop and a refresh of what it touched. */
  lemma StaleCommit(db: Db, job: nat, scan: ScanResult, gone: set<Fingerprint>, now: Moment)
    requires job < |db.jobs| && NewerScanCompleted(db.jobs, job)
    ensures
      CommitScan(db, job, scan, gone, now)
      == Refresh(ApplyFindings(db.(jobs := Finish(db.jobs, job, scan.passed, now)), job, scan.findings, true, now),
                 Tracked(scan.findings), now)
  {
    var db1 := db.(jobs := Finish(db.jobs, job, scan.passed, now));
    FinishKeepsNewer(db.jobs, job, scan.passed, now);
    var db2 := ApplyFindings(db1, job, scan.findings, true, now);
    assert CloseIn(db2.exposures, {}, JobGroup(db1.jobs[job]), AbsentReason(db1.jobs[job]), Some(job), now) == db2.exposures;
    assert Tracked(scan.findings) + {} == Tracked(scan.findings);
  }

  /**
   A stale scan is history only: no exposure changes, no known violation changes
   its standing or its trail, and a violation seen for the first time is recorded
   as opened and resolved at once.
   */
  lemma StaleScanIsHistory(db: Db, job: nat, scan: ScanResult, gone: set<Fingerprint>, clock: int, now: Moment)
    requires Invariant(db, clock) && job < |db.jobs| && NewerScanCompleted(db.jobs, job)
    ensures CommitScan(db, job, scan, gone, now).exposures == db.exposures
    ensures CommitScan(db, job, scan, gone, now).violations.Keys == db.violations.Keys + Tracked(scan.findings)
    ensures
      var after := CommitScan(db, job, scan, gone, now);
      forall f :: f in db.violations ==> SameStanding(db.violations[f], after.violations[f]) && after.trail[f] == db.trail[f]
    ensures
      var after := CommitScan(db, job, scan, gone, now);
      forall f :: f in after.violations && f !in db.violations ==>
        after.violations[f].status == Resolved && after.trail[f] == [Event(Opened, now.at), Event(ResolvedEvent, now.at)]
  {
    StaleCommit(db, job, scan, gone, now);
    var db1 := db.(jobs := Finish(db.jobs, job, scan.passed, now));
    ApplyFindingsActive(db1, job, scan.findings, true, now);
    StaleFindings(db1, job, scan.findings, now);
    var db2 := ApplyFindings(db1, job, scan.findings, true, now);
    RefreshAfterStale(db, db2, Tracked(scan.findings), now);
  }

  lemma RightRowStays(known: Violation, seen: Violation, exposed: bool, now: Moment)
    requires SameStanding(known, seen) && (known.status == Open <==> exposed)
    ensures SameStanding(known, RefreshedRow(seen, exposed, now)) && RefreshEvents(seen, exposed, now) == []
  {
  }

  lemma OpenedIsResolved(v: Violation, now: Moment)
    requires v.status == Open
    ensures RefreshedRow(v, false, now).status == Resolved && RefreshEvents(v, false, now) == [Event(ResolvedEvent, now.at)]
  {
  }

  lemma NotExposed(exposures: ExposureTable, violations: ViolationTable, f: Fingerprint)
    requires f !in violations && forall p :: p in exposures ==> p.violation in violations
    ensures !Exposed(exposures, f)
  {
  }

  lemma RefreshAfterStale(db: Db, db2: Db, tracked: set<Fingerprint>, now: Moment)
    requires StatusesRightBut(db, {}) && db.trail.Keys == db.violations.Keys
    requires forall p :: p in db.exposures ==> p.violation in db.violations
    requires db2.exposures == db.exposures
    requires db2.violations.Keys == db.violations.Keys + tracked == db2.trail.Keys
    requires forall f :: f in db.violations ==> SameStanding(db.violations[f], db2.violations[f]) && db2.trail[f] == db.trail[f]
    requires forall f :: f in db2.violations && f !in db.violations ==> db2.violations[f].status == Open && db2.trail[f] == [Event(Opened, now.at)]
    ensures
      var after := Refresh(db2, tracked, now);
      forall f :: f in db.violations ==> SameStanding(db.violations[f], after.violations[f]) && after.trail[f] == db.trail[f]
    ensures
      var after := Refresh(db2, tracked, now);
      forall f :: f in after.violations && f !in db.violations ==>
        after.violations[f].status == Resolved && after.trail[f] == [Event(Opened, now.at), Event(ResolvedEvent, now.at)]
  {
    hide Exposed, SameStanding, RefreshedRow, RefreshEvents;
    var after := Refresh(db2, tracked, now);
    forall f | f in db.violations
      ensures SameStanding(db.violations[f], after.violations[f]) && after.trail[f] == db.trail[f]
    {
      assert StatusRight(db, f);
      RightRowStays(db.violations[f], db2.violations[f], Exposed(db.exposures, f), now);
      assert db2.trail[f] + [] == db2.trail[f];
    }
    forall f | f in after.violations && f !in db.violations
      ensures after.violations[f].status == Resolved && after.trail[f] == [Event(Opened, now.at), Event(ResolvedEvent, now.at)]
    {
      NotExposed(db.exposures, db.violations, f);
      OpenedIsResolved(db2.violations[f], now);
      assert [Event(Opened, now.at)] + [Event(ResolvedEvent, now.at)] == [Event(Opened, now.at), Event(ResolvedEvent, now.at)];
    }
  }
}
