/**
 The recorder over its tables, updated in place. Every method is proved to move
 the abstract state by the transition of module Violations with the same name.
 */
module Recorder {
  import opened Wrappers
  import opened Decision
  import opened ScanJobs
  import opened Violations
  import opened ScanCompletion
  import opened ControlPlane

  datatype AuditRow = AuditRow(violation: Fingerprint, event: Event)

  /** The events of one violation, in the order they were inserted. */
  function History(audit: seq<AuditRow>, f: Fingerprint): seq<Event> {
    if audit == [] then []
    else
      var last := audit[|audit| - 1];
      History(audit[..|audit| - 1], f) + if last.violation == f then [last.event] else []
  }

  function Trails(violations: ViolationTable, audit: seq<AuditRow>): map<Fingerprint, seq<Event>> {
    map f | f in violations :: History(audit, f)
  }

  lemma HistoryAppend(audit: seq<AuditRow>, row: AuditRow, f: Fingerprint)
    ensures History(audit + [row], f) == History(audit, f) + if row.violation == f then [row.event] else []
  {
    assert (audit + [row])[..|audit|] == audit;
  }

  lemma {:induction false} HistoryConcat(a: seq<AuditRow>, b: seq<AuditRow>, f: Fingerprint)
    ensures History(a + b, f) == History(a, f) + History(b, f)
  {
    if b == [] {
      assert a + b == a;
    } else {
      var n := |b| - 1;
      assert a + b == (a + b[..n]) + [b[n]];
      assert b == b[..n] + [b[n]];
      HistoryConcat(a, b[..n], f);
      HistoryAppend(a + b[..n], b[n], f);
      HistoryAppend(b[..n], b[n], f);
    }
  }

  /** Events only ever name violations that exist. */
  ghost predicate Names(audit: seq<AuditRow>, violations: ViolationTable) {
    forall i :: 0 <= i < |audit| ==> audit[i].violation in violations
  }

  lemma {:induction false} NoHistory(audit: seq<AuditRow>, violations: ViolationTable, f: Fingerprint)
    requires Names(audit, violations) && f !in violations
    ensures History(audit, f) == []
  {
    if audit != [] {
      NoHistory(audit[..|audit| - 1], violations, f);
    }
  }

  function RefreshedTable(violations: ViolationTable, exposures: ExposureTable, ids: set<Fingerprint>, now: Moment): ViolationTable {
    map f | f in violations ::
      if f in ids then RefreshedRow(violations[f], Exposed(exposures, f), now) else violations[f]
  }

  function EventsOfRefresh(violations: ViolationTable, exposures: ExposureTable, ids: set<Fingerprint>, now: Moment, f: Fingerprint): seq<Event> {
    if f in violations && f in ids then RefreshEvents(violations[f], Exposed(exposures, f), now) else []
  }

  lemma HistoryAfterUpsert(audit: seq<AuditRow>, more: seq<AuditRow>, f: Fingerprint, g: Fingerprint)
    requires |more| <= 1 && forall e :: e in more ==> e.violation == f
    ensures History(audit + more, g) == if more != [] && g == f then History(audit, g) + [more[0].event] else History(audit, g)
  {
    if more == [] {
      assert audit + more == audit;
    } else {
      assert more == [more[0]];
      HistoryAppend(audit, more[0], g);
      assert History(audit, g) + [] == History(audit, g);
    }
  }

  lemma NamesAfterUpsert(before: ViolationTable, after: ViolationTable, audit: seq<AuditRow>, more: seq<AuditRow>, f: Fingerprint)
    requires Names(audit, before) && after.Keys == before.Keys + {f}
    requires forall e :: e in more ==> e.violation == f
    ensures Names(audit + more, after)
  {
    forall i | 0 <= i < |audit + more|
      ensures (audit + more)[i].violation in after
    {
      assert i >= |audit| ==> (audit + more)[i] in more;
    }
  }

  /** At most one event of one violation joins the trails. */
  lemma TrailsAfterUpsert(before: ViolationTable, after: ViolationTable, audit: seq<AuditRow>, more: seq<AuditRow>, f: Fingerprint)
    requires after.Keys == before.Keys + {f} && (f !in before ==> History(audit, f) == [])
    requires |more| <= 1 && forall e :: e in more ==> e.violation == f
    ensures
      var trail := if f in before then Trails(before, audit)[f] else [];
      Trails(after, audit + more) == Trails(before, audit)[f := trail + if more == [] then [] else [more[0].event]]
  {
    hide History;
    var trail := if f in before then Trails(before, audit)[f] else [];
    var left := Trails(after, audit + more);
    var right := Trails(before, audit)[f := trail + if more == [] then [] else [more[0].event]];
    assert trail == History(audit, f) && trail + [] == trail;
    forall g | g in after
      ensures left[g] == right[g]
    {
      HistoryAfterUpsert(audit, more, f, g);
    }
    assert left.Keys == right.Keys;
    assert left == right;
  }

  /** Inserting the events of a refresh extends exactly the refreshed trails. */
  lemma RefreshInserted(db: Db, ids: set<Fingerprint>, now: Moment, audit: seq<AuditRow>, events: seq<AuditRow>)
    requires db.trail == Trails(db.violations, audit)
    requires forall f :: f in db.violations ==> History(events, f) == EventsOfRefresh(db.violations, db.exposures, ids, now, f)
    ensures
      var table := RefreshedTable(db.violations, db.exposures, ids, now);
      db.(violations := table, trail := Trails(table, audit + events)) == Refresh(db, ids, now)
  {
    forall f | f in db.violations
      ensures History(audit + events, f) == History(audit, f) + EventsOfRefresh(db.violations, db.exposures, ids, now, f)
      ensures History(audit, f) + [] == History(audit, f)
    {
      HistoryConcat(audit, events, f);
    }
    var table := RefreshedTable(db.violations, db.exposures, ids, now);
    assert table == Refresh(db, ids, now).violations;
    assert Trails(table, audit + events) == Refresh(db, ids, now).trail;
  }

  lemma ActivateOneMore(exposures: ExposureTable, done: set<Fingerprint>, f: Fingerprint, group: GroupKey, job: Option<nat>, now: Moment)
    requires f !in done
    ensures
      var part := ActivateAll(exposures, done, group, job, now);
      part[Place(f, group) := ActivatedRow(part, Place(f, group), job, now)] == ActivateAll(exposures, done + {f}, group, job, now)
  {
    var places := set g | g in done :: Place(g, group);
    assert (set g | g in done + {f} :: Place(g, group)) == places + {Place(f, group)};
    assert Place(f, group) !in places;
  }

  lemma RefreshOneMore(violations: ViolationTable, exposures: ExposureTable, done: set<Fingerprint>, f: Fingerprint, now: Moment)
    requires f in violations && f !in done
    ensures RefreshedTable(violations, exposures, done, now)[f] == violations[f]
    ensures RefreshedTable(violations, exposures, done, now)[f := RefreshedRow(violations[f], Exposed(exposures, f), now)]
         == RefreshedTable(violations, exposures, done + {f}, now)
  {
  }

  lemma RefreshNoMore(violations: ViolationTable, exposures: ExposureTable, done: set<Fingerprint>, f: Fingerprint, now: Moment)
    requires f !in violations
    ensures forall events :: RefreshEventsRight(violations, exposures, done, now, events)
                             ==> RefreshEventsRight(violations, exposures, done + {f}, now, events)
    ensures RefreshedTable(violations, exposures, done, now) == RefreshedTable(violations, exposures, done + {f}, now)
  {
  }

  ghost predicate RefreshEventsRight(
    violations: ViolationTable, exposures: ExposureTable, ids: set<Fingerprint>, now: Moment, events: seq<AuditRow>)
  {
    && Names(events, violations)
    && forall f :: f in violations ==> History(events, f) == EventsOfRefresh(violations, exposures, ids, now, f)
  }

  lemma EventsOneMore(
    violations: ViolationTable, exposures: ExposureTable, done: set<Fingerprint>, f: Fingerprint, now: Moment,
    events: seq<AuditRow>, more: seq<AuditRow>)
    requires f in violations && f !in done
    requires RefreshEventsRight(violations, exposures, done, now, events)
    requires more == if RefreshEvents(violations[f], Exposed(exposures, f), now) == [] then []
                     else [AuditRow(f, RefreshEvents(violations[f], Exposed(exposures, f), now)[0])]
    ensures RefreshEventsRight(violations, exposures, done + {f}, now, events + more)
  {
    hide History, RefreshEvents, Exposed;
    AtMostOneEvent(violations[f], Exposed(exposures, f), now);
    forall g | g in violations
      ensures History(events + more, g) == EventsOfRefresh(violations, exposures, done + {f}, now, g)
    {
      HistoryAfterUpsert(events, more, f, g);
      assert [] + RefreshEvents(violations[f], Exposed(exposures, f), now) == RefreshEvents(violations[f], Exposed(exposures, f), now);
    }
  }

  lemma AtMostOneEvent(v: Violation, exposed: bool, now: Moment)
    ensures RefreshEvents(v, exposed, now) == [] || RefreshEvents(v, exposed, now) == [RefreshEvents(v, exposed, now)[0]]
  {
  }

  lemma MoveOne<T>(done: set<T>, todo: set<T>, x: T)
    requires x in todo && done !! todo
    ensures done + {x} !! todo - {x} && (done + {x}) + (todo - {x}) == done + todo && |done + {x}| == |done| + 1
  {
  }

  lemma ActiveAreKnown(exposures: ExposureTable, violations: ViolationTable, group: GroupKey)
    requires forall p :: p in exposures ==> p.violation in violations
    ensures ActiveIn(exposures, group) <= violations.Keys
  {
  }

  lemma GoneIff(db: Db, job: nat, current: set<Fingerprint>, rows: set<Fingerprint>, git: Git)
    requires job < |db.jobs| && rows <= db.violations.Keys
    ensures forall f :: f in Unreachable(db, job, current, rows, git) <==>
      && f in rows && f !in current
      && db.violations[f].commit != "" && git(db.violations[f].commit, db.jobs[job].request.headSha) == NotAncestor
  {
  }

  lemma UnreachableNone(db: Db, job: nat, current: set<Fingerprint>, git: Git)
    requires job < |db.jobs|
    ensures Unreachable(db, job, current, {}, git) == {}
  {
  }

  lemma UnreachableOneMore(db: Db, job: nat, current: set<Fingerprint>, rows: set<Fingerprint>, f: Fingerprint, git: Git)
    requires job < |db.jobs| && rows + {f} <= db.violations.Keys
    ensures
      Unreachable(db, job, current, rows + {f}, git)
      == Unreachable(db, job, current, rows, git)
         + if f !in current && db.violations[f].commit != "" && git(db.violations[f].commit, db.jobs[job].request.headSha) == NotAncestor
           then {f} else {}
  {
  }

  lemma CloseOneMore(
    exposures: ExposureTable, done: set<Fingerprint>, f: Fingerprint, group: GroupKey, reason: ClosedReason, job: Option<nat>, now: Moment)
    requires f !in done && f in ActiveIn(exposures, group)
    ensures Place(f, group) in exposures
    ensures
      var part := CloseIn(exposures, done, group, reason, job, now);
      part[Place(f, group)] == exposures[Place(f, group)]
      && part[Place(f, group) := ClosedRow(part[Place(f, group)], reason, job, now)] == CloseIn(exposures, done + {f}, group, reason, job, now)
  {
    hide ClosedRow;
  }

  class ScanResultRecorder {
    var jobs: Jobs
    var violations: ViolationTable
    var exposures: ExposureTable
    var findings: seq<FindingRow>
    var audit: seq<AuditRow>

    ghost predicate Valid()
      reads this
    {
      Names(audit, violations) && forall p :: p in exposures ==> p.violation in violations
    }

    ghost function State(): Db
      reads this
    {
      Db(jobs, violations, exposures, findings, Trails(violations, audit))
    }

    constructor ()
      ensures Valid() && State() == Initial.db
    {
      jobs, violations, exposures, findings, audit := [], map[], map[], [], [];
    }

    // -------------------------------------------------------------- scan completion

    /** Ask Git, before any transaction, which active branch exposures are gone. */
    method UnreachableBranchExposures(job: nat, scan: ScanResult, repository: bool, git: Git)
      returns (gone: set<Fingerprint>, rows: set<Fingerprint>)
      requires Valid() && job < |jobs|
      ensures rows <= violations.Keys && RowsRead(State(), JobGroup(jobs[job]), rows)
      ensures gone == AskGit(State(), job, scan, rows, repository, git)
      ensures forall f :: f in gone <==>
        && repository && JobGroup(jobs[job]).BranchGroup? && f in rows && f !in Tracked(scan.findings)
        && violations[f].commit != "" && git(violations[f].commit, jobs[job].request.headSha) == NotAncestor
    {
      hide Trails, History, Exposed, Unreachable, Tracked, ActiveIn, JobGroup;
      var group := JobGroup(jobs[job]);
      var current := Tracked(scan.findings);
      var todo := ActiveIn(exposures, group);
      gone, rows := {}, {};
      var read := 0;
      UnreachableNone(State(), job, current, git);
      ActiveAreKnown(exposures, violations, group);
      ghost var all := todo;
      while todo != {} && read < REACHABILITY_LIMIT
        invariant rows !! todo && rows + todo == all
        invariant |rows| == read <= REACHABILITY_LIMIT
        invariant gone == Unreachable(State(), job, current, rows, git)
        decreases todo
      {
        var f :| f in todo;
        UnreachableOneMore(State(), job, current, rows, f, git);
        if f !in current && violations[f].commit != "" && git(violations[f].commit, jobs[job].request.headSha) == NotAncestor {
          gone := gone + {f};
        }
        MoveOne(rows, todo, f);
        todo, rows, read := todo - {f}, rows + {f}, read + 1;
      }
      GoneIff(State(), job, current, rows, git);
      if !group.BranchGroup? || !repository {
        gone := {};
      }
    }

    /** Insert the violation or count the new detection; report an opening or reopening. */
    method UpsertViolation(job: nat, finding: Finding, now: Moment, stale: bool) returns (events: seq<AuditRow>)
      requires Valid()
      modifies this`violations
      ensures violations == old(violations)[finding.fingerprint := UpsertedRow(old(violations), job, finding, now, stale)]
      ensures |events| <= 1 && forall e :: e in events ==> e.violation == finding.fingerprint
      ensures UpsertEvents(old(violations), finding, now, stale) == if events == [] then [] else [events[0].event]
    {
      var f := finding.fingerprint;
      if f !in violations {
        violations := violations[f := NewViolation(job, finding, now)];
        return [AuditRow(f, Event(Opened, now.at))];
      }
      var reopen := violations[f].status == Resolved && !stale;
      violations := violations[f := DetectedAgain(violations[f], job, finding, now)];
      if !reopen {
        return [];
      }
      violations := violations[f := Reopen(violations[f])];
      return [AuditRow(f, Event(Reopened, now.at))];
    }

    /** Insert or reactivate one exposure per violation. */
    method ActivateExposures(ids: set<Fingerprint>, group: GroupKey, job: Option<nat>, now: Moment)
      requires Valid() && ids <= violations.Keys
      modifies this`exposures
      ensures Valid() && exposures == ActivateAll(old(exposures), ids, group, job, now)
    {
      var todo := ids;
      ghost var done: set<Fingerprint> := {};
      assert ActivateAll(exposures, {}, group, job, now) == exposures;
      while todo != {}
        invariant done !! todo && done + todo == ids
        invariant exposures == ActivateAll(old(exposures), done, group, job, now)
        decreases todo
      {
        var f :| f in todo;
        var place := Place(f, group);
        ActivateOneMore(old(exposures), done, f, group, job, now);
        exposures := exposures[place := ActivatedRow(exposures, place, job, now)];
        todo, done := todo - {f}, done + {f};
      }
      assert done == ids;
    }

    /** Close the active exposures of the named violations in a group, one row at a time. */
    method CloseExposures(ids: set<Fingerprint>, group: GroupKey, reason: ClosedReason, job: Option<nat>, now: Moment)
      requires Valid() && ids <= ActiveIn(exposures, group)
      modifies this`exposures
      ensures Valid() && exposures == CloseIn(old(exposures), ids, group, reason, job, now)
    {
      hide ClosedRow;
      var todo := ids;
      ghost var done: set<Fingerprint> := {};
      assert CloseIn(exposures, {}, group, reason, job, now) == exposures;
      while todo != {}
        invariant done !! todo && done + todo == ids
        invariant exposures == CloseIn(old(exposures), done, group, reason, job, now)
        decreases todo
      {
        var f :| f in todo;
        var place := Place(f, group);
        CloseOneMore(old(exposures), done, f, group, reason, job, now);
        exposures := exposures[place := ClosedRow(exposures[place], reason, job, now)];
        todo, done := todo - {f}, done + {f};
      }
      assert done == ids;
    }

    /** The exposures a completed scan ends: absent, and in a pull request or known to be gone. */
    method AbsentExposures(group: GroupKey, current: set<Fingerprint>, gone: set<Fingerprint>) returns (closed: set<Fingerprint>)
      ensures closed == AbsentFrom(exposures, group, current, gone)
    {
      var todo := ActiveIn(exposures, group);
      ghost var done: set<Fingerprint> := {};
      closed := {};
      while todo != {}
        invariant done !! todo && done + todo == ActiveIn(exposures, group)
        invariant closed == set f | f in done && f !in current && (group.PullRequestGroup? || f in gone)
        decreases todo
      {
        var f :| f in todo;
        if f !in current && (group.PullRequestGroup? || f in gone) {
          closed := closed + {f};
        }
        todo, done := todo - {f}, done + {f};
      }
    }

    /** Resolve or reopen the named violations according to their exposures. */
    method RefreshStatuses(ids: set<Fingerprint>, now: Moment) returns (events: seq<AuditRow>)
      modifies this`violations
      ensures violations == RefreshedTable(old(violations), exposures, ids, now)
      ensures Names(events, violations)
      ensures forall f :: f in violations ==> History(events, f) == EventsOfRefresh(old(violations), exposures, ids, now, f)
    {
      hide RefreshEvents, Exposed, RefreshedRow;
      var todo := ids;
      ghost var known, done: set<Fingerprint> := violations, {};
      events := [];
      assert violations == RefreshedTable(violations, exposures, {}, now);
      while todo != {}
        invariant done !! todo && done + todo == ids
        invariant violations == RefreshedTable(known, exposures, done, now)
        invariant RefreshEventsRight(known, exposures, done, now, events)
        decreases todo
      {
        var f :| f in todo;
        if f in violations {
          RefreshOneMore(known, exposures, done, f, now);
          var more := RefreshStatus(f, now);
          EventsOneMore(known, exposures, done, f, now, events, more);
          events := events + more;
        } else {
          RefreshNoMore(known, exposures, done, f, now);
        }
        todo, done := todo - {f}, done + {f};
      }
      assert done == ids;
    }

    /** One turn of the refresh loop. */
    method RefreshStatus(f: Fingerprint, now: Moment) returns (events: seq<AuditRow>)
      requires f in violations
      modifies this`violations
      ensures violations == old(violations)[f := RefreshedRow(old(violations)[f], Exposed(exposures, f), now)]
      ensures events == if RefreshEvents(old(violations)[f], Exposed(exposures, f), now) == [] then []
                        else [AuditRow(f, RefreshEvents(old(violations)[f], Exposed(exposures, f), now)[0])]
    {
      var exposed := Exposed(exposures, f);
      if !exposed && violations[f].status == Open {
        violations := violations[f := violations[f].(status := Resolved, resolvedAt := Some(now.read))];
        return [AuditRow(f, Event(ResolvedEvent, now.at))];
      } else if exposed && violations[f].status == Resolved {
        violations := violations[f := Reopen(violations[f])];
        return [AuditRow(f, Event(Reopened, now.at))];
      }
      assert violations[f := violations[f]] == violations;
      return [];
    }

    /** The state once the events still to be inserted are in the audit table. */
    ghost function StateWith(pending: seq<AuditRow>): Db
      reads this
    {
      Db(jobs, violations, exposures, findings, Trails(violations, audit + pending))
    }

    ghost predicate ValidWith(pending: seq<AuditRow>)
      reads this
    {
      Valid() && Names(pending, violations)
    }

    /** Upsert the violation of a tracked finding and expose it. */
    method TrackFinding(job: nat, finding: Finding, stale: bool, now: Moment, pending: seq<AuditRow>) returns (events: seq<AuditRow>)
      requires ValidWith(pending) && job < |jobs|
      modifies this`violations, this`exposures
      ensures ValidWith(events)
      ensures StateWith(events) == Violations.TrackFinding(old(StateWith(pending)), job, finding, stale, now)
    {
      var f := finding.fingerprint;
      ghost var known := violations;
      var more := UpsertViolation(job, finding, now, stale);
      events := pending + more;
      assert audit + events == (audit + pending) + more;
      NamesAfterUpsert(known, violations, pending, more, f);
      NamesAfterUpsert(known, violations, audit, [], f);
      if f !in known {
        NoHistory(audit, known, f);
        NoHistory(pending, known, f);
        HistoryConcat(audit, pending, f);
      }
      TrailsAfterUpsert(known, violations, audit + pending, more, f);
      if !stale {
        ActivateExposures({f}, JobGroup(jobs[job]), Some(job), now);
      }
    }

    /** One finding: track its violation if its action is tracked, and store the finding. */
    method RecordFinding(job: nat, finding: Finding, stale: bool, now: Moment, pending: seq<AuditRow>) returns (events: seq<AuditRow>)
      requires ValidWith(pending) && job < |jobs|
      modifies this`violations, this`exposures, this`findings
      ensures ValidWith(events)
      ensures StateWith(events) == ApplyFinding(old(StateWith(pending)), job, finding, stale, now)
      ensures old(findings) <= findings
    {
      var violation: Option<Fingerprint> := None;
      events := pending;
      if IsTracked(finding) {
        violation := Some(finding.fingerprint);
        events := TrackFinding(job, finding, stale, now, pending);
      }
      findings := findings + [FindingRow(job, violation, finding, now.read)];
    }

    /** The loop over a scan's findings. */
    method RecordFindings(job: nat, found: seq<Finding>, stale: bool, now: Moment)
      returns (touched: set<Fingerprint>, events: seq<AuditRow>)
      requires Valid() && job < |jobs|
      modifies this`violations, this`exposures, this`findings
      ensures ValidWith(events)
      ensures StateWith(events) == ApplyFindings(old(State()), job, found, stale, now)
      ensures touched == Tracked(found)
      ensures old(findings) <= findings
    {
      touched, events := {}, [];
      assert audit + [] == audit;
      for i := 0 to |found|
        invariant ValidWith(events)
        invariant StateWith(events) == ApplyFindings(old(State()), job, found[..i], stale, now)
        invariant touched == Tracked(found[..i])
        invariant old(findings) <= findings
      {
        assert found[..i + 1] == found[..i] + [found[i]] && found[..i + 1][..i] == found[..i];
        TrackedAppend(found[..i], found[i]);
        events := RecordFinding(job, found[i], stale, now, events);
        if IsTracked(found[i]) {
          touched := touched + {found[i].fingerprint};
        }
      }
      assert found[..|found|] == found;
    }

    /** Refresh the touched violations and insert all events of the transaction. */
    method RefreshAndInsert(ids: set<Fingerprint>, pending: seq<AuditRow>, now: Moment)
      requires ValidWith(pending)
      modifies this`violations, this`audit
      ensures Valid() && State() == Refresh(old(StateWith(pending)), ids, now)
      ensures old(audit) <= audit
    {
      ghost var before := StateWith(pending);
      var events := RefreshStatuses(ids, now);
      RefreshInserted(before, ids, now, audit + pending, events);
      audit := (audit + pending) + events;
    }

    /** The transaction of `record_completed`. */
    method CommitScan(job: nat, scan: ScanResult, gone: set<Fingerprint>, now: Moment)
      requires Valid() && job < |jobs|
      modifies this
      ensures Valid() && State() == Violations.CommitScan(old(State()), job, scan, gone, now)
      ensures old(audit) <= audit && old(findings) <= findings
    {
      hide CloseIn, Refresh, Trails, NewerScanCompleted, Tracked, JobGroup;
      jobs := Finish(jobs, job, scan.passed, now);
      var stale := NewerScanCompleted(jobs, job);
      var group := JobGroup(jobs[job]);
      var touched, events := RecordFindings(job, scan.findings, stale, now);
      var closed: set<Fingerprint> := {};
      if !stale {
        closed := AbsentExposures(group, Tracked(scan.findings), gone);
      }
      CloseExposures(closed, group, AbsentReason(jobs[job]), Some(job), now);
      RefreshAndInsert(touched + closed, events, now);
    }

    /** `record_completed`: ask Git first, then commit in one transaction. */
    method RecordCompleted(job: nat, scan: ScanResult, repository: bool, git: Git, now: Moment) returns (ghost rows: set<Fingerprint>)
      requires Valid() && job < |jobs|
      modifies this
      ensures Valid() && rows <= old(violations).Keys && RowsRead(old(State()), JobGroup(old(jobs)[job]), rows)
      ensures State() == Violations.CommitScan(old(State()), job, scan, AskGit(old(State()), job, scan, rows, repository, git), now)
      ensures old(audit) <= audit && old(findings) <= findings
    {
      var gone;
      gone, rows := UnreachableBranchExposures(job, scan, repository, git);
      CommitScan(job, scan, gone, now);
    }

    // -------------------------------------------------------------- GitHub lifecycle events

    /** End a group's exposures, move them to a branch if given, refresh. */
    method EndAndMove(group: GroupKey, reason: ClosedReason, branch: Option<string>, now: Moment)
      requires Valid()
      modifies this`violations, this`exposures, this`audit
      ensures Valid() && State() == Violations.EndAndMove(old(State()), group, reason, branch, now)
      ensures old(audit) <= audit
    {
      hide Trails, Refresh;
      var ids := ActiveIn(exposures, group);
      CloseExposures(ids, group, reason, None, now);
      if branch.Some? {
        ActivateExposures(ids, BranchGroup(branch.value), None, now);
      }
      assert audit + [] == audit;
      RefreshAndInsert(ids, [], now);
    }

    method PullRequestClosed(number: int, merged: bool, baseRef: string, now: Moment)
      requires Valid()
      modifies this`violations, this`exposures, this`audit
      ensures Valid() && State() == Violations.PullRequestClosed(old(State()), number, merged, baseRef, now)
      ensures old(audit) <= audit
    {
      var reason := if merged then MergedInto(number, baseRef) else ClosedUnmerged(number);
      EndAndMove(PullRequestGroup(number), reason, if merged && baseRef != "" then Some(baseRef) else None, now);
    }

    method MergeGroupDestroyed(head: string, reason: string, baseRef: string, now: Moment)
      requires Valid()
      modifies this`violations, this`exposures, this`audit
      ensures Valid() && State() == Violations.MergeGroupDestroyed(old(State()), head, reason, baseRef, now)
      ensures old(audit) <= audit
    {
      var merged := reason == MERGED;
      var text := if merged then MergeGroupMerged(head, baseRef) else MergeGroupGone(head, reason);
      EndAndMove(MergeGroup(head), text, if merged then Some(baseRef) else None, now);
    }

    method BranchDeleted(ref: string, now: Moment)
      requires Valid()
      modifies this`violations, this`exposures, this`audit
      ensures Valid() && State() == Violations.BranchDeleted(old(State()), ref, now)
      ensures old(audit) <= audit
    {
      EndAndMove(BranchGroup(ref), BranchDeletedReason(ref), None, now);
    }

    method PullRequestReopened(number: int, now: Moment)
      requires Valid()
      modifies this`violations, this`exposures, this`audit
      ensures Valid() && State() == Violations.PullRequestReopened(old(State()), number, now)
      ensures old(audit) <= audit
    {
      hide Trails, Refresh, Exposed;
      var ids := ClosedUnmergedIn(exposures, number);
      var todo := exposures.Keys;
      ghost var done: set<Place> := {};
      while todo != {}
        invariant done !! todo && done + todo == old(exposures).Keys == exposures.Keys
        invariant forall p :: p in done ==> exposures[p] == RestoredExposures(old(exposures), number, now)[p]
        invariant forall p :: p in todo ==> exposures[p] == old(exposures)[p]
        modifies this`exposures
        decreases todo
      {
        var p :| p in todo;
        if ClosedUnmergedAt(exposures, p, number) {
          exposures := exposures[p := exposures[p].(active := true, closedAt := None, closedReason := None, openedAt := now.read)];
        }
        todo, done := todo - {p}, done + {p};
      }
      assert exposures == RestoredExposures(old(exposures), number, now);
      assert audit + [] == audit;
      RefreshAndInsert(ids, [], now);
    }

    // -------------------------------------------------------------- dashboard commands

    method AcknowledgeViolation(f: Fingerprint, now: Moment) returns (error: Option<CommandError>)
      requires Valid()
      modifies this`violations, this`audit
      ensures Valid() && old(audit) <= audit
      ensures error.None? ==> Acknowledge(old(State()), f, now) == Ok(State())
      ensures error.Some? ==> Acknowledge(old(State()), f, now) == Err(error.value) && State() == old(State())
    {
      if f !in violations {
        return Some(NotFound);
      }
      if violations[f].status != Open {
        return Some(Conflict);
      }
      TrailsAfterUpsert(violations, violations[f := violations[f].(acknowledgedAt := Some(now.read))], audit,
                        [AuditRow(f, Event(Acknowledged, now.at))], f);
      violations := violations[f := violations[f].(acknowledgedAt := Some(now.read))];
      audit := audit + [AuditRow(f, Event(Acknowledged, now.at))];
      return None;
    }

    method Unacknowledge(f: Fingerprint, now: Moment) returns (error: Option<CommandError>)
      requires Valid()
      modifies this`violations, this`audit
      ensures Valid() && old(audit) <= audit
      ensures error.None? ==> RemoveAcknowledgement(old(State()), f, now) == Ok(State())
      ensures error.Some? ==> RemoveAcknowledgement(old(State()), f, now) == Err(error.value) && State() == old(State())
    {
      if f !in violations {
        return Some(NotFound);
      }
      if violations[f].acknowledgedAt.None? {
        return Some(Conflict);
      }
      TrailsAfterUpsert(violations, violations[f := violations[f].(acknowledgedAt := None)], audit,
                        [AuditRow(f, Event(AcknowledgementRemoved, now.at))], f);
      violations := violations[f := violations[f].(acknowledgedAt := None)];
      audit := audit + [AuditRow(f, Event(AcknowledgementRemoved, now.at))];
      return None;
    }
  }
}
