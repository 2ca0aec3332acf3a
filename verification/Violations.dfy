/**
 The violation lifecycle as transitions between database states.

 One repository's rows of the tables `violations`, `violation_exposures`,
 `findings`, `scan_jobs` and `audit_events`. A violation is named by its
 fingerprint, which is unique in a repository. The audit trail is kept per
 violation: within one transaction the order of events of different violations
 follows random identifiers and carries no information.
 */
module Violations {
  import opened Wrappers
  import opened Decision
  import opened ScanJobs

  type Fingerprint = string

  /**
   The clock as an operation sees it: `read` before its transaction, stored in
   rows, and `at` inside the transaction, when audit events are built.
   */
  datatype Moment = Moment(read: int, at: int)

  datatype Status = Open | Resolved

  datatype Violation = Violation(
    rule: string,
    commit: string,
    action: Action,
    status: Status,
    firstDetectedAt: int,
    lastDetectedAt: int,
    firstJob: nat,
    lastJob: nat,
    detections: nat,
    acknowledgedAt: Option<int>,
    resolvedAt: Option<int>)

  /** Where a violation was seen; the primary key of `violation_exposures`. */
  datatype Place = Place(violation: Fingerprint, group: GroupKey)

  datatype ClosedReason =
    | ClosedUnmerged(number: int)
    | MergedInto(number: int, base: string)
    | LeftPullRequest(number: int, head: string)
    | NotReachable(ref: string, head: string)
    | MergeGroupMerged(head: string, base: string)
    | MergeGroupGone(head: string, reason: string)
    | BranchDeletedReason(ref: string)

  datatype Exposure = Exposure(
    active: bool,
    firstJob: Option<nat>,
    lastJob: Option<nat>,
    openedAt: int,
    closedAt: Option<int>,
    closedReason: Option<ClosedReason>)

  datatype Finding = Finding(fingerprint: Fingerprint, rule: string, commit: string, action: Action)

  datatype FindingRow = FindingRow(job: nat, violation: Option<Fingerprint>, finding: Finding, createdAt: int)

  datatype EventKind = Opened | Reopened | ResolvedEvent | Acknowledged | AcknowledgementRemoved
  datatype Event = Event(kind: EventKind, at: int)

  type ViolationTable = map<Fingerprint, Violation>
  type ExposureTable = map<Place, Exposure>

  datatype Db = Db(
    jobs: Jobs,
    violations: ViolationTable,
    exposures: ExposureTable,
    findings: seq<FindingRow>,
    trail: map<Fingerprint, seq<Event>>)

  datatype ScanResult = ScanResult(findings: seq<Finding>, passed: bool)

  // ---------------------------------------------------------------- reading

  predicate IsTracked(finding: Finding) {
    finding.action == Block || finding.action == Warn
  }

  function Tracked(findings: seq<Finding>): set<Fingerprint> {
    set f | f in findings && IsTracked(f) :: f.fingerprint
  }

  predicate ActiveAt(exposures: ExposureTable, place: Place) {
    place in exposures && exposures[place].active
  }

  /** At least one active exposure: the violation is present somewhere. */
  predicate Exposed(exposures: ExposureTable, f: Fingerprint) {
    exists p :: p in exposures && p.violation == f && exposures[p].active
  }

  /** The violations actively exposed in a group. */
  function ActiveIn(exposures: ExposureTable, group: GroupKey): set<Fingerprint> {
    set p | p in exposures && p.group == group && exposures[p].active :: p.violation
  }

  /** Another scan of the same group with a greater sequence has completed. */
  predicate NewerScanCompleted(jobs: Jobs, job: nat)
    requires job < |jobs|
  {
    exists t :: job < t < |jobs| && jobs[t].request.groupKey == jobs[job].request.groupKey && Completed(jobs[t])
  }

  // ---------------------------------------------------------------- row updates

  function DetectedAgain(v: Violation, job: nat, finding: Finding, now: Moment): Violation {
    v.(lastDetectedAt := now.read, lastJob := job, detections := v.detections + 1, action := finding.action)
  }

  function Reopen(v: Violation): Violation {
    v.(status := Open, resolvedAt := None, acknowledgedAt := None)
  }

  function NewViolation(job: nat, finding: Finding, now: Moment): Violation {
    Violation(finding.rule, finding.commit, finding.action, Open, now.read, now.read, job, job, 1, None, None)
  }

  function UpsertedRow(violations: ViolationTable, job: nat, finding: Finding, now: Moment, stale: bool): Violation {
    if finding.fingerprint !in violations then NewViolation(job, finding, now)
    else
      var v := DetectedAgain(violations[finding.fingerprint], job, finding, now);
      if v.status == Resolved && !stale then Reopen(v) else v
  }

  function UpsertEvents(violations: ViolationTable, finding: Finding, now: Moment, stale: bool): seq<Event> {
    if finding.fingerprint !in violations then [Event(Opened, now.at)]
    else if violations[finding.fingerprint].status == Resolved && !stale then [Event(Reopened, now.at)]
    else []
  }

  function ActivatedRow(exposures: ExposureTable, place: Place, job: Option<nat>, now: Moment): Exposure {
    if place !in exposures then Exposure(true, job, job, now.read, None, None)
    else
      var e := exposures[place];
      e.(active := true, lastJob := if job.Some? then job else e.lastJob,
         openedAt := if e.active then e.openedAt else now.read, closedAt := None, closedReason := None)
  }

  function ActivateAll(exposures: ExposureTable, ids: set<Fingerprint>, group: GroupKey, job: Option<nat>, now: Moment): ExposureTable {
    var places := set f | f in ids :: Place(f, group);
    map p | p in exposures.Keys + places ::
      if p in places then ActivatedRow(exposures, p, job, now) else exposures[p]
  }

  function ClosedRow(e: Exposure, reason: ClosedReason, job: Option<nat>, now: Moment): Exposure {
    e.(active := false, closedAt := Some(now.read), closedReason := Some(reason),
       lastJob := if job.Some? then job else e.lastJob)
  }

  function CloseIn(
    exposures: ExposureTable, ids: set<Fingerprint>, group: GroupKey, reason: ClosedReason, job: Option<nat>, now: Moment)
    : ExposureTable
  {
    map p | p in exposures ::
      if p.group == group && p.violation in ids && exposures[p].active then ClosedRow(exposures[p], reason, job, now)
      else exposures[p]
  }

  function RefreshedRow(v: Violation, exposed: bool, now: Moment): Violation {
    if !exposed && v.status == Open then v.(status := Resolved, resolvedAt := Some(now.read))
    else if exposed && v.status == Resolved then Reopen(v)
    else v
  }

  function RefreshEvents(v: Violation, exposed: bool, now: Moment): seq<Event> {
    if !exposed && v.status == Open then [Event(ResolvedEvent, now.at)]
    else if exposed && v.status == Resolved then [Event(Reopened, now.at)]
    else []
  }

  /** `_refresh_statuses`: recompute the status of the named violations from their exposures. */
  function Refresh(db: Db, ids: set<Fingerprint>, now: Moment): Db {
    db.(violations := map f | f in db.violations ::
          if f in ids then RefreshedRow(db.violations[f], Exposed(db.exposures, f), now) else db.violations[f],
        trail := map f | f in db.violations ::
          if f in ids then Trail(db, f) + RefreshEvents(db.violations[f], Exposed(db.exposures, f), now) else Trail(db, f))
  }

  function Trail(db: Db, f: Fingerprint): seq<Event> {
    if f in db.trail then db.trail[f] else []
  }

  // ---------------------------------------------------------------- scan completion

  /** Upsert the violation of a tracked finding and, unless the scan is stale, expose it. */
  function TrackFinding(db: Db, job: nat, finding: Finding, stale: bool, now: Moment): Db
    requires job < |db.jobs|
  {
    var f := finding.fingerprint;
    db.(violations := db.violations[f := UpsertedRow(db.violations, job, finding, now, stale)],
        trail := db.trail[f := Trail(db, f) + UpsertEvents(db.violations, finding, now, stale)],
        exposures := if stale then db.exposures
                     else ActivateAll(db.exposures, {f}, JobGroup(db.jobs[job]), Some(job), now))
  }

  /** One turn of the loop over a scan's findings. */
  function ApplyFinding(db: Db, job: nat, finding: Finding, stale: bool, now: Moment): Db
    requires job < |db.jobs|
  {
    var row := FindingRow(job, if IsTracked(finding) then Some(finding.fingerprint) else None, finding, now.read);
    (if IsTracked(finding) then TrackFinding(db, job, finding, stale, now) else db).(findings := db.findings + [row])
  }

  function ApplyFindings(db: Db, job: nat, findings: seq<Finding>, stale: bool, now: Moment): (r: Db)
    requires job < |db.jobs|
    ensures r.jobs == db.jobs
  {
    if findings == [] then db
    else ApplyFinding(ApplyFindings(db, job, findings[..|findings| - 1], stale, now), job, findings[|findings| - 1], stale, now)
  }

  /** The exposures of the group that a completed scan ends. */
  function AbsentFrom(exposures: ExposureTable, group: GroupKey, current: set<Fingerprint>, gone: set<Fingerprint>): set<Fingerprint> {
    set f | f in ActiveIn(exposures, group) && f !in current && (group.PullRequestGroup? || f in gone)
  }

  function AbsentReason(job: ScanJob): ClosedReason {
    match JobGroup(job)
    case PullRequestGroup(number) => LeftPullRequest(number, job.request.headSha)
    case BranchGroup(ref) => NotReachable(ref, job.request.headSha)
    case MergeGroup(head) => NotReachable(head, job.request.headSha)
  }

  function Finish(jobs: Jobs, job: nat, passed: bool, now: Moment): Jobs
    requires job < |jobs|
  {
    jobs[job := jobs[job].(state := if passed then Passed else Failed, completedAt := Some(now.read))]
  }

  /** The transaction of `record_completed`; `gone` was computed before it began. */
  function CommitScan(db: Db, job: nat, scan: ScanResult, gone: set<Fingerprint>, now: Moment): Db
    requires job < |db.jobs|
  {
    var db1 := db.(jobs := Finish(db.jobs, job, scan.passed, now));
    var stale := NewerScanCompleted(db1.jobs, job);
    var db2 := ApplyFindings(db1, job, scan.findings, stale, now);
    var current := Tracked(scan.findings);
    var group := JobGroup(db1.jobs[job]);
    var closed := if stale then {} else AbsentFrom(db2.exposures, group, current, gone);
    var db3 := db2.(exposures := CloseIn(db2.exposures, closed, group, AbsentReason(db1.jobs[job]), Some(job), now));
    Refresh(db3, current + closed, now)
  }

  // ---------------------------------------------------------------- reachability before the transaction

  datatype Reachability = Ancestor | NotAncestor | Unknown

  /** What Git answers for (commit, head); a failing call is Unknown. */
  type Git = (string, string) -> Reachability

  const REACHABILITY_LIMIT: nat := 1000

  /** Active branch exposures that Git says are no longer on the branch, among the rows read. */
  function Unreachable(db: Db, job: nat, current: set<Fingerprint>, rows: set<Fingerprint>, git: Git): set<Fingerprint>
    requires job < |db.jobs|
    requires rows <= db.violations.Keys
  {
    set f | f in rows && f !in current && db.violations[f].commit != ""
            && git(db.violations[f].commit, db.jobs[job].request.headSha) == NotAncestor
  }

  /** The rows a reachability query may return: all of them, or some `LIMIT` of them. */
  ghost predicate RowsRead(db: Db, group: GroupKey, rows: set<Fingerprint>) {
    && rows <= ActiveIn(db.exposures, group)
    && |rows| <= REACHABILITY_LIMIT
    && (|rows| < REACHABILITY_LIMIT ==> rows == ActiveIn(db.exposures, group))
  }

  // ---------------------------------------------------------------- GitHub lifecycle events

  function EndGroup(db: Db, group: GroupKey, reason: ClosedReason, now: Moment): Db {
    db.(exposures := CloseIn(db.exposures, ActiveIn(db.exposures, group), group, reason, None, now))
  }

  /** End every exposure of a group, move them to a branch if there is one, and refresh. */
  function EndAndMove(db: Db, group: GroupKey, reason: ClosedReason, branch: Option<string>, now: Moment): Db {
    var ids := ActiveIn(db.exposures, group);
    var ended := EndGroup(db, group, reason, now);
    var moved := if branch.None? then ended
                 else ended.(exposures := ActivateAll(ended.exposures, ids, BranchGroup(branch.value), None, now));
    Refresh(moved, ids, now)
  }

  /** `base_ref` may be missing or empty; only a non-empty one names a branch here. */
  function PullRequestClosed(db: Db, number: int, merged: bool, baseRef: string, now: Moment): Db {
    EndAndMove(db, PullRequestGroup(number),
               if merged then MergedInto(number, baseRef) else ClosedUnmerged(number),
               if merged && baseRef != "" then Some(baseRef) else None, now)
  }

  const MERGED := "merged"

  function MergeGroupDestroyed(db: Db, head: string, reason: string, baseRef: string, now: Moment): Db {
    EndAndMove(db, MergeGroup(head),
               if reason == MERGED then MergeGroupMerged(head, baseRef) else MergeGroupGone(head, reason),
               if reason == MERGED then Some(baseRef) else None, now)
  }

  function BranchDeleted(db: Db, ref: string, now: Moment): Db {
    EndAndMove(db, BranchGroup(ref), BranchDeletedReason(ref), None, now)
  }

  predicate ClosedUnmergedAt(exposures: ExposureTable, place: Place, number: int) {
    && place in exposures && place.group == PullRequestGroup(number)
    && !exposures[place].active && exposures[place].closedReason == Some(ClosedUnmerged(number))
  }

  /** The exposures `pull_request_reopened` selects: by group and closed reason only. */
  function ClosedUnmergedIn(exposures: ExposureTable, number: int): set<Fingerprint> {
    set p | p in exposures && ClosedUnmergedAt(exposures, p, number) :: p.violation
  }

  function RestoredExposures(exposures: ExposureTable, number: int, now: Moment): ExposureTable {
    map p | p in exposures ::
      if ClosedUnmergedAt(exposures, p, number)
      then exposures[p].(active := true, closedAt := None, closedReason := None, openedAt := now.read)
      else exposures[p]
  }

  function PullRequestReopened(db: Db, number: int, now: Moment): Db {
    Refresh(db.(exposures := RestoredExposures(db.exposures, number, now)), ClosedUnmergedIn(db.exposures, number), now)
  }

  // ---------------------------------------------------------------- dashboard commands

  datatype CommandError = NotFound | Conflict

  function Acknowledge(db: Db, f: Fingerprint, now: Moment): Result<Db, CommandError> {
    if f !in db.violations then Err(NotFound)
    else if db.violations[f].status != Open then Err(Conflict)
    else Ok(db.(violations := db.violations[f := db.violations[f].(acknowledgedAt := Some(now.read))],
                trail := db.trail[f := Trail(db, f) + [Event(Acknowledged, now.at)]]))
  }

  function RemoveAcknowledgement(db: Db, f: Fingerprint, now: Moment): Result<Db, CommandError> {
    if f !in db.violations then Err(NotFound)
    else if db.violations[f].acknowledgedAt.None? then Err(Conflict)
    else Ok(db.(violations := db.violations[f := db.violations[f].(acknowledgedAt := None)],
                trail := db.trail[f := Trail(db, f) + [Event(AcknowledgementRemoved, now.at)]]))
  }
}
