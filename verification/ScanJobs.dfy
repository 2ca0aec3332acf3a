/**
 The `scan_jobs` table of one repository and the operations that append to it.

 A job's sequence number is its position in the table, as for SQLite's
 AUTOINCREMENT key. SHA-256 fingerprints of tuples are the tuples themselves
 (datatype values are injective in their parts), and so are group keys.
 */
module ScanJobs {
  import opened Wrappers

  datatype JobEvent = PullRequestEvent | PushEvent | MergeGroupEvent | ScheduledEvent
  datatype Trigger = Webhook | Scheduled | Rerun | Manual | Retry
  datatype JobState = Queued | Running | Passed | Failed | Error | Cancelled
  datatype FailureKind = Infrastructure | Timeout | Authorization | Configuration | Internal
  datatype CheckName = AppCheck | AppPushCheck

  datatype GroupKey =
    | PullRequestGroup(number: int)
    | BranchGroup(ref: string)
    | MergeGroup(head: string)

  /** What a logical scan covers; every execution of the scan carries it. */
  datatype ScanKey =
    | PullRequestScan(number: int, base: string, head: string)
    | PushScan(ref: string, before: string, after: string)
    | MergeGroupScan(headRef: string, base: string, head: string)
    | ScheduledScan(slot: seq<string>, head: string)

  /** Webhook and scheduled jobs are keyed by what they scan, later executions by a fresh id. */
  datatype JobKey = KeyOfScan(scan: ScanKey) | ExecutionKey(trigger: Trigger, uuid: nat)

  datatype NewScanJob = NewScanJob(
    jobKey: JobKey,
    event: JobEvent,
    groupKey: GroupKey,
    headSha: string,
    checkName: CheckName,
    pullRequest: Option<int>,
    ref: string,
    deliveryId: Option<string>)

  datatype ScanJob = ScanJob(
    request: NewScanJob,
    scanKey: ScanKey,
    execution: int,
    trigger: Trigger,
    previous: Option<nat>,
    state: JobState,
    failure: Option<FailureKind>,
    completedAt: Option<int>)

  type Jobs = seq<ScanJob>

  // ---------------------------------------------------------------- group keys

  /** A scheduled scan is keyed by its slot and commit; the branch is the default branch at that time. */
  function GroupOf(scan: ScanKey, ref: string): GroupKey {
    match scan
    case PullRequestScan(number, _, _) => PullRequestGroup(number)
    case PushScan(branch, _, _) => BranchGroup(branch)
    case MergeGroupScan(_, _, head) => MergeGroup(head)
    case ScheduledScan(_, _) => BranchGroup(ref)
  }

  function HeadOf(scan: ScanKey): string {
    match scan
    case PullRequestScan(_, _, head) => head
    case PushScan(_, _, after) => after
    case MergeGroupScan(_, _, head) => head
    case ScheduledScan(_, head) => head
  }

  /** The three requests the webhook handlers build. */
  function PullRequestRequest(number: int, base: string, head: string, baseRef: string, delivery: string): NewScanJob {
    NewScanJob(KeyOfScan(PullRequestScan(number, base, head)), PullRequestEvent, PullRequestGroup(number), head,
               AppCheck, Some(number), baseRef, Some(delivery))
  }

  function PushRequest(ref: string, before: string, after: string, delivery: string): NewScanJob {
    NewScanJob(KeyOfScan(PushScan(ref, before, after)), PushEvent, BranchGroup(ref), after,
               AppPushCheck, None, ref, Some(delivery))
  }

  function MergeGroupRequest(headRef: string, base: string, head: string, baseRef: string, delivery: string): NewScanJob {
    NewScanJob(KeyOfScan(MergeGroupScan(headRef, base, head)), MergeGroupEvent, MergeGroup(head), head,
               AppCheck, None, baseRef, Some(delivery))
  }

  /** What a schedule, or an operator for many repositories, queues for the default branch. */
  function ScheduledRequest(slot: seq<string>, ref: string, head: string): NewScanJob {
    NewScanJob(KeyOfScan(ScheduledScan(slot, head)), ScheduledEvent, BranchGroup(ref), head, AppPushCheck, None, ref, None)
  }

  /** The request describes exactly the scan named by `scan`. */
  predicate Describes(request: NewScanJob, scan: ScanKey) {
    && request.groupKey == GroupOf(scan, request.ref)
    && request.headSha == HeadOf(scan)
    && match scan
       case PullRequestScan(number, _, _) => request.event == PullRequestEvent && request.pullRequest == Some(number)
       case PushScan(ref, _, _) => request.event == PushEvent && request.pullRequest == None && request.ref == ref
       case MergeGroupScan(_, _, _) => request.event == MergeGroupEvent && request.pullRequest == None
       case ScheduledScan(_, _) => request.event == ScheduledEvent && request.pullRequest == None
  }

  /** A request for a scan by its own key, as webhooks and schedules make them. */
  predicate FirstRequest(request: NewScanJob) {
    request.jobKey.KeyOfScan? && Describes(request, request.jobKey.scan)
  }

  lemma HandlersDescribeTheirScan(number: int, base: string, head: string, ref: string, delivery: string, slot: seq<string>)
    ensures FirstRequest(PullRequestRequest(number, base, head, ref, delivery))
    ensures FirstRequest(PushRequest(ref, base, head, delivery))
    ensures FirstRequest(MergeGroupRequest(ref, base, head, ref, delivery))
    ensures FirstRequest(ScheduledRequest(slot, ref, head))
  {
  }

  /** Which group's exposures a job's result belongs to. */
  function JobGroup(job: ScanJob): GroupKey {
    if job.request.event == MergeGroupEvent then job.request.groupKey
    else if job.request.pullRequest.Some? then PullRequestGroup(job.request.pullRequest.value)
    else BranchGroup(job.request.ref)
  }

  // ---------------------------------------------------------------- queries

  predicate Active(job: ScanJob) {
    job.state == Queued || job.state == Running
  }

  predicate Completed(job: ScanJob) {
    job.state == Passed || job.state == Failed
  }

  /** The newest job satisfying `p`: `ORDER BY sequence DESC LIMIT 1`. */
  function Latest(jobs: Jobs, p: ScanJob -> bool): (r: Option<nat>)
    ensures r.Some? ==> r.value < |jobs| && p(jobs[r.value])
    ensures forall i :: 0 <= i < |jobs| && (r.Some? ==> r.value < i) ==> !p(jobs[i])
  {
    if jobs == [] then None
    else if p(jobs[|jobs| - 1]) then Some(|jobs| - 1)
    else Latest(jobs[..|jobs| - 1], p)
  }

  function InGroup(group: GroupKey): ScanJob -> bool {
    (job: ScanJob) => job.request.groupKey == group
  }

  function LatestGroupJob(jobs: Jobs, group: GroupKey): Option<nat> {
    Latest(jobs, InGroup(group))
  }

  /** The scan whose result currently stands for the group. */
  function NewestScan(jobs: Jobs, group: GroupKey): Option<ScanKey> {
    var latest := LatestGroupJob(jobs, group);
    if latest.Some? then Some(jobs[latest.value].scanKey) else None
  }

  function MaxExecution(jobs: Jobs, scan: ScanKey): int {
    if jobs == [] then 0
    else
      var rest := MaxExecution(jobs[..|jobs| - 1], scan);
      var job := jobs[|jobs| - 1];
      if job.scanKey == scan && job.execution > rest then job.execution else rest
  }

  function ExecutionCount(jobs: Jobs, scan: ScanKey): nat {
    if jobs == [] then 0
    else ExecutionCount(jobs[..|jobs| - 1], scan) + if jobs[|jobs| - 1].scanKey == scan then 1 else 0
  }

  // ---------------------------------------------------------------- operations

  function InsertJob(jobs: Jobs, request: NewScanJob, scan: ScanKey, trigger: Trigger, previous: Option<nat>): Jobs {
    jobs + [ScanJob(request, scan, MaxExecution(jobs, scan) + 1, trigger, previous, Queued, None, None)]
  }

  function SameJobKey(key: JobKey): ScanJob -> bool {
    (job: ScanJob) => job.request.jobKey == key
  }

  function TriggerOf(request: NewScanJob): Trigger {
    if request.event == ScheduledEvent then Scheduled else Webhook
  }

  /** `create_job`: the table after it, and whether a row was added. */
  function CreateJob(jobs: Jobs, request: NewScanJob): (Jobs, bool)
    requires request.jobKey.KeyOfScan?
  {
    var existing := Latest(jobs, SameJobKey(request.jobKey));
    if existing.Some? && jobs[existing.value].state != Error && jobs[existing.value].state != Cancelled then
      (jobs, false)
    else
      (InsertJob(jobs, request, request.jobKey.scan, TriggerOf(request), existing), true)
  }

  function ActiveOfScan(scan: ScanKey): ScanJob -> bool {
    (job: ScanJob) => job.scanKey == scan && Active(job)
  }

  function SameDelivery(scan: ScanKey, delivery: string): ScanJob -> bool {
    (job: ScanJob) => job.scanKey == scan && job.request.deliveryId == Some(delivery)
  }

  /** `create_execution`: execution N+1 of the scan `previous` belongs to, unless one is under way. */
  function CreateExecution(jobs: Jobs, previous: nat, trigger: Trigger, delivery: Option<string>, uuid: nat): (Jobs, bool)
    requires previous < |jobs|
  {
    var job := jobs[previous];
    if Latest(jobs, ActiveOfScan(job.scanKey)).Some? then (jobs, false)
    else if delivery.Some? && Latest(jobs, SameDelivery(job.scanKey, delivery.value)).Some? then (jobs, false)
    else
      var request := job.request.(jobKey := ExecutionKey(trigger, uuid), deliveryId := delivery);
      (InsertJob(jobs, request, job.scanKey, trigger, Some(previous)), true)
  }

  function CancelledRow(job: ScanJob, group: GroupKey): ScanJob {
    if job.request.groupKey == group && job.state == Queued then job.(state := Cancelled) else job
  }

  /** `cancel_queued_group`: queued jobs of a group that is no longer relevant. */
  function CancelQueued(jobs: Jobs, group: GroupKey): Jobs {
    seq(|jobs|, i requires 0 <= i < |jobs| => CancelledRow(jobs[i], group))
  }

  // ---------------------------------------------------------------- table invariant

  /** Every row describes its scan, and executions of a scan are numbered 1, 2, 3, ... in order. */
  ghost predicate WellFormed(jobs: Jobs) {
    && (forall i :: 0 <= i < |jobs| ==> Describes(jobs[i].request, jobs[i].scanKey))
    && (forall i :: 0 <= i < |jobs| ==> jobs[i].execution == ExecutionCount(jobs[..i], jobs[i].scanKey) + 1)
  }

  /** A row's place and identity never change; only its progress does. */
  predicate SameRow(a: ScanJob, b: ScanJob) {
    a.request == b.request && a.scanKey == b.scanKey && a.execution == b.execution && a.trigger == b.trigger
  }

  ghost predicate SameRows(a: Jobs, b: Jobs) {
    |a| == |b| && forall i :: 0 <= i < |a| ==> SameRow(a[i], b[i])
  }

  lemma {:induction false} MaxIsCount(jobs: Jobs, scan: ScanKey)
    requires WellFormed(jobs)
    ensures MaxExecution(jobs, scan) == ExecutionCount(jobs, scan)
  {
    if jobs != [] {
      var rest := jobs[..|jobs| - 1];
      assert forall i :: 0 <= i < |rest| ==> jobs[..i] == rest[..i];
      MaxIsCount(rest, scan);
    }
  }

  lemma InsertIsWellFormed(jobs: Jobs, request: NewScanJob, scan: ScanKey, trigger: Trigger, previous: Option<nat>)
    requires WellFormed(jobs) && Describes(request, scan)
    ensures WellFormed(InsertJob(jobs, request, scan, trigger, previous))
  {
    hide Describes, MaxExecution, ExecutionCount;
    var after := InsertJob(jobs, request, scan, trigger, previous);
    MaxIsCount(jobs, scan);
    assert forall i :: 0 <= i < |jobs| ==> after[..i] == jobs[..i];
    assert after[..|jobs|] == jobs;
  }

  lemma LatestAppend(jobs: Jobs, row: ScanJob, group: GroupKey)
    ensures LatestGroupJob(jobs + [row], group) == if row.request.groupKey == group then Some(|jobs|) else LatestGroupJob(jobs, group)
  {
    assert (jobs + [row])[..|jobs|] == jobs;
  }

  lemma InsertKeepsTable(jobs: Jobs, request: NewScanJob, scan: ScanKey, trigger: Trigger, previous: Option<nat>)
    requires WellFormed(jobs) && Describes(request, scan)
    ensures WellFormed(InsertJob(jobs, request, scan, trigger, previous))
    ensures NewestScan(InsertJob(jobs, request, scan, trigger, previous), request.groupKey) == Some(scan)
    ensures forall g :: g != request.groupKey ==>
      NewestScan(InsertJob(jobs, request, scan, trigger, previous), g) == NewestScan(jobs, g)
  {
    hide WellFormed, Describes, MaxExecution;
    InsertIsWellFormed(jobs, request, scan, trigger, previous);
    var after := InsertJob(jobs, request, scan, trigger, previous);
    LatestAppend(jobs, after[|jobs|], request.groupKey);
    forall g | g != request.groupKey
      ensures NewestScan(after, g) == NewestScan(jobs, g)
    {
      LatestAppend(jobs, after[|jobs|], g);
    }
  }

  lemma {:induction false} LatestSameRows(a: Jobs, b: Jobs, group: GroupKey)
    requires SameRows(a, b)
    ensures LatestGroupJob(a, group) == LatestGroupJob(b, group)
  {
    if a != [] {
      LatestSameRows(a[..|a| - 1], b[..|b| - 1], group);
    }
  }

  lemma {:induction false} CountSameRows(a: Jobs, b: Jobs, scan: ScanKey)
    requires SameRows(a, b)
    ensures ExecutionCount(a, scan) == ExecutionCount(b, scan)
  {
    if a != [] {
      CountSameRows(a[..|a| - 1], b[..|b| - 1], scan);
    }
  }

  /** Recording progress keeps the table well formed and every group's newest scan. */
  lemma ProgressKeepsTable(a: Jobs, b: Jobs)
    requires WellFormed(a) && SameRows(a, b)
    ensures WellFormed(b)
    ensures forall g :: NewestScan(a, g) == NewestScan(b, g)
  {
    forall i | 0 <= i < |b|
      ensures b[i].execution == ExecutionCount(b[..i], b[i].scanKey) + 1
    {
      CountSameRows(a[..i], b[..i], b[i].scanKey);
    }
    forall g
      ensures NewestScan(a, g) == NewestScan(b, g)
    {
      LatestSameRows(a, b, g);
    }
  }

  lemma CancelKeepsTable(jobs: Jobs, group: GroupKey)
    requires WellFormed(jobs)
    ensures WellFormed(CancelQueued(jobs, group)) && SameRows(jobs, CancelQueued(jobs, group))
  {
    ProgressKeepsTable(jobs, CancelQueued(jobs, group));
  }

  /** The group the lifecycle records under is the group the job table files the job under. */
  lemma JobGroupIsGroupKey(jobs: Jobs, i: nat)
    requires WellFormed(jobs) && i < |jobs|
    ensures JobGroup(jobs[i]) == jobs[i].request.groupKey == GroupOf(jobs[i].scanKey, jobs[i].request.ref)
  {
  }

  lemma CreateJobKeepsTable(jobs: Jobs, request: NewScanJob)
    requires WellFormed(jobs) && FirstRequest(request)
    ensures WellFormed(CreateJob(jobs, request).0)
    ensures CreateJob(jobs, request).1 ==> NewestScan(CreateJob(jobs, request).0, request.groupKey) == Some(request.jobKey.scan)
    ensures forall g :: g != request.groupKey || !CreateJob(jobs, request).1 ==>
      NewestScan(CreateJob(jobs, request).0, g) == NewestScan(jobs, g)
  {
    InsertKeepsTable(jobs, request, request.jobKey.scan, TriggerOf(request), Latest(jobs, SameJobKey(request.jobKey)));
  }

  /** Every group's newest scan is the same in both tables. */
  ghost predicate SameNewest(a: Jobs, b: Jobs) {
    forall g :: NewestScan(b, g) == NewestScan(a, g)
  }

  /**
   A new execution makes its own scan the newest of its group, so it leaves the
   newest scans alone exactly when that scan already was the newest.
   */
  lemma ExecutionAndNewestScan(jobs: Jobs, previous: nat, trigger: Trigger, delivery: Option<string>, uuid: nat)
    requires WellFormed(jobs) && previous < |jobs|
    ensures
      var (after, created) := CreateExecution(jobs, previous, trigger, delivery, uuid);
      var job := jobs[previous];
      && WellFormed(after)
      && (SameNewest(jobs, after) <==> !created || NewestScan(jobs, job.request.groupKey) == Some(job.scanKey))
      && (created ==> NewestScan(after, job.request.groupKey) == Some(job.scanKey))
  {
    var job := jobs[previous];
    var request := job.request.(jobKey := ExecutionKey(trigger, uuid), deliveryId := delivery);
    InsertKeepsTable(jobs, request, job.scanKey, trigger, Some(previous));
  }

  /** What `create_execution` adds, if anything: one queued row of the same scan at the end. */
  lemma ExecutionAppends(jobs: Jobs, previous: nat, trigger: Trigger, delivery: Option<string>, uuid: nat)
    requires previous < |jobs|
    ensures
      var (after, created) := CreateExecution(jobs, previous, trigger, delivery, uuid);
      && (!created ==> after == jobs)
      && (created ==> after == jobs + [after[|jobs|]]
                      && after[|jobs|].trigger == trigger && after[|jobs|].state == Queued
                      && after[|jobs|].scanKey == jobs[previous].scanKey
                      && after[|jobs|].request.groupKey == jobs[previous].request.groupKey
                      && after[|jobs|].request.headSha == jobs[previous].request.headSha)
  {
  }

  /**
   Once a delivery has produced an execution of a scan, delivering it again adds
   nothing, however far the table has progressed and grown in between.
   */
  lemma RedeliveryCreatesNothing(
    jobs: Jobs, previous: nat, trigger: Trigger, delivery: string, uuid: nat, later: Jobs, uuid2: nat)
    requires previous < |jobs| && CreateExecution(jobs, previous, trigger, Some(delivery), uuid).1
    requires |jobs| < |later| && SameRows(CreateExecution(jobs, previous, trigger, Some(delivery), uuid).0, later[..|jobs| + 1])
    ensures CreateExecution(later, previous, trigger, Some(delivery), uuid2) == (later, false)
  {
    var once := CreateExecution(jobs, previous, trigger, Some(delivery), uuid).0;
    assert SameRow(once[previous], later[..|jobs| + 1][previous]);
    assert SameRow(once[|jobs|], later[..|jobs| + 1][|jobs|]);
    assert SameDelivery(later[previous].scanKey, delivery)(later[|jobs|]);
  }
}
