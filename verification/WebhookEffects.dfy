/** What handling one webhook does to jobs, exposures and merge groups, as GitHub's users see it. */
module WebhookEffects {
  import opened Wrappers
  import opened ScanJobs
  import opened Violations
  import opened LifecycleInvariants
  import opened ControlPlane
  import opened ScanOrder
  import opened MergeAndReopen
  import opened ExposureRows
  import opened WebhookHandlers

  /** Exactly the queued jobs of the group are cancelled. */
  predicate QueuedCancelled(before: Jobs, after: Jobs, group: GroupKey) {
    && |after| == |before|
    && forall i :: 0 <= i < |before| ==>
         after[i] == if before[i].request.groupKey == group && before[i].state == Queued then before[i].(state := Cancelled) else before[i]
  }

  /** Unless it already has a job that is under way or finished, the scan got a queued job for exactly this commit. */
  predicate ScanRequested(before: Jobs, after: Jobs, scan: ScanKey, head: string, ref: string, check: CheckName, delivery: string) {
    || (&& after == before
        && exists i :: 0 <= i < |before| && before[i].request.jobKey == KeyOfScan(scan)
                       && before[i].state != Error && before[i].state != Cancelled)
    || (&& |after| == |before| + 1 && after[..|before|] == before
        && var job := after[|before|];
           job.state == Queued && job.trigger == Webhook && job.scanKey == scan && job.request.jobKey == KeyOfScan(scan)
           && job.request.headSha == head && job.request.ref == ref && job.request.checkName == check
           && job.request.deliveryId == Some(delivery))
  }

  lemma CreateJobRequests(jobs: Jobs, request: NewScanJob, delivery: string)
    requires FirstRequest(request) && request.deliveryId == Some(delivery) && request.event != ScheduledEvent
    ensures ScanRequested(jobs, CreateJob(jobs, request).0, request.jobKey.scan, request.headSha, request.ref, request.checkName, delivery)
  {
    hide MaxExecution;
    var latest := Latest(jobs, SameJobKey(request.jobKey));
    if latest.Some? {
      assert SameJobKey(request.jobKey)(jobs[latest.value]);
    }
  }

  // ---------------------------------------------------------------- pull requests

  /**
   Closing without a merge cancels the queued scans of the pull request and ends
   exactly its exposures; nothing becomes active anywhere.
   */
  lemma ClosingEndsPullRequest(db: Db, groups: MergeGroups, event: PullRequestWebhook, monitoring: bool, now: Moment)
    requires event.action == ClosedAction && !event.merged
    ensures
      var (after, left) := Handle(db, groups, PullRequestHook(event), monitoring, now);
      && left == groups && QueuedCancelled(db.jobs, after.jobs, PullRequestGroup(event.number))
      && (forall p :: ActiveAt(after.exposures, p) <==> ActiveAt(db.exposures, p) && p.group != PullRequestGroup(event.number))
      && forall p :: ActiveAt(db.exposures, p) && p.group == PullRequestGroup(event.number) ==>
           p in after.exposures && after.exposures[p].closedReason == Some(ClosedUnmerged(event.number))
  {
    hide Complete, DbAfter, ActiveAt, CancelQueued;
    var close := ClosePullRequest(event.number, false, "");
    Handled(db, groups, PullRequestHook(event), monitoring, now);
    var cancelled := db.(jobs := CancelQueued(db.jobs, PullRequestGroup(event.number)));
    CancelIsCancelled(db.jobs, PullRequestGroup(event.number));
    UnmergedMovesNothing(cancelled, close, now);
    EventKeepsJobs(cancelled, close, now);
    forall p | ActiveAt(db.exposures, p) && p.group == PullRequestGroup(event.number)
      ensures p in DbAfter(cancelled, close, now).exposures
      ensures DbAfter(cancelled, close, now).exposures[p].closedReason == Some(ClosedUnmerged(event.number))
    {
      EndingRows(cancelled, close, now, p);
    }
  }

  lemma CancelIsCancelled(jobs: Jobs, group: GroupKey)
    ensures QueuedCancelled(jobs, CancelQueued(jobs, group), group)
  {
  }

  lemma EventKeepsJobs(db: Db, event: LifecycleEvent, now: Moment)
    ensures DbAfter(db, event, now).jobs == db.jobs
  {
  }

  /** Merging moves the pull request's exposures to the base branch, and leaves the jobs alone. */
  lemma MergingMovesPullRequest(db: Db, groups: MergeGroups, event: PullRequestWebhook, monitoring: bool, now: Moment)
    requires event.action == ClosedAction && event.merged
    ensures
      var (after, left) := Handle(db, groups, PullRequestHook(event), monitoring, now);
      && left == groups && after.jobs == db.jobs
      && forall p :: ActiveAt(after.exposures, p) <==>
           || (ActiveAt(db.exposures, p) && p.group != PullRequestGroup(event.number))
           || (event.baseRef != "" && p.group == BranchGroup(event.baseRef)
               && ActiveAt(db.exposures, Place(p.violation, PullRequestGroup(event.number))))
  {
    hide Complete, DbAfter;
    var merge := ClosePullRequest(event.number, true, event.baseRef);
    Handled(db, groups, PullRequestHook(event), monitoring, now);
    EventKeepsJobs(db, merge, now);
    forall p
      ensures ActiveAt(DbAfter(db, merge, now).exposures, p) <==>
           || (ActiveAt(db.exposures, p) && p.group != PullRequestGroup(event.number))
           || (event.baseRef != "" && p.group == BranchGroup(event.baseRef)
               && ActiveAt(db.exposures, Place(p.violation, PullRequestGroup(event.number))))
    {
      EndingRows(db, merge, now, p);
    }
  }

  predicate Scans(event: PullRequestWebhook) {
    || event.action == OpenedAction || event.action == Synchronize || event.action == ReopenedAction
    || (event.action == Edited && event.baseChanged)
  }

  /**
   Opening, updating, reopening or retargeting a monitored pull request requests a
   scan of exactly its base and head. Only reopening it on commits that need no new
   scan touches exposures: it restores what closing it ended.
   */
  lemma ScanningRequestsHead(db: Db, groups: MergeGroups, event: PullRequestWebhook, now: Moment, p: Place)
    requires Scans(event)
    ensures
      var (after, left) := Handle(db, groups, PullRequestHook(event), true, now);
      && left == groups
      && ScanRequested(db.jobs, after.jobs, PullRequestScan(event.number, event.base, event.head), event.head, event.baseRef, AppCheck,
                       event.delivery)
      && (event.action != ReopenedAction || after.jobs != db.jobs ==> after == db.(jobs := after.jobs))
      && (event.action == ReopenedAction && after.jobs == db.jobs ==>
            (ActiveAt(after.exposures, p) <==>
               ActiveAt(db.exposures, p)
               || (p in db.exposures && p.group == PullRequestGroup(event.number)
                   && db.exposures[p].closedReason == Some(ClosedUnmerged(event.number)))))
  {
    hide Complete, DbAfter, ScanRequested, FirstRequest;
    Handled(db, groups, PullRequestHook(event), true, now);
    HandlersDescribeTheirScan(event.number, event.base, event.head, event.baseRef, event.delivery, []);
    CreateJobRequests(db.jobs, RequestOf(event), event.delivery);
    CreatedIsLonger(db.jobs, RequestOf(event));
    if event.action == ReopenedAction {
      EventKeepsJobs(db, ReopenPullRequest(event.number), now);
      ReopeningRows(db, event.number, now, p);
    }
  }

  lemma CreatedIsLonger(jobs: Jobs, request: NewScanJob)
    requires request.jobKey.KeyOfScan?
    ensures CreateJob(jobs, request).1 <==> CreateJob(jobs, request).0 != jobs
  {
  }

  /** While monitoring is paused, and for every other action, nothing changes. */
  lemma OtherwiseIgnored(db: Db, groups: MergeGroups, event: PullRequestWebhook, monitoring: bool, now: Moment)
    requires event.action != ClosedAction && !(monitoring && Scans(event))
    ensures Handle(db, groups, PullRequestHook(event), monitoring, now) == (db, groups)
  {
    Handled(db, groups, PullRequestHook(event), monitoring, now);
  }

  // ---------------------------------------------------------------- branches

  /** Only branches count; a deleted one loses its exposures even while monitoring is paused, any other is scanned. */
  lemma PushRequestsOrEnds(
    db: Db, groups: MergeGroups, ref: string, before: string, head: Option<string>, delivery: string, monitoring: bool, now: Moment)
    ensures
      var (after, left) := Handle(db, groups, PushHook(ref, before, head, delivery), monitoring, now);
      && left == groups
      && (!("refs/heads/" <= ref) || (head.Some? && !monitoring) ==> after == db)
      && ("refs/heads/" <= ref && head.None? ==>
            && after.jobs == db.jobs
            && forall p :: ActiveAt(after.exposures, p) <==> ActiveAt(db.exposures, p) && p.group != BranchGroup(ref))
      && ("refs/heads/" <= ref && head.Some? && monitoring ==>
            && after == db.(jobs := after.jobs)
            && ScanRequested(db.jobs, after.jobs, PushScan(ref, before, head.value), head.value, ref, AppPushCheck, delivery))
  {
    hide Complete, DbAfter, ScanRequested, FirstRequest, CreateJob;
    Handled(db, groups, PushHook(ref, before, head, delivery), monitoring, now);
    if head.None? {
      UnmergedMovesNothing(db, DeleteBranch(ref), now);
      EventKeepsJobs(db, DeleteBranch(ref), now);
    } else {
      HandlersDescribeTheirScan(0, before, head.value, ref, delivery, []);
      CreateJobRequests(db.jobs, PushRequest(ref, before, head.value, delivery), delivery);
    }
  }

  // ---------------------------------------------------------------- merge groups

  /** A request is recorded and scanned once, and only while monitored; later ones, and those of known groups, change nothing. */
  lemma RequestScansMergeGroup(
    db: Db, groups: MergeGroups, headRef: string, base: string, head: string, baseRef: string, delivery: string,
    monitoring: bool, now: Moment)
    ensures
      var (after, left) := Handle(db, groups, MergeGroupRequestedHook(headRef, base, head, baseRef, delivery), monitoring, now);
      && (!monitoring || head in groups ==> after == db && left == groups)
      && (monitoring && head !in groups ==>
            && left == groups[head := ChecksRequested] && after == db.(jobs := after.jobs)
            && ScanRequested(db.jobs, after.jobs, MergeGroupScan(headRef, base, head), head, baseRef, AppCheck, delivery))
  {
    hide Complete, ScanRequested, FirstRequest, CreateJob;
    Handled(db, groups, MergeGroupRequestedHook(headRef, base, head, baseRef, delivery), monitoring, now);
    MergeGroupDescribes(headRef, base, head, baseRef, delivery);
    CreateJobRequests(db.jobs, MergeGroupRequest(headRef, base, head, baseRef, delivery), delivery);
  }

  lemma MergeGroupDescribes(headRef: string, base: string, head: string, baseRef: string, delivery: string)
    ensures FirstRequest(MergeGroupRequest(headRef, base, head, baseRef, delivery))
  {
  }

  /** The first destroyed event cancels the group's queued scans and ends its exposures, on the base branch if it was merged. */
  lemma DestroyingEndsMergeGroup(
    db: Db, groups: MergeGroups, head: string, reason: string, baseRef: string, monitoring: bool, now: Moment)
    ensures
      var (after, left) := Handle(db, groups, MergeGroupDestroyedHook(head, reason, baseRef), monitoring, now);
      if head in groups && groups[head] == Destroyed then after == db && left == groups
      else
        && left == groups[head := Destroyed] && QueuedCancelled(db.jobs, after.jobs, MergeGroup(head))
        && forall p :: ActiveAt(after.exposures, p) <==>
             || (ActiveAt(db.exposures, p) && p.group != MergeGroup(head))
             || (reason == "merged" && p.group == BranchGroup(baseRef) && ActiveAt(db.exposures, Place(p.violation, MergeGroup(head))))
  {
    hide Complete, DbAfter, CancelQueued;
    var event := DestroyMergeGroup(head, reason, baseRef);
    Handled(db, groups, MergeGroupDestroyedHook(head, reason, baseRef), monitoring, now);
    if !IsDestroyed(groups, head) {
      var cancelled := db.(jobs := CancelQueued(db.jobs, MergeGroup(head)));
      CancelIsCancelled(db.jobs, MergeGroup(head));
      EventKeepsJobs(cancelled, event, now);
      forall p
        ensures ActiveAt(DbAfter(cancelled, event, now).exposures, p) <==>
             || (ActiveAt(db.exposures, p) && p.group != MergeGroup(head))
             || (reason == "merged" && p.group == BranchGroup(baseRef) && ActiveAt(db.exposures, Place(p.violation, MergeGroup(head))))
      {
        EndingRows(cancelled, event, now, p);
      }
    }
  }
}
