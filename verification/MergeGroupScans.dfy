/**
 Which scans a merge group gets: at most one from webhooks, none if it was
 destroyed before it was requested - and when one can still commit too late.
 */
module MergeGroupScans {
  import opened Wrappers
  import opened Decision
  import opened ScanJobs
  import opened Violations
  import opened LifecycleInvariants
  import opened ScanCompletion
  import opened ControlPlane
  import opened ScanOrder
  import opened WebhookHandlers
  import opened WebhookRuns
  import opened MergeGroupRuns

  // ---------------------------------------------------------------- what a step does to the job table

  lemma EventJobs(db: Db, event: LifecycleEvent, now: Moment)
    ensures DbAfter(db, event, now).jobs == db.jobs
  {
  }

  lemma NextJobs(sys: System, timed: Timed)
    ensures Next(sys, timed).db.jobs
            == if Enabled(sys, timed.step) && timed.step.OnJobs? then JobsAfter(sys.db.jobs, timed.step.step, MomentOf(sys, timed))
               else if Enabled(sys, timed.step) && timed.step.Commit? then
                 Finish(sys.db.jobs, sys.inFlight[timed.step.worker].job, sys.inFlight[timed.step.worker].scan.passed, MomentOf(sys, timed))
               else sys.db.jobs
  {
    hide CommitScan, DbAfter, JobsAfter, Finish, RowsRead;
    if Enabled(sys, timed.step) {
      match timed.step
      case OnJobs(_) =>
      case Snapshot(_, _, _, _, _, _) =>
      case Commit(worker) =>
        var p := sys.inFlight[worker];
        CommitJobs(sys.db, p.job, p.scan, p.gone, MomentOf(sys, timed));
      case External(event) => EventJobs(sys.db, event, MomentOf(sys, timed));
    }
  }

  /** The row is new and of the group or trigger given, or it was there before. */
  ghost predicate Appends(a: Jobs, b: Jobs, group: GroupKey, trigger: Trigger) {
    && |a| <= |b| <= |a| + 1
    && (forall i :: 0 <= i < |a| ==> SameRow(a[i], b[i]) && (Completed(a[i]) ==> Completed(b[i])))
    && (|b| > |a| ==> b[|a|].request.groupKey == group && b[|a|].trigger == trigger)
  }

  /** Every step keeps rows and completions, and appends at most one row, as its kind says. */
  lemma StepAppends(sys: System, timed: Timed)
    ensures
      var a, b := sys.db.jobs, Next(sys, timed).db.jobs;
      if !Enabled(sys, timed.step) || !timed.step.OnJobs? then Appends(a, b, PullRequestGroup(0), Trigger.Webhook) && |b| == |a|
      else
        match timed.step.step
        case Enqueue(request) => Appends(a, b, request.groupKey, TriggerOf(request))
        case Execute(previous, trigger, _, _) => Appends(a, b, a[previous].request.groupKey, trigger)
        case _ => Appends(a, b, PullRequestGroup(0), Trigger.Webhook) && |b| == |a|
  {
    hide Next, MaxExecution, Latest, FirstRequest;
    NextJobs(sys, timed);
    if Enabled(sys, timed.step) && timed.step.OnJobs? && timed.step.step.Execute? {
      var step := timed.step.step;
      ExecutionAppends(sys.db.jobs, step.previous, step.trigger, step.delivery, step.uuid);
    }
  }

  // ---------------------------------------------------------------- at most one webhook job

  predicate WebhookJob(jobs: Jobs, i: int, head: string) {
    0 <= i < |jobs| && jobs[i].trigger == Trigger.Webhook && jobs[i].request.groupKey == MergeGroup(head)
  }

  ghost predicate OneWebhookJob(jobs: Jobs, head: string) {
    forall i, j :: WebhookJob(jobs, i, head) && WebhookJob(jobs, j, head) ==> i == j
  }

  ghost predicate NoWebhookJob(jobs: Jobs, head: string) {
    forall i :: !WebhookJob(jobs, i, head)
  }

  /** The handler has yet to queue a scan of the merge group. */
  predicate QueuesAt(host: Host, k: nat, head: string) {
    k in host.handlers && host.handlers[k].Queueing? && host.handlers[k].request.groupKey == MergeGroup(head)
  }

  /** No job of the group, and nothing exposed in it. */
  ghost predicate Untouched(db: Db, head: string) {
    && (forall i :: 0 <= i < |db.jobs| ==> db.jobs[i].request.groupKey != MergeGroup(head))
    && (forall f :: !ActiveAt(db.exposures, Place(f, MergeGroup(head))))
  }

  /** Nor any handler about to queue one. */
  ghost predicate Unscanned(host: Host, head: string) {
    Untouched(host.sys.db, head) && forall k :: !QueuesAt(host, k, head)
  }

  ghost predicate QueueInvariant(host: Host, head: string) {
    && (forall k, l :: QueuesAt(host, k, head) && QueuesAt(host, l, head) ==> k == l)
    && (forall k :: QueuesAt(host, k, head) ==> head in host.mergeGroups && NoWebhookJob(host.sys.db.jobs, head))
    && OneWebhookJob(host.sys.db.jobs, head)
    && (NoWebhookJob(host.sys.db.jobs, head) ==> Untouched(host.sys.db, head))
    && (head !in host.mergeGroups ==> Unscanned(host, head))
  }

  lemma AppendsWebhookJob(a: Jobs, b: Jobs, group: GroupKey, trigger: Trigger, head: string)
    requires Appends(a, b, group, trigger)
    ensures forall i :: WebhookJob(b, i, head) ==>
      WebhookJob(a, i, head) || (i == |a| && group == MergeGroup(head) && trigger == Trigger.Webhook)
  {
    forall i | WebhookJob(b, i, head)
      ensures WebhookJob(a, i, head) || (i == |a| && group == MergeGroup(head) && trigger == Trigger.Webhook)
    {
      assert i < |a| ==> SameRow(a[i], b[i]);
    }
  }

  /** Only a handler that queues the group adds a webhook job of it. */
  lemma WebhookJobsOfStep(host: Host, timed: HostTimed, head: string)
    ensures
      var a, b := host.sys.db.jobs, HostNext(host, timed).sys.db.jobs;
      forall i :: WebhookJob(b, i, head) ==>
        WebhookJob(a, i, head) || (i == |a| && timed.step.Continue? && QueuesAt(host, timed.step.handler, head))
  {
    hide Next, Receive, Rest, MayBegin, Appends, WebhookJob, AfterClaim, AfterPublish, SlotAt, WorkerRight;
    if Taken(host, timed) != [] {
      var step := Taken(host, timed)[0];
      var a, b := host.sys.db.jobs, Next(host.sys, step).db.jobs;
      assert HostNext(host, timed).sys == Next(host.sys, step);
      StepAppends(host.sys, step);
      if Enabled(host.sys, step.step) && step.step.OnJobs? {
        match step.step.step
        case Enqueue(request) => AppendsWebhookJob(a, b, request.groupKey, TriggerOf(request), head);
        case Execute(previous, trigger, _, _) => AppendsWebhookJob(a, b, a[previous].request.groupKey, trigger, head);
        case _ => AppendsWebhookJob(a, b, PullRequestGroup(0), Trigger.Webhook, head);
      } else {
        AppendsWebhookJob(a, b, PullRequestGroup(0), Trigger.Webhook, head);
      }
    }
  }

  /** Which handlers queue a group after a step: those from before, or one for a group requested for the first time. */
  lemma QueuesOfStep(host: Host, timed: HostTimed, head: string)
    ensures forall k :: QueuesAt(HostNext(host, timed), k, head) ==>
      || (QueuesAt(host, k, head) && !(timed.step.Continue? && timed.step.handler == k && HostEnabled(host, timed.step)))
      || (head !in host.mergeGroups && head in HostNext(host, timed).mergeGroups
          && !IsDestroyed(HostNext(host, timed).mergeGroups, head) && timed.step.Deliver? && timed.step.handler == k)
    ensures head in host.mergeGroups ==> head in HostNext(host, timed).mergeGroups
  {
    hide Next, Enabled, MayBegin, DispositionOf, FirstRequest, AfterClaim, AfterPublish, SlotAt, WorkerRight;
  }

  lemma NothingToExpose(host: Host, step: Step, head: string, f: Fingerprint)
    requires HostInvariant(host) && Untouched(host.sys.db, head)
    ensures !Exposes(host.sys, step, Place(f, MergeGroup(head)))
  {
    hide ActiveAt, NewerScanCompleted, JobGroup, Tracked;
    if Exposes(host.sys, step, Place(f, MergeGroup(head))) {
      JobGroupIsGroupKey(host.sys.db.jobs, host.sys.inFlight[step.worker].job);
    }
  }

  /** The first job of a merge group is one from a webhook. */
  lemma MergeGroupIsFromWebhook(request: NewScanJob, head: string)
    requires FirstRequest(request) && request.groupKey == MergeGroup(head)
    ensures TriggerOf(request) == Trigger.Webhook
  {
  }

  lemma UntouchedJobs(sys: System, timed: Timed, head: string)
    requires Untouched(sys.db, head) && NoWebhookJob(Next(sys, timed).db.jobs, head)
    ensures
      var b := Next(sys, timed).db.jobs;
      forall i :: 0 <= i < |b| ==> b[i].request.groupKey != MergeGroup(head)
  {
    hide Next, RowsRead, ActiveAt, FirstRequest;
    var a, b := sys.db.jobs, Next(sys, timed).db.jobs;
    StepAppends(sys, timed);
    assert |b| > |a| ==> !WebhookJob(b, |a|, head);
    if timed.step.OnJobs? && timed.step.step.Enqueue? && FirstRequest(timed.step.step.request) {
      if timed.step.step.request.groupKey == MergeGroup(head) {
        MergeGroupIsFromWebhook(timed.step.step.request, head);
      }
    }
    forall i | 0 <= i < |b|
      ensures b[i].request.groupKey != MergeGroup(head)
    {
      assert i < |a| ==> SameRow(a[i], b[i]);
    }
  }

  /** As long as no webhook has queued the group, it has no job and no exposure. */
  lemma UntouchedStays(host: Host, timed: HostTimed, head: string)
    requires HostInvariant(host) && Untouched(host.sys.db, head) && NoWebhookJob(HostNext(host, timed).sys.db.jobs, head)
    ensures Untouched(HostNext(host, timed).sys.db, head)
  {
    hide HostNext, Next, Taken, HostInvariant, NoWebhookJob, ActiveAt, Exposes;
    TakenStep(host, timed);
    if Taken(host, timed) != [] {
      var step := Taken(host, timed)[0];
      UntouchedJobs(host.sys, step, head);
      forall f
        ensures !ActiveAt(Next(host.sys, step).db.exposures, Place(f, MergeGroup(head)))
      {
        OnlyCommitsExpose(host.sys, step, Place(f, MergeGroup(head)));
        NothingToExpose(host, step.step, head, f);
      }
    }
  }

  lemma NoWebhookJobBefore(host: Host, timed: HostTimed, head: string)
    requires NoWebhookJob(HostNext(host, timed).sys.db.jobs, head)
    ensures NoWebhookJob(host.sys.db.jobs, head)
  {
    hide HostNext, Next, Taken;
    TakenStep(host, timed);
    if Taken(host, timed) != [] {
      JobsOnlyGrow(host.sys, Taken(host, timed)[0]);
    }
    var a, b := host.sys.db.jobs, HostNext(host, timed).sys.db.jobs;
    forall i | WebhookJob(a, i, head)
      ensures WebhookJob(b, i, head)
    {
      assert SameRow(a[i], b[i]);
    }
  }

  lemma UnscannedHasNoWebhookJob(host: Host, head: string)
    requires Unscanned(host, head)
    ensures NoWebhookJob(host.sys.db.jobs, head) && forall k :: !QueuesAt(host, k, head)
  {
  }

  lemma UnscannedStays(host: Host, timed: HostTimed, head: string)
    requires HostInvariant(host) && Unscanned(host, head)
    requires
      var after := HostNext(host, timed).mergeGroups;
      head in after ==> head in host.mergeGroups || IsDestroyed(after, head)
    ensures Unscanned(HostNext(host, timed), head)
  {
    hide HostNext, HostInvariant, QueuesAt, WebhookJob, Untouched;
    QueuesOfStep(host, timed, head);
    UnscannedHasNoWebhookJob(host, head);
    WebhookJobsOfStep(host, timed, head);
    UntouchedStays(host, timed, head);
  }

  lemma QueueStep(host: Host, timed: HostTimed, head: string)
    requires HostInvariant(host) && QueueInvariant(host, head)
    ensures QueueInvariant(HostNext(host, timed), head)
  {
    hide HostNext, HostInvariant, QueuesAt, WebhookJob, Unscanned, Untouched;
    var after := HostNext(host, timed);
    QueuesOfStep(host, timed, head);
    WebhookJobsOfStep(host, timed, head);
    if NoWebhookJob(after.sys.db.jobs, head) {
      NoWebhookJobBefore(host, timed, head);
      UntouchedStays(host, timed, head);
    }
    if head !in after.mergeGroups {
      UnscannedStays(host, timed, head);
    }
    if head !in host.mergeGroups {
      UnscannedHasNoWebhookJob(host, head);
    }
    DisabledStays(host, timed);
  }

  lemma DisabledStays(host: Host, timed: HostTimed)
    ensures !HostEnabled(host, timed.step) ==> HostNext(host, timed) == host
  {
  }

  lemma {:induction false} QueueInvariantOfRun(steps: seq<HostTimed>, head: string)
    ensures QueueInvariant(HostRun(HOST_START, steps), head)
  {
    hide HostNext, HostInvariant, QueueInvariant;
    if steps == [] {
      NothingQueuedYet(head);
    } else {
      var rest := steps[..|steps| - 1];
      QueueInvariantOfRun(rest, head);
      StartIsRight();
      EveryHostRun(HOST_START, rest);
      QueueStep(HostRun(HOST_START, rest), steps[|steps| - 1], head);
    }
  }

  lemma NothingQueuedYet(head: string)
    ensures QueueInvariant(HOST_START, head)
  {
  }

  /** In every run of the service a merge group gets at most one job from webhooks, and none before it was requested. */
  lemma QueuedOnce(steps: seq<HostTimed>, head: string)
    ensures
      var host := HostRun(HOST_START, steps);
      && OneWebhookJob(host.sys.db.jobs, head)
      && (head !in host.mergeGroups ==> Unscanned(host, head))
  {
    hide HostRun;
    QueueInvariantOfRun(steps, head);
  }

  lemma DestroyedStays(host: Host, timed: HostTimed, head: string)
    requires IsDestroyed(host.mergeGroups, head)
    ensures IsDestroyed(HostNext(host, timed).mergeGroups, head)
  {
    hide Next, Enabled, MayBegin, DispositionOf, AfterClaim, AfterPublish, SlotAt, WorkerRight;
  }

  lemma {:induction false} DestroyedStaysInRuns(host: Host, steps: seq<HostTimed>, head: string)
    requires IsDestroyed(host.mergeGroups, head)
    ensures IsDestroyed(HostRun(host, steps).mergeGroups, head)
  {
    hide HostNext;
    if steps != [] {
      DestroyedStaysInRuns(host, steps[..|steps| - 1], head);
      DestroyedStays(HostRun(host, steps[..|steps| - 1]), steps[|steps| - 1], head);
    }
  }

  lemma {:induction false} UnscannedStaysInRuns(host: Host, steps: seq<HostTimed>, head: string)
    requires HostInvariant(host) && Unscanned(host, head) && head in host.mergeGroups
    ensures Unscanned(HostRun(host, steps), head) && head in HostRun(host, steps).mergeGroups
  {
    hide HostNext, HostInvariant, Unscanned, QueuesAt;
    if steps != [] {
      var rest, last := steps[..|steps| - 1], steps[|steps| - 1];
      UnscannedStaysInRuns(host, rest, head);
      EveryHostRun(host, rest);
      QueuesOfStep(HostRun(host, rest), last, head);
      UnscannedStays(HostRun(host, rest), last, head);
    }
  }

  lemma DestroyedIsRecorded(host: Host, timed: HostTimed, head: string)
    requires timed.step.Deliver? && timed.step.webhook.MergeGroupDestroyedHook? && timed.step.webhook.head == head
    requires HostEnabled(host, timed.step)
    ensures IsDestroyed(HostNext(host, timed).mergeGroups, head)
  {
  }

  /** A merge group whose destroyed event arrives before its request is never queued, scanned or exposed. */
  lemma DestroyedFirstIsNeverScanned(
    before: seq<HostTimed>, destroyed: HostTimed, after: seq<HostTimed>, head: string)
    requires
      var host := HostRun(HOST_START, before);
      && destroyed.step.Deliver? && destroyed.step.webhook.MergeGroupDestroyedHook? && destroyed.step.webhook.head == head
      && HostEnabled(host, destroyed.step) && head !in host.mergeGroups
    ensures Unscanned(HostRun(HOST_START, before + [destroyed] + after), head)
  {
    hide HostRun, HostNext, HostEnabled, HostInvariant, Unscanned;
    var host := HostRun(HOST_START, before);
    StartIsRight();
    EveryHostRun(HOST_START, before);
    QueuedOnce(before, head);
    DestroyedIsRecorded(host, destroyed, head);
    UnscannedStays(host, destroyed, head);
    HostNextKeeps(host, destroyed);
    UnscannedStaysInRuns(HostNext(host, destroyed), after, head);
    HostRunThrough(HOST_START, before, destroyed, after);
  }

  lemma LostBeforeQueued(host: Host, lost: HostTimed, head: string)
    requires QueueInvariant(host, head) && lost.step.Lose? && QueuesAt(host, lost.step.handler, head)
    ensures Unscanned(HostNext(host, lost), head) && head in HostNext(host, lost).mergeGroups
  {
    hide Untouched, WebhookJob, MayBegin, Enabled, Next;
    var after := HostNext(host, lost);
    forall k
      ensures !QueuesAt(after, k, head)
    {
      assert QueuesAt(after, k, head) ==> QueuesAt(host, k, head);
    }
  }

  /**
   The record of a merge group is inserted in one transaction and its job in the
   next. If the handler is lost in between, the group is never queued or scanned
   in any continuation: its redelivered request is a duplicate.
   */
  lemma LostRequestIsNeverScanned(before: seq<HostTimed>, lost: HostTimed, after: seq<HostTimed>, head: string)
    requires lost.step.Lose? && QueuesAt(HostRun(HOST_START, before), lost.step.handler, head)
    ensures Unscanned(HostRun(HOST_START, before + [lost] + after), head)
  {
    hide HostRun, HostNext, HostInvariant, QueueInvariant, QueuesAt, Unscanned;
    var host := HostRun(HOST_START, before);
    StartIsRight();
    EveryHostRun(HOST_START, before);
    QueueInvariantOfRun(before, head);
    LostBeforeQueued(host, lost, head);
    HostNextKeeps(host, lost);
    UnscannedStaysInRuns(HostNext(host, lost), after, head);
    HostRunThrough(HOST_START, before, lost, after);
  }

  lemma RequestPending(k: nat, hook: Webhook)
    requires hook.MergeGroupRequestedHook?
    ensures QueuesAt(HostRun(HOST_START, [HostTimed(Deliver(k, hook, true), 0, 0)]), k, hook.head)
  {
    var deliver := HostTimed(Deliver(k, hook, true), 0, 0);
    assert [deliver][..0] == [];
    assert HostRun(HOST_START, [deliver]) == HostNext(HostRun(HOST_START, []), deliver);
  }

  /** By example: a request is recorded, its handler is lost, and whatever follows, the group has no job. */
  lemma LostRequestSticks(k: nat, hook: Webhook, later: seq<HostTimed>)
    requires hook.MergeGroupRequestedHook?
    ensures
      var steps := [HostTimed(Deliver(k, hook, true), 0, 0)] + [HostTimed(Lose(k), 0, 0)] + later;
      Unscanned(HostRun(HOST_START, steps), hook.head)
  {
    hide HostRun, QueuesAt, Unscanned;
    RequestPending(k, hook);
    LostRequestIsNeverScanned([HostTimed(Deliver(k, hook, true), 0, 0)], HostTimed(Lose(k), 0, 0), later, hook.head);
  }
}
