/** The webhook handlers as methods that update the store, each the transactions of its handler in order. */
module GitHubApp {
  import opened Wrappers
  import opened ScanJobs
  import opened Violations
  import opened LifecycleInvariants
  import opened ControlPlane
  import opened MergeAndReopen
  import opened WebhookHandlers
  import opened Recorder

  class GitHubAppService {
    const recorder: ScanResultRecorder
    var mergeGroups: MergeGroups

    ghost predicate Valid()
      reads this, recorder
    {
      recorder.Valid()
    }

    constructor (recorder: ScanResultRecorder)
      requires recorder.Valid()
      ensures this.recorder == recorder && Valid() && mergeGroups == map[]
    {
      this.recorder := recorder;
      mergeGroups := map[];
    }

    method CancelQueuedGroup(group: GroupKey)
      requires Valid()
      modifies recorder`jobs
      ensures Valid() && recorder.jobs == CancelQueued(old(recorder.jobs), group)
    {
      var n := |recorder.jobs|;
      for i := 0 to n
        invariant |recorder.jobs| == n
        invariant forall k :: 0 <= k < i ==> recorder.jobs[k] == CancelledRow(old(recorder.jobs)[k], group)
        invariant forall k :: i <= k < n ==> recorder.jobs[k] == old(recorder.jobs)[k]
      {
        if recorder.jobs[i].request.groupKey == group && recorder.jobs[i].state == Queued {
          recorder.jobs := recorder.jobs[i := recorder.jobs[i].(state := Cancelled)];
        }
      }
    }

    method PullRequest(event: PullRequestWebhook, monitoring: bool, now: Moment)
      requires Valid()
      modifies this, recorder
      ensures Valid()
      ensures (recorder.State(), mergeGroups)
           == Handle(old(recorder.State()), old(mergeGroups), PullRequestHook(event), monitoring, now)
    {
      hide Complete, Trails;
      Handled(recorder.State(), mergeGroups, PullRequestHook(event), monitoring, now);
      match DispositionOf(event)
      case Ignore =>
      case CloseIt =>
        CancelQueuedGroup(PullRequestGroup(event.number));
        recorder.PullRequestClosed(event.number, false, "", now);
      case RecordMerge =>
        recorder.PullRequestClosed(event.number, true, event.baseRef, now);
      case ScanIt =>
        if monitoring {
          var (jobs, created) := CreateJob(recorder.jobs, RequestOf(event));
          recorder.jobs := jobs;
          if event.action == ReopenedAction && !created {
            recorder.PullRequestReopened(event.number, now);
          }
        }
    }

    method Push(ref: string, before: string, after: Option<string>, delivery: string, monitoring: bool, now: Moment)
      requires Valid()
      modifies this, recorder
      ensures Valid()
      ensures (recorder.State(), mergeGroups)
           == Handle(old(recorder.State()), old(mergeGroups), PushHook(ref, before, after, delivery), monitoring, now)
    {
      hide Complete, Trails;
      Handled(recorder.State(), mergeGroups, PushHook(ref, before, after, delivery), monitoring, now);
      if BRANCH_PREFIX <= ref {
        if after.None? {
          recorder.BranchDeleted(ref, now);
        } else if monitoring {
          recorder.jobs := CreateJob(recorder.jobs, PushRequest(ref, before, after.value, delivery)).0;
        }
      }
    }

    method MergeGroupRequested(
      headRef: string, base: string, head: string, baseRef: string, delivery: string, monitoring: bool, now: Moment)
      requires Valid()
      modifies this, recorder
      ensures Valid()
      ensures (recorder.State(), mergeGroups)
           == Handle(old(recorder.State()), old(mergeGroups), MergeGroupRequestedHook(headRef, base, head, baseRef, delivery), monitoring, now)
    {
      hide Complete, Trails;
      Handled(recorder.State(), mergeGroups, MergeGroupRequestedHook(headRef, base, head, baseRef, delivery), monitoring, now);
      if monitoring && head !in mergeGroups {
        mergeGroups := mergeGroups[head := ChecksRequested];
        recorder.jobs := CreateJob(recorder.jobs, MergeGroupRequest(headRef, base, head, baseRef, delivery)).0;
      }
    }

    method MergeGroupDestroyed(head: string, reason: string, baseRef: string, monitoring: bool, now: Moment)
      requires Valid()
      modifies this, recorder
      ensures Valid()
      ensures (recorder.State(), mergeGroups)
           == Handle(old(recorder.State()), old(mergeGroups), MergeGroupDestroyedHook(head, reason, baseRef), monitoring, now)
    {
      hide Complete, Trails;
      Handled(recorder.State(), mergeGroups, MergeGroupDestroyedHook(head, reason, baseRef), monitoring, now);
      if head in mergeGroups && mergeGroups[head] == Destroyed {
        return;
      }
      mergeGroups := mergeGroups[head := Destroyed];
      CancelQueuedGroup(MergeGroup(head));
      recorder.MergeGroupDestroyed(head, reason, baseRef, now);
    }
  }

  // ---------------------------------------------------------------- closing and reopening

  lemma {:induction false} CancelKeepsCompleted(jobs: Jobs, group: GroupKey, key: JobKey)
    ensures
      var p := SameJobKey(key);
      var latest := Latest(jobs, p);
      && Latest(CancelQueued(jobs, group), p) == latest
      && (latest.Some? && Completed(jobs[latest.value]) ==> CancelQueued(jobs, group)[latest.value] == jobs[latest.value])
  {
    if jobs != [] {
      var n := |jobs| - 1;
      assert CancelQueued(jobs, group)[..n] == CancelQueued(jobs[..n], group);
      CancelKeepsCompleted(jobs[..n], group, key);
    }
  }

  lemma CloseHandled(db: Db, groups: MergeGroups, close: PullRequestWebhook, now: Moment)
    requires close.action == ClosedAction && !close.merged
    ensures
      var cancelled := db.(jobs := CancelQueued(db.jobs, PullRequestGroup(close.number)));
      Handle(db, groups, PullRequestHook(close), true, now) == (PullRequestClosed(cancelled, close.number, false, "", now), groups)
  {
    hide Complete, EndAndMove;
    Handled(db, groups, PullRequestHook(close), true, now);
  }

  lemma DuplicateReopenHandled(db: Db, groups: MergeGroups, reopen: PullRequestWebhook, now: Moment)
    requires reopen.action == ReopenedAction && CreateJob(db.jobs, RequestOf(reopen)) == (db.jobs, false)
    ensures Handle(db, groups, PullRequestHook(reopen), true, now) == (PullRequestReopened(db, reopen.number, now), groups)
  {
    hide Complete, PullRequestReopened;
    Handled(db, groups, PullRequestHook(reopen), true, now);
  }

  /**
   Closing a pull request and reopening it on commits whose scan had completed
   scans nothing and, when no earlier close left marks behind, gives back exactly
   the active violations.
   */
  lemma ReopenOnScannedCommits(
    db: Db, groups: MergeGroups, close: PullRequestWebhook, reopen: PullRequestWebhook, t1: Moment, t2: Moment)
    requires close.action == ClosedAction && !close.merged && reopen.action == ReopenedAction && reopen.number == close.number
    requires
      var latest := Latest(db.jobs, SameJobKey(RequestOf(reopen).jobKey));
      latest.Some? && Completed(db.jobs[latest.value])
    ensures
      var closed := Handle(db, groups, PullRequestHook(close), true, t1).0;
      var after := Handle(closed, groups, PullRequestHook(reopen), true, t2).0;
      && after.jobs == CancelQueued(db.jobs, PullRequestGroup(close.number))
      && (ActiveIn(after.exposures, PullRequestGroup(close.number)) == ActiveIn(db.exposures, PullRequestGroup(close.number))
          <==> ClosedUnmergedIn(db.exposures, close.number) == {})
  {
    hide ClosedUnmergedIn, ActiveIn, CloseIn, Handle;
    var number := close.number;
    CancelKeepsCompleted(db.jobs, PullRequestGroup(number), RequestOf(reopen).jobKey);
    var cancelled := db.(jobs := CancelQueued(db.jobs, PullRequestGroup(number)));
    CloseHandled(db, groups, close, t1);
    DuplicateReopenHandled(PullRequestClosed(cancelled, number, false, "", t1), groups, reopen, t2);
    ReopeningRestoresIff(cancelled, number, t1, t2);
  }
}
