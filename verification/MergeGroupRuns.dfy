/**
 What runs of the service do to one merge group: it is queued at most once and
 its exposures are ended at most once. What is still exposed, or becomes exposed,
 after that stays exposed.
 */
module MergeGroupRuns {
  import opened Wrappers
  import opened Decision
  import opened ScanJobs
  import opened Violations
  import opened LifecycleInvariants
  import opened ScanCompletion
  import opened ControlPlane
  import opened ScanOrder
  import opened WebhookHandlers
  import opened WebhookRuns

  predicate Destroys(step: Step, head: string) {
    step.External? && step.event.DestroyMergeGroup? && step.event.head == head
  }

  ghost predicate Ended(steps: seq<Timed>, head: string) {
    exists i :: 0 <= i < |steps| && Destroys(steps[i].step, head)
  }

  // ---------------------------------------------------------------- only its own event ends a merge group

  /** Nothing but its own destroyed event ends a merge group exposure. */
  lemma MergeGroupExposureStays(sys: System, timed: Timed, place: Place)
    requires forall w :: w in sys.inFlight ==> PendingRight(sys.db, sys.inFlight[w])
    requires place.group.MergeGroup? && ActiveAt(sys.db.exposures, place) && !Destroys(timed.step, place.group.head)
    ensures ActiveAt(Next(sys, timed).db.exposures, place)
  {
    hide CommitScan, DbAfter, ActiveAt, PendingRight;
    var now := MomentOf(sys, timed);
    if Enabled(sys, timed.step) {
      match timed.step
      case OnJobs(_) =>
      case Snapshot(_, _, _, _, _, _) =>
      case Commit(worker) =>
        var p := sys.inFlight[worker];
        CommitNeverClosesMergeGroups(sys.db, p, now, place);
      case External(event) => EventKeepsMergeGroup(sys.db, event, now, place);
    }
  }

  lemma CommitNeverClosesMergeGroups(db: Db, p: Pending, now: Moment, place: Place)
    requires PendingRight(db, p) && place.group.MergeGroup? && ActiveAt(db.exposures, place)
    ensures ActiveAt(CommitScan(db, p.job, p.scan, p.gone, now).exposures, place)
  {
    CommitScanActive(db, p.job, p.scan, p.gone, now);
  }

  /** Events of other groups leave a merge group as it is. */
  lemma EventAndMergeGroup(db: Db, event: LifecycleEvent, now: Moment, place: Place)
    requires place.group.MergeGroup? && !Destroys(External(event), place.group.head)
    ensures ActiveAt(DbAfter(db, event, now).exposures, place) <==> ActiveAt(db.exposures, place)
  {
    match event
    case ClosePullRequest(n, merged, baseRef) =>
      EndAndMoveActive(db, PullRequestGroup(n), if merged then MergedInto(n, baseRef) else ClosedUnmerged(n),
                       if merged && baseRef != "" then Some(baseRef) else None, now);
    case ReopenPullRequest(n) =>
    case DestroyMergeGroup(head, reason, baseRef) =>
      EndAndMoveActive(db, MergeGroup(head), if reason == MERGED then MergeGroupMerged(head, baseRef) else MergeGroupGone(head, reason),
                       if reason == MERGED then Some(baseRef) else None, now);
    case DeleteBranch(ref) => EndAndMoveActive(db, BranchGroup(ref), BranchDeletedReason(ref), None, now);
    case AcknowledgeViolation(_) =>
    case Unacknowledge(_) =>
  }

  lemma EventKeepsMergeGroup(db: Db, event: LifecycleEvent, now: Moment, place: Place)
    requires place.group.MergeGroup? && ActiveAt(db.exposures, place) && !Destroys(External(event), place.group.head)
    ensures ActiveAt(DbAfter(db, event, now).exposures, place)
  {
    EventAndMergeGroup(db, event, now, place);
  }

  lemma {:induction false} MergeGroupExposureStaysInRuns(sys: System, steps: seq<Timed>, place: Place)
    requires SystemInvariant(sys) && place.group.MergeGroup? && ActiveAt(sys.db.exposures, place)
    requires forall t :: t in steps ==> !Destroys(t.step, place.group.head)
    ensures ActiveAt(Run(sys, steps).db.exposures, place)
  {
    if steps != [] {
      var rest := steps[..|steps| - 1];
      assert forall t :: t in rest ==> t in steps;
      MergeGroupExposureStaysInRuns(sys, rest, place);
      EveryRun(sys, rest);
      MergeGroupExposureStays(Run(sys, rest), steps[|steps| - 1], place);
    }
  }

  /** A commit that exposes the violation in its own group. */
  ghost predicate Exposes(sys: System, step: Step, place: Place) {
    && step.Commit? && Enabled(sys, step)
    && var p := sys.inFlight[step.worker];
       && JobGroup(sys.db.jobs[p.job]) == place.group
       && !NewerScanCompleted(sys.db.jobs, p.job)
       && place.violation in Tracked(p.scan.findings)
  }

  /** An inactive merge group exposure becomes active by such a commit and by nothing else. */
  lemma OnlyCommitsExpose(sys: System, timed: Timed, place: Place)
    requires place.group.MergeGroup? && !ActiveAt(sys.db.exposures, place)
    ensures ActiveAt(Next(sys, timed).db.exposures, place) <==> Exposes(sys, timed.step, place)
  {
    hide CommitScan, DbAfter, ActiveAt, NewerScanCompleted, Tracked, JobGroup;
    var now := MomentOf(sys, timed);
    if Enabled(sys, timed.step) {
      match timed.step
      case OnJobs(_) =>
      case Snapshot(_, _, _, _, _, _) =>
      case Commit(worker) =>
        var p := sys.inFlight[worker];
        CommitScanActive(sys.db, p.job, p.scan, p.gone, now);
      case External(event) =>
        if Destroys(timed.step, place.group.head) {
          EndAndMoveActive(sys.db, place.group, if event.reason == MERGED then MergeGroupMerged(event.head, event.baseRef)
                                                else MergeGroupGone(event.head, event.reason),
                           if event.reason == MERGED then Some(event.baseRef) else None, now);
          EndedIsInactive(sys.db, event, now, place);
        } else {
          EventAndMergeGroup(sys.db, event, now, place);
        }
    }
  }

  lemma EndedIsInactive(db: Db, event: LifecycleEvent, now: Moment, place: Place)
    requires event.DestroyMergeGroup? && place.group == MergeGroup(event.head)
    ensures !ActiveAt(DbAfter(db, event, now).exposures, place)
  {
    EndAndMoveActive(db, place.group, if event.reason == MERGED then MergeGroupMerged(event.head, event.baseRef)
                                      else MergeGroupGone(event.head, event.reason),
                     if event.reason == MERGED then Some(event.baseRef) else None, now);
  }

  // ---------------------------------------------------------------- its exposures are ended at most once

  /** The handler has yet to end the exposures of the merge group. */
  predicate EndsAt(host: Host, k: nat, head: string) {
    && k in host.handlers && (host.handlers[k].Cancelling? || host.handlers[k].Ending?)
    && Destroys(External(host.handlers[k].event), head)
  }

  /** Marked destroyed, and no handler is left to end its exposures. */
  ghost predicate Settled(host: Host, head: string) {
    IsDestroyed(host.mergeGroups, head) && forall k :: !EndsAt(host, k, head)
  }

  ghost predicate EndInvariant(host: Host, head: string) {
    && (forall k, l :: EndsAt(host, k, head) && EndsAt(host, l, head) ==> k == l)
    && (forall k :: EndsAt(host, k, head) ==> IsDestroyed(host.mergeGroups, head))
  }

  /** Which handlers have yet to end a group after a step: those from before, or one for a group marked by the step. */
  lemma EndersOfStep(host: Host, timed: HostTimed, head: string)
    ensures forall k :: EndsAt(HostNext(host, timed), k, head) ==>
      || (EndsAt(host, k, head) && !(timed.step == Continue(k) && HostEnabled(host, timed.step) && host.handlers[k].Ending?))
      || (!IsDestroyed(host.mergeGroups, head) && IsDestroyed(HostNext(host, timed).mergeGroups, head)
          && timed.step.Deliver? && timed.step.handler == k)
    ensures IsDestroyed(host.mergeGroups, head) ==> IsDestroyed(HostNext(host, timed).mergeGroups, head)
  {
    hide Next, Enabled, MayBegin, DispositionOf, AfterClaim, AfterPublish, SlotAt;
  }

  /** Only the last transaction of such a handler ends the exposures of the group. */
  lemma EndsByHandler(host: Host, timed: HostTimed, head: string)
    requires Ended(Taken(host, timed), head)
    ensures timed.step.Continue? && HostEnabled(host, timed.step)
    ensures EndsAt(host, timed.step.handler, head) && host.handlers[timed.step.handler].Ending?
  {
    hide Enabled, MayBegin;
  }

  lemma SettledStays(host: Host, timed: HostTimed, head: string)
    requires Settled(host, head)
    ensures Settled(HostNext(host, timed), head) && !Ended(Taken(host, timed), head)
  {
    hide HostNext, HostEnabled, Taken, Ended, EndsAt;
    EndersOfStep(host, timed, head);
    if Ended(Taken(host, timed), head) {
      EndsByHandler(host, timed, head);
    }
  }

  lemma EndStep(host: Host, timed: HostTimed, head: string)
    requires EndInvariant(host, head)
    ensures EndInvariant(HostNext(host, timed), head)
    ensures Ended(Taken(host, timed), head) ==> Settled(HostNext(host, timed), head)
  {
    hide HostNext, HostEnabled, Taken, Ended, EndsAt;
    EndersOfStep(host, timed, head);
    if Ended(Taken(host, timed), head) {
      EndsByHandler(host, timed, head);
    }
  }

  lemma EndedConcat(a: seq<Timed>, b: seq<Timed>, head: string)
    ensures Ended(a + b, head) <==> Ended(a, head) || Ended(b, head)
  {
    forall i | 0 <= i < |a + b| && Destroys((a + b)[i].step, head)
      ensures Ended(a, head) || Ended(b, head)
    {
      if i < |a| {
        assert Destroys(a[i].step, head);
      } else {
        assert Destroys(b[i - |a|].step, head);
      }
    }
    forall i | 0 <= i < |a| && Destroys(a[i].step, head)
      ensures Ended(a + b, head)
    {
      assert (a + b)[i] == a[i];
    }
    forall i | 0 <= i < |b| && Destroys(b[i].step, head)
      ensures Ended(a + b, head)
    {
      assert (a + b)[|a| + i] == b[i];
    }
  }

  lemma {:induction false} SettledStaysInRuns(host: Host, steps: seq<HostTimed>, head: string)
    requires Settled(host, head)
    ensures Settled(HostRun(host, steps), head) && !Ended(TakenAll(host, steps), head)
  {
    hide HostNext, Taken, Settled, Ended;
    if steps == [] {
      NothingEnded(head);
    } else {
      var rest := steps[..|steps| - 1];
      SettledStaysInRuns(host, rest, head);
      SettledStays(HostRun(host, rest), steps[|steps| - 1], head);
      EndedConcat(TakenAll(host, rest), Taken(HostRun(host, rest), steps[|steps| - 1]), head);
    }
  }

  lemma NothingEnded(head: string)
    ensures !Ended([], head)
  {
  }

  ghost predicate EndedOnce(steps: seq<Timed>, head: string) {
    forall i, j :: 0 <= i < j < |steps| ==> !(Destroys(steps[i].step, head) && Destroys(steps[j].step, head))
  }

  lemma EndedOnceMore(a: seq<Timed>, b: seq<Timed>, head: string)
    requires EndedOnce(a, head) && |b| <= 1 && !(Ended(a, head) && Ended(b, head))
    ensures EndedOnce(a + b, head)
  {
    var all := a + b;
    forall i, j | 0 <= i < j < |all|
      ensures !(Destroys(all[i].step, head) && Destroys(all[j].step, head))
    {
      assert i < |a| && all[i] == a[i];
      assert all[j] == if j < |a| then a[j] else b[0];
    }
  }

  lemma TakesOne(host: Host, timed: HostTimed)
    ensures |Taken(host, timed)| <= 1
  {
    hide Enabled, MayBegin, StepOf;
  }

  /**
   In every run of the service the exposures of a merge group are ended at most
   once, and only after it was marked destroyed, however many destroyed events
   arrive and whichever handlers are lost.
   */
  lemma {:induction false} DestroyedOnce(steps: seq<HostTimed>, head: string)
    ensures EndedOnce(TakenAll(HOST_START, steps), head) && EndInvariant(HostRun(HOST_START, steps), head)
    ensures Ended(TakenAll(HOST_START, steps), head) ==> Settled(HostRun(HOST_START, steps), head)
  {
    hide HostNext, Taken, EndInvariant, Settled, Ended, EndedOnce;
    if steps == [] {
      NothingEndedYet(head);
    } else {
      var rest, last := steps[..|steps| - 1], steps[|steps| - 1];
      DestroyedOnce(rest, head);
      var host := HostRun(HOST_START, rest);
      EndStep(host, last, head);
      TakesOne(host, last);
      if Ended(TakenAll(HOST_START, rest), head) {
        SettledStays(host, last, head);
      }
      EndedConcat(TakenAll(HOST_START, rest), Taken(host, last), head);
      EndedOnceMore(TakenAll(HOST_START, rest), Taken(host, last), head);
    }
  }

  lemma NothingEndedYet(head: string)
    ensures EndedOnce([], head) && !Ended([], head) && EndInvariant(HOST_START, head)
  {
  }

  lemma NotEndedIn(steps: seq<Timed>, head: string)
    requires !Ended(steps, head)
    ensures forall t :: t in steps ==> !Destroys(t.step, head)
  {
    forall t | t in steps
      ensures !Destroys(t.step, head)
    {
      var i :| 0 <= i < |steps| && steps[i] == t;
    }
  }

  /**
   Once a merge group is marked destroyed and no handler is left to end it - it
   ended already, or the handler was lost - whatever is exposed in it stays
   exposed in every continuation.
   */
  lemma SettledExposureStays(host: Host, steps: seq<HostTimed>, head: string, f: Fingerprint)
    requires HostInvariant(host) && Settled(host, head) && ActiveAt(host.sys.db.exposures, Place(f, MergeGroup(head)))
    ensures ActiveAt(HostRun(host, steps).sys.db.exposures, Place(f, MergeGroup(head)))
  {
    hide SystemInvariant, Settled, Ended, ActiveAt, Run, HostRun, TakenAll;
    SettledStaysInRuns(host, steps, head);
    NotEndedIn(TakenAll(host, steps), head);
    HostRunIsRun(host, steps);
    MergeGroupExposureStaysInRuns(host.sys, TakenAll(host, steps), Place(f, MergeGroup(head)));
  }

  // ---------------------------------------------------------------- scans that commit afterwards

  /** The host step is a commit that exposes the violation in the merge group. */
  ghost predicate ExposesLate(host: Host, timed: HostTimed, place: Place) {
    timed.step.Work? && Exposes(host.sys, timed.step.step, place)
  }

  /** The lifecycle step of a host step exposes something exactly if the host step is such a commit. */
  lemma TakenExposes(host: Host, timed: HostTimed, place: Place)
    ensures ExposesLate(host, timed, place) <==> Taken(host, timed) != [] && Exposes(host.sys, Taken(host, timed)[0].step, place)
  {
    hide MayBegin, JobGroup, NewerScanCompleted, Tracked, RowsRead, JobStepEnabled;
  }

  lemma PendingOfHost(host: Host)
    requires HostInvariant(host)
    ensures forall w :: w in host.sys.inFlight ==> PendingRight(host.sys.db, host.sys.inFlight[w])
  {
  }

  lemma SettledStep(host: Host, timed: HostTimed, head: string, f: Fingerprint)
    requires HostInvariant(host) && Settled(host, head)
    ensures
      var place := Place(f, MergeGroup(head));
      ActiveAt(HostNext(host, timed).sys.db.exposures, place)
      <==> ActiveAt(host.sys.db.exposures, place) || ExposesLate(host, timed, place)
  {
    hide HostNext, Next, Taken, Settled, Exposes, ExposesLate, ActiveAt, Ended, SystemInvariant;
    var place := Place(f, MergeGroup(head));
    SettledStays(host, timed, head);
    NotEndedIn(Taken(host, timed), head);
    TakenStep(host, timed);
    TakenExposes(host, timed, place);
    if Taken(host, timed) != [] {
      var step := Taken(host, timed)[0];
      if ActiveAt(host.sys.db.exposures, place) {
        PendingOfHost(host);
        MergeGroupExposureStays(host.sys, step, place);
      } else {
        OnlyCommitsExpose(host.sys, step, place);
      }
    }
  }

  ghost predicate ExposedLate(host: Host, steps: seq<HostTimed>, place: Place) {
    exists i :: 0 <= i < |steps| && ExposesLate(HostRun(host, steps[..i]), steps[i], place)
  }

  lemma ExposedLateMore(host: Host, steps: seq<HostTimed>, place: Place)
    requires steps != []
    ensures
      var rest := steps[..|steps| - 1];
      ExposedLate(host, steps, place) <==> ExposedLate(host, rest, place) || ExposesLate(HostRun(host, rest), steps[|steps| - 1], place)
  {
    hide ExposesLate, HostRun;
    var n := |steps| - 1;
    var rest := steps[..n];
    forall i | 0 <= i < n
      ensures rest[..i] == steps[..i] && rest[i] == steps[i]
    {
    }
    if ExposedLate(host, steps, place) {
      var i :| 0 <= i < |steps| && ExposesLate(HostRun(host, steps[..i]), steps[i], place);
      assert i < n ==> ExposesLate(HostRun(host, rest[..i]), rest[i], place);
    }
    if ExposedLate(host, rest, place) {
      var i :| 0 <= i < |rest| && ExposesLate(HostRun(host, rest[..i]), rest[i], place);
      assert ExposesLate(HostRun(host, steps[..i]), steps[i], place);
    }
  }

  lemma {:induction false} SettledRun(host: Host, steps: seq<HostTimed>, head: string, f: Fingerprint)
    requires HostInvariant(host) && Settled(host, head)
    ensures
      var place := Place(f, MergeGroup(head));
      ActiveAt(HostRun(host, steps).sys.db.exposures, place)
      <==> ActiveAt(host.sys.db.exposures, place) || ExposedLate(host, steps, place)
  {
    hide HostInvariant, HostNext, Settled, ActiveAt, ExposesLate, ExposedLate;
    if steps == [] {
      NoneLate(host, Place(f, MergeGroup(head)));
    } else {
      var rest := steps[..|steps| - 1];
      SettledRun(host, rest, head, f);
      EveryHostRun(host, rest);
      SettledStaysInRuns(host, rest, head);
      SettledStep(HostRun(host, rest), steps[|steps| - 1], head, f);
      ExposedLateMore(host, steps, Place(f, MergeGroup(head)));
    }
  }

  lemma NoneLate(host: Host, place: Place)
    ensures !ExposedLate(host, [], place)
  {
  }

  /** The step that ends the exposures of a merge group, in the state it is taken. */
  predicate EndsGroup(host: Host, timed: HostTimed, head: string) {
    timed.step.Continue? && EndsAt(host, timed.step.handler, head) && host.handlers[timed.step.handler].Ending?
  }

  /** Right after its destroyed event, a merge group exposes nothing, and nothing will end it again. */
  lemma AfterTheEnd(host: Host, end: HostTimed, head: string, f: Fingerprint)
    requires HostInvariant(host) && EndInvariant(host, head) && EndsGroup(host, end, head)
    ensures Settled(HostNext(host, end), head)
    ensures !ActiveAt(HostNext(host, end).sys.db.exposures, Place(f, MergeGroup(head)))
  {
    hide Next, Enabled, SystemInvariant, Settled, EndInvariant, MayBegin, ActiveAt, AfterClaim, AfterPublish, SlotAt, WorkerRight;
    EndStep(host, end, head);
    var step := Timed(StepOf(host.handlers[end.step.handler]), end.elapsed, end.lag);
    assert Taken(host, end) == [step] && Destroys(Taken(host, end)[0].step, head);
    NextOfEvent(host.sys, step);
    EndedIsInactive(host.sys.db, step.step.event, MomentOf(host.sys, step), Place(f, MergeGroup(head)));
  }

  /**
   After the destroyed event of a merge group has ended its exposures, in any
   run: a violation is exposed in it again if and only if a scan of the group that
   had begun before committed late, with the violation and before any newer scan
   of the group. It then stays exposed.
   */
  lemma LateMergeGroupScan(before: seq<HostTimed>, end: HostTimed, after: seq<HostTimed>, head: string, f: Fingerprint)
    requires EndsGroup(HostRun(HOST_START, before), end, head)
    ensures
      var ended := HostNext(HostRun(HOST_START, before), end);
      ActiveAt(HostRun(HOST_START, before + [end] + after).sys.db.exposures, Place(f, MergeGroup(head)))
      <==> ExposedLate(ended, after, Place(f, MergeGroup(head)))
  {
    hide HostNext, HostRun, HostInvariant, EndInvariant, Settled, ActiveAt, ExposedLate, EndsGroup;
    var host := HostRun(HOST_START, before);
    StartIsRight();
    EveryHostRun(HOST_START, before);
    DestroyedOnce(before, head);
    AfterTheEnd(host, end, head, f);
    HostNextKeeps(host, end);
    SettledRun(HostNext(host, end), after, head, f);
    HostRunThrough(HOST_START, before, end, after);
  }

  lemma HostRunThrough(host: Host, before: seq<HostTimed>, timed: HostTimed, after: seq<HostTimed>)
    ensures HostRun(host, before + [timed] + after) == HostRun(HostNext(HostRun(host, before), timed), after)
  {
    hide HostNext;
    HostRunConcat(host, before + [timed], after);
    assert (before + [timed])[..|before|] == before;
  }
}
