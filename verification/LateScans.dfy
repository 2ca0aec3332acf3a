/** When a merge group scan can still commit after its group was destroyed, and a run in which it does. */
module LateScans {
  import opened Wrappers
  import opened Decision
  import opened ScanJobs
  import opened Violations
  import opened LifecycleInvariants
  import opened ScanCompletion
  import opened ControlPlane
  import opened ScanOrder
  import opened WebhookHandlers
  import opened WebhookRuns
  import opened MergeGroupRuns
  import opened MergeGroupScans

  /** No newer job stands in the worker's way to the check run it still has to claim or to publish to. */
  predicate MayPublish(owners: Owners, slot: Slot, worker: Worker) {
    match worker
    case Began(job) => slot in owners ==> owners[slot] <= job
    case Claimed(job) => slot in owners && owners[slot] == job
    case Published(_) => true
  }

  /**
   A worker that began a scan of the group, still the newest, may publish its
   result, and is not about to commit one without the violation.
   */
  ghost predicate MayExpose(host: Host, w: nat, head: string, f: Fingerprint) {
    && w in host.workers && host.workers[w].job < |host.sys.db.jobs|
    && JobGroup(host.sys.db.jobs[host.workers[w].job]) == MergeGroup(head)
    && !NewerScanCompleted(host.sys.db.jobs, host.workers[w].job)
    && MayPublish(host.owners, SlotAt(host, w), host.workers[w])
    && (w in host.sys.inFlight ==> f in Tracked(host.sys.inFlight[w].scan.findings))
  }

  // ---------------------------------------------------------------- nobody may, and nobody ever will

  lemma CompletedStays(a: Jobs, b: Jobs, job: nat, group: GroupKey, trigger: Trigger)
    requires Appends(a, b, group, trigger) && job < |a|
    ensures NewerScanCompleted(a, job) ==> NewerScanCompleted(b, job)
    ensures JobGroup(b[job]) == JobGroup(a[job]) && SlotOf(b[job]) == SlotOf(a[job])
  {
    assert SameRow(a[job], b[job]);
    if NewerScanCompleted(a, job) {
      var t :| job < t < |a| && a[t].request.groupKey == a[job].request.groupKey && Completed(a[t]);
      assert SameRow(a[t], b[t]) && Completed(b[t]);
    }
  }

  lemma NewerStays(host: Host, timed: HostTimed, job: nat)
    requires job < |host.sys.db.jobs|
    ensures
      var a, b := host.sys.db.jobs, HostNext(host, timed).sys.db.jobs;
      && job < |b| && JobGroup(b[job]) == JobGroup(a[job]) && SlotOf(b[job]) == SlotOf(a[job])
      && (NewerScanCompleted(a, job) ==> NewerScanCompleted(b, job))
  {
    hide HostNext, Next, Taken, NewerScanCompleted, JobGroup, SlotOf;
    TakenStep(host, timed);
    if Taken(host, timed) != [] {
      var step := Taken(host, timed)[0];
      NewerStaysNext(host.sys, step, job);
    }
  }

  lemma NewerStaysNext(sys: System, timed: Timed, job: nat)
    requires job < |sys.db.jobs|
    ensures
      var a, b := sys.db.jobs, Next(sys, timed).db.jobs;
      && job < |b| && JobGroup(b[job]) == JobGroup(a[job]) && SlotOf(b[job]) == SlotOf(a[job])
      && (NewerScanCompleted(a, job) ==> NewerScanCompleted(b, job))
  {
    hide Next, RowsRead, NewerScanCompleted, JobGroup, SlotOf, Appends, FirstRequest;
    StepAppends(sys, timed);
    NextGrows(sys, timed);
    var a, b := sys.db.jobs, Next(sys, timed).db.jobs;
    if !Enabled(sys, timed.step) || !timed.step.OnJobs? {
      CompletedStays(a, b, job, PullRequestGroup(0), Trigger.Webhook);
    } else {
      match timed.step.step
      case Enqueue(request) => CompletedStays(a, b, job, request.groupKey, TriggerOf(request));
      case Execute(previous, trigger, _, _) => CompletedStays(a, b, job, a[previous].request.groupKey, trigger);
      case _ => CompletedStays(a, b, job, PullRequestGroup(0), Trigger.Webhook);
    }
  }

  /** A worker does not begin a scan of a destroyed merge group. */
  lemma DestroyedIsNotBegun(host: Host, job: nat, head: string)
    requires WellFormed(host.sys.db.jobs) && IsDestroyed(host.mergeGroups, head) && MayBegin(host, job)
    ensures job < |host.sys.db.jobs| && JobGroup(host.sys.db.jobs[job]) != MergeGroup(head)
  {
    assert Describes(host.sys.db.jobs[job].request, host.sys.db.jobs[job].scanKey);
  }

  lemma ClaimMovesOn(owners: Owners, slot: Slot, job: nat)
    ensures
      var worker := AfterClaim(owners, slot, job).1;
      worker.Some? ==> worker.value == Claimed(job) && MayPublish(owners, slot, Began(job))
  {
  }

  lemma PublishMovesOn(owners: Owners, slot: Slot, job: nat)
    ensures
      var worker := AfterPublish(owners, slot, job);
      worker.Some? ==> worker.value == Published(job) && MayPublish(owners, slot, Claimed(job))
  {
  }

  /** What a step does to one worker: nothing, begin it, or move it on if no newer job is in its way. */
  lemma WorkerOfStep(host: Host, timed: HostTimed, w: nat)
    requires w in HostNext(host, timed).workers
    ensures
      var after := HostNext(host, timed);
      || (w in host.workers && after.workers[w] == host.workers[w])
      || (HostEnabled(host, timed.step) && timed.step == Begin(w, after.workers[w].job) && after.workers[w].Began?)
      || (w in host.workers && !host.workers[w].Published? && after.workers[w].job == host.workers[w].job
          && host.workers[w].job < |host.sys.db.jobs| && MayPublish(host.owners, SlotAt(host, w), host.workers[w]))
  {
    hide Next, Receive, Rest, MayBegin, Enabled, SlotAt, IsWork, Sound, AfterClaim, AfterPublish, MayPublish;
    if HostEnabled(host, timed.step) {
      match timed.step
      case Claim(v) => ClaimMovesOn(host.owners, SlotAt(host, v), host.workers[v].job);
      case Publish(v) => PublishMovesOn(host.owners, SlotAt(host, v), host.workers[v].job);
      case _ =>
    }
  }

  lemma OwnersOfStep(host: Host, timed: HostTimed)
    ensures OwnersGrow(host.owners, HostNext(host, timed).owners)
  {
    hide Next, Receive, Rest, MayBegin, Enabled, SlotOf;
  }

  lemma InFlightBefore(host: Host, timed: HostTimed, w: nat)
    requires w in host.sys.inFlight && w in HostNext(host, timed).workers
    requires HostInvariant(host)
    ensures w in HostNext(host, timed).sys.inFlight
            && HostNext(host, timed).sys.inFlight[w] == host.sys.inFlight[w]
  {
    hide SystemInvariant, Receive, Rest, MayBegin, CommitScan, DbAfter, JobsAfter, AskGit, MomentOf, AfterClaim, AfterPublish, SlotOf, WorkerRight;
  }

  /** A worker a newer job stands in the way of stays stopped. */
  lemma StoppedStays(a: Owners, b: Owners, slot: Slot, worker: Worker)
    requires OwnersGrow(a, b) && !MayPublish(a, slot, worker)
    requires !worker.Began? ==> slot in a && a[slot] >= worker.job
    ensures !MayPublish(b, slot, worker)
  {
  }

  lemma OneWorkerStays(host: Host, timed: HostTimed, head: string, f: Fingerprint, w: nat)
    requires HostInvariant(host) && !MayExpose(host, w, head, f) && w in HostNext(host, timed).workers
    requires w in host.workers && HostNext(host, timed).workers[w] == host.workers[w]
    ensures !MayExpose(HostNext(host, timed), w, head, f)
  {
    hide HostNext, SystemInvariant, JobGroup, NewerScanCompleted, Tracked, SlotOf, OwnersGrow, MayPublish;
    assert WorkerRight(host.sys.db.jobs, host.owners, host.workers[w]);
    NewerStays(host, timed, host.workers[w].job);
    OwnersOfStep(host, timed);
    if w in host.sys.inFlight {
      InFlightBefore(host, timed, w);
    }
    if !MayPublish(host.owners, SlotAt(host, w), host.workers[w]) {
      StoppedStays(host.owners, HostNext(host, timed).owners, SlotAt(host, w), host.workers[w]);
    }
  }

  lemma NobodyStays(host: Host, timed: HostTimed, head: string, f: Fingerprint)
    requires HostInvariant(host) && IsDestroyed(host.mergeGroups, head) && forall w :: !MayExpose(host, w, head, f)
    ensures forall w :: !MayExpose(HostNext(host, timed), w, head, f)
  {
    hide HostNext, SystemInvariant, MayBegin, JobGroup, NewerScanCompleted, Tracked, SlotOf, MayPublish, WorkerRight, HostEnabled;
    var after := HostNext(host, timed);
    forall w
      ensures !MayExpose(after, w, head, f)
    {
      assert !MayExpose(host, w, head, f);
      if w in after.workers {
        WorkerOfStep(host, timed, w);
        if w in host.workers && after.workers[w] == host.workers[w] {
          OneWorkerStays(host, timed, head, f, w);
        } else if timed.step == Begin(w, after.workers[w].job) && HostEnabled(host, timed.step) {
          NotBegun(host, timed, head);
          NewerStays(host, timed, after.workers[w].job);
        } else {
          NewerStays(host, timed, host.workers[w].job);
        }
      }
    }
  }

  lemma NotBegun(host: Host, timed: HostTimed, head: string)
    requires HostInvariant(host) && IsDestroyed(host.mergeGroups, head) && timed.step.Begin? && HostEnabled(host, timed.step)
    ensures timed.step.job < |host.sys.db.jobs| && JobGroup(host.sys.db.jobs[timed.step.job]) != MergeGroup(head)
  {
    hide MayBegin, JobGroup;
    InvariantJobs(host.sys.db, host.sys.clock);
    DestroyedIsNotBegun(host, timed.step.job, head);
  }

  lemma NobodyExposes(host: Host, timed: HostTimed, head: string, f: Fingerprint)
    requires HostInvariant(host) && forall w :: !MayExpose(host, w, head, f)
    ensures !ExposesLate(host, timed, Place(f, MergeGroup(head)))
  {
    hide SystemInvariant, JobGroup, NewerScanCompleted, Tracked;
    assert timed.step.Work? && timed.step.step.Commit? ==> !MayExpose(host, timed.step.step.worker, head, f);
  }

  lemma {:induction false} NobodyEver(host: Host, steps: seq<HostTimed>, head: string, f: Fingerprint)
    requires HostInvariant(host) && IsDestroyed(host.mergeGroups, head) && forall w :: !MayExpose(host, w, head, f)
    ensures !ExposedLate(host, steps, Place(f, MergeGroup(head)))
    ensures forall w :: !MayExpose(HostRun(host, steps), w, head, f)
  {
    hide HostInvariant, HostNext, MayExpose, ExposesLate, ExposedLate;
    if steps == [] {
      NoneLate(host, Place(f, MergeGroup(head)));
    } else {
      var rest := steps[..|steps| - 1];
      NobodyEver(host, rest, head, f);
      EveryHostRun(host, rest);
      DestroyedStaysInRuns(host, rest, head);
      NobodyStays(HostRun(host, rest), steps[|steps| - 1], head, f);
      NobodyExposes(HostRun(host, rest), steps[|steps| - 1], head, f);
      ExposedLateMore(host, steps, Place(f, MergeGroup(head)));
    }
  }

  // ---------------------------------------------------------------- somebody may, and then does

  function Finds(f: Fingerprint): ScanResult {
    ScanResult([Finding(f, "", "", Block)], false)
  }

  lemma FindsTracked(f: Fingerprint)
    ensures Tracked(Finds(f).findings) == {f}
  {
    assert Finding(f, "", "", Block) in Finds(f).findings;
  }

  function At(step: HostStep): HostTimed {
    HostTimed(step, 0, 0)
  }

  function SnapshotStep(w: nat, job: nat, f: Fingerprint): HostTimed {
    At(Work(Snapshot(w, job, Finds(f), {}, true, (commit, head) => Unknown)))
  }

  function CommitStep(w: nat): HostTimed {
    At(Work(Commit(w)))
  }

  /** The next step of a worker on its way to the commit. */
  function NextStepOf(host: Host, w: nat, f: Fingerprint): HostTimed
    requires w in host.workers
  {
    match host.workers[w]
    case Began(_) => At(Claim(w))
    case Claimed(_) => At(Publish(w))
    case Published(job) => SnapshotStep(w, job, f)
  }

  function StepsLeft(host: Host, w: nat): nat
    requires w in host.workers
  {
    if w in host.sys.inFlight then 0
    else match host.workers[w] case Began(_) => 3 case Claimed(_) => 2 case Published(_) => 1
  }

  /** A worker that may expose the violation still may after its next step, and nothing is exposed meanwhile. */
  lemma OneStepNearer(host: Host, w: nat, head: string, f: Fingerprint)
    requires HostInvariant(host) && MayExpose(host, w, head, f) && w !in host.sys.inFlight
    requires ActiveIn(host.sys.db.exposures, MergeGroup(head)) == {}
    ensures
      var next := HostNext(host, NextStepOf(host, w, f));
      && next.sys.db == host.sys.db && MayExpose(next, w, head, f) && StepsLeft(next, w) < StepsLeft(host, w)
  {
    hide SystemInvariant, ActiveIn, JobGroup, NewerScanCompleted, AskGit, Tracked, SlotOf, WorkerRight;
    FindsTracked(f);
    if host.workers[w].Published? {
      var step := NextStepOf(host, w, f).step.step;
      assert RowsRead(host.sys.db, MergeGroup(head), {});
      assert Enabled(host.sys, step);
    }
  }

  lemma CommitExposes(host: Host, w: nat, head: string, f: Fingerprint)
    requires HostInvariant(host) && MayExpose(host, w, head, f) && w in host.sys.inFlight
    ensures ExposesLate(host, CommitStep(w), Place(f, MergeGroup(head)))
  {
    hide SystemInvariant, JobGroup, NewerScanCompleted, Tracked, SlotOf, MayPublish, WorkerRight;
  }

  lemma LateAt(host: Host, steps: seq<HostTimed>, i: nat, place: Place)
    requires i < |steps| && ExposesLate(HostRun(host, steps[..i]), steps[i], place)
    ensures ExposedLate(host, steps, place)
  {
  }

  lemma LateAfterOne(host: Host, step: HostTimed, rest: seq<HostTimed>, place: Place)
    requires ExposedLate(HostNext(host, step), rest, place)
    ensures ExposedLate(host, [step] + rest, place)
  {
    hide HostNext, ExposesLate;
    var i: nat :| i < |rest| && ExposesLate(HostRun(HostNext(host, step), rest[..i]), rest[i], place);
    assert ([step] + rest)[..i + 1] == [step] + rest[..i];
    assert [step][..0] == [];
    assert HostRun(host, [step]) == HostNext(HostRun(host, []), step);
    HostRunConcat(host, [step], rest[..i]);
    LateAt(host, [step] + rest, i + 1, place);
  }

  /** Left alone, the worker goes on to its commit. */
  lemma {:induction false} SomebodyDoes(host: Host, w: nat, head: string, f: Fingerprint) returns (steps: seq<HostTimed>)
    requires HostInvariant(host) && MayExpose(host, w, head, f)
    requires ActiveIn(host.sys.db.exposures, MergeGroup(head)) == {}
    ensures ExposedLate(host, steps, Place(f, MergeGroup(head)))
    decreases StepsLeft(host, w)
  {
    hide HostNext, HostInvariant, ExposesLate, ExposedLate, ActiveIn, NewerScanCompleted, JobGroup, Tracked, SlotOf, MayPublish;
    if w in host.sys.inFlight {
      steps := [CommitStep(w)];
      assert steps[..0] == [];
      CommitExposes(host, w, head, f);
      LateAt(host, steps, 0, Place(f, MergeGroup(head)));
    } else {
      var step := NextStepOf(host, w, f);
      OneStepNearer(host, w, head, f);
      HostNextKeeps(host, step);
      var rest := SomebodyDoes(HostNext(host, step), w, head, f);
      LateAfterOne(host, step, rest, Place(f, MergeGroup(head)));
      steps := [step] + rest;
    }
  }

  lemma NothingActive(exposures: ExposureTable, group: GroupKey)
    requires forall f :: !ActiveAt(exposures, Place(f, group))
    ensures ActiveIn(exposures, group) == {}
  {
    forall f
      ensures f !in ActiveIn(exposures, group)
    {
      InActiveIn(exposures, group, f);
    }
  }

  /** Some continuation exposes the violation in the group. */
  ghost predicate CanBeExposed(host: Host, head: string, f: Fingerprint) {
    exists steps :: ActiveAt(HostRun(host, steps).sys.db.exposures, Place(f, MergeGroup(head)))
  }

  /**
   The condition, checkable when the destroyed event ends a merge group: a
   violation can be exposed in it again if and only if some worker has begun a
   scan of it with no newer scan completed, no newer job has taken its check run
   before it published, and it is not about to commit a result without the violation.
   */
  lemma LateScanPossible(before: seq<HostTimed>, end: HostTimed, head: string, f: Fingerprint)
    requires EndsGroup(HostRun(HOST_START, before), end, head)
    ensures
      var ended := HostNext(HostRun(HOST_START, before), end);
      CanBeExposed(ended, head, f) <==> exists w :: MayExpose(ended, w, head, f)
  {
    hide HostNext, HostRun, HostInvariant, EndInvariant, Settled, ActiveAt, ActiveIn, ExposedLate, EndsGroup, MayExpose;
    var host := HostRun(HOST_START, before);
    var ended := HostNext(host, end);
    StartIsRight();
    EveryHostRun(HOST_START, before);
    HostNextKeeps(host, end);
    DestroyedOnce(before, head);
    forall g
      ensures Settled(ended, head) && !ActiveAt(ended.sys.db.exposures, Place(g, MergeGroup(head)))
    {
      AfterTheEnd(host, end, head, g);
    }
    NothingActive(ended.sys.db.exposures, MergeGroup(head));
    if exists w :: MayExpose(ended, w, head, f) {
      var w: nat :| MayExpose(ended, w, head, f);
      var steps := SomebodyDoes(ended, w, head, f);
      SettledRun(ended, steps, head, f);
      assert ActiveAt(HostRun(ended, steps).sys.db.exposures, Place(f, MergeGroup(head)));
    } else {
      AfterTheEnd(host, end, head, f);
      SettledIsDestroyed(ended, head);
      forall steps
        ensures !ActiveAt(HostRun(ended, steps).sys.db.exposures, Place(f, MergeGroup(head)))
      {
        SettledRun(ended, steps, head, f);
        NobodyEver(ended, steps, head, f);
      }
    }
  }

  lemma SettledIsDestroyed(host: Host, head: string)
    requires Settled(host, head)
    ensures IsDestroyed(host.mergeGroups, head)
  {
  }

  // ---------------------------------------------------------------- a run in which it happens

  function RequestedHook(head: string): Webhook {
    MergeGroupRequestedHook("refs/heads/queue", "base", head, "refs/heads/main", "first")
  }

  function QueuedRequest(head: string): NewScanJob {
    MergeGroupRequest("refs/heads/queue", "base", head, "refs/heads/main", "first")
  }

  function DestroyedHook(head: string): Webhook {
    MergeGroupDestroyedHook(head, "dequeued", "refs/heads/main")
  }

  function DestroyedEvent(head: string): LifecycleEvent {
    DestroyMergeGroup(head, "dequeued", "refs/heads/main")
  }

  function RunningJob(head: string): ScanJob {
    ScanJob(QueuedRequest(head), QueuedRequest(head).jobKey.scan, 1, Trigger.Webhook, None, Running, None, None)
  }

  /** Requested, queued, claimed and begun; scanned with the violation; then the destroyed event arrives. */
  function UntilDestroyed(head: string, f: Fingerprint): seq<HostTimed> {
    [At(Deliver(0, RequestedHook(head), true)), At(Continue(0)), At(Work(OnJobs(Progress(0, Running)))), At(Begin(1, 0)),
     At(Claim(1)), At(Publish(1)), SnapshotStep(1, 0, f), At(Deliver(0, DestroyedHook(head), true)), At(Continue(0))]
  }

  function Queue(head: string): Host {
    HOST_START.(mergeGroups := map[head := ChecksRequested], handlers := map[0 := Queueing(QueuedRequest(head), None)])
  }

  function Taking(head: string, state: JobState): Host {
    HOST_START.(mergeGroups := map[head := ChecksRequested],
                sys := Initial.(db := Initial.db.(jobs := [RunningJob(head).(state := state)])))
  }

  /** The worker has published its result and owns the check run. */
  function ResultPublished(head: string): Host {
    Taking(head, Running).(workers := map[1 := Published(0)], owners := map[SlotOf(RunningJob(head)) := 0])
  }

  lemma RequestQueues(head: string)
    ensures HostNext(HOST_START, At(Deliver(0, RequestedHook(head), true))) == Queue(head)
    ensures HostNext(Queue(head), At(Continue(0))) == Taking(head, Queued)
  {
    ContinueAlone(Queue(head), 0, 0);
    assert Latest([], SameJobKey(QueuedRequest(head).jobKey)) == None;
    assert MaxExecution([], QueuedRequest(head).jobKey.scan) == 0;
    assert [] + [RunningJob(head).(state := Queued)] == [RunningJob(head).(state := Queued)];
  }

  lemma JobRuns(head: string)
    ensures HostNext(Taking(head, Queued), At(Work(OnJobs(Progress(0, Running))))) == Taking(head, Running)
  {
    var host := Taking(head, Queued);
    assert host.sys.db.jobs[0 := RunningJob(head)] == [RunningJob(head)];
  }

  lemma ResultIsPublished(head: string)
    ensures
      var taken := Taking(head, Running);
      HostNext(HostNext(HostNext(taken, At(Begin(1, 0))), At(Claim(1))), At(Publish(1))) == ResultPublished(head)
  {
    hide Next, Receive, Rest, Enabled;
    var begun := HostNext(Taking(head, Running), At(Begin(1, 0)));
    assert begun == Taking(head, Running).(workers := map[1 := Began(0)]);
    var claimed := HostNext(begun, At(Claim(1)));
    assert claimed == begun.(workers := map[1 := Claimed(0)], owners := map[SlotOf(RunningJob(head)) := 0]);
  }

  /** The state while the destroyed event is being handled. */
  ghost predicate HandlingDestroyed(host: Host, handler: Handler, head: string, f: Fingerprint) {
    && host.sys.db.jobs == [RunningJob(head)] && host.workers == map[1 := Published(0)]
    && 1 in host.sys.inFlight && host.sys.inFlight[1].job == 0 && host.sys.inFlight[1].scan == Finds(f)
    && host.handlers == map[0 := handler]
  }

  lemma SnapshotThenDestroyed(head: string, f: Fingerprint)
    ensures
      var snapshot := HostNext(ResultPublished(head), SnapshotStep(1, 0, f));
      var delivered := HostNext(snapshot, At(Deliver(0, DestroyedHook(head), true)));
      HandlingDestroyed(delivered, Cancelling(MergeGroup(head), DestroyedEvent(head)), head, f)
  {
    hide AskGit;
    var host := ResultPublished(head);
    var step := SnapshotStep(1, 0, f).step.step;
    assert ActiveIn(host.sys.db.exposures, JobGroup(host.sys.db.jobs[0])) == {};
    assert Enabled(host.sys, step);
  }

  lemma CancelFindsNothingQueued(host: Host, head: string, f: Fingerprint)
    requires HandlingDestroyed(host, Cancelling(MergeGroup(head), DestroyedEvent(head)), head, f)
    ensures HandlingDestroyed(HostNext(host, At(Continue(0))), Ending(DestroyedEvent(head)), head, f)
  {
    assert CancelQueued([RunningJob(head)], MergeGroup(head)) == [RunningJob(head)];
    ContinueAlone(host, 0, 0);
  }

  lemma NineSteps(s: seq<HostTimed>)
    requires |s| == 9
    ensures HostRun(HOST_START, s)
         == HostNext(HostNext(HostNext(HostNext(HostNext(HostNext(HostNext(HostNext(HostNext(
              HOST_START, s[0]), s[1]), s[2]), s[3]), s[4]), s[5]), s[6]), s[7]), s[8])
  {
    hide HostNext;
    forall k: nat | k < 9
      ensures HostRun(HOST_START, s[..k + 1]) == HostNext(HostRun(HOST_START, s[..k]), s[k])
    {
      assert s[..k + 1][..k] == s[..k];
    }
    assert s[..9] == s && s[..0] == [];
    assert HostRun(HOST_START, s[..1]) == HostNext(HOST_START, s[0]);
    assert HostRun(HOST_START, s[..3]) == HostNext(HostNext(HostRun(HOST_START, s[..1]), s[1]), s[2]);
    assert HostRun(HOST_START, s[..5]) == HostNext(HostNext(HostRun(HOST_START, s[..3]), s[3]), s[4]);
    assert HostRun(HOST_START, s[..7]) == HostNext(HostNext(HostRun(HOST_START, s[..5]), s[5]), s[6]);
    assert HostRun(HOST_START, s[..9]) == HostNext(HostNext(HostRun(HOST_START, s[..7]), s[7]), s[8]);
  }

  lemma DestroyedReached(head: string, f: Fingerprint)
    ensures HandlingDestroyed(HostRun(HOST_START, UntilDestroyed(head, f)), Ending(DestroyedEvent(head)), head, f)
  {
    hide HostNext, HostRun, HandlingDestroyed, Taking, ResultPublished, Queue, RequestedHook, DestroyedHook, SnapshotStep, RunningJob;
    NineSteps(UntilDestroyed(head, f));
    RequestQueues(head);
    JobRuns(head);
    ResultIsPublished(head);
    SnapshotThenDestroyed(head, f);
    var delivered := HostNext(HostNext(ResultPublished(head), SnapshotStep(1, 0, f)), At(Deliver(0, DestroyedHook(head), true)));
    CancelFindsNothingQueued(delivered, head, f);
  }

  lemma AfterEndStillInFlight(host: Host, head: string, f: Fingerprint)
    requires HandlingDestroyed(host, Ending(DestroyedEvent(head)), head, f)
    ensures EndsGroup(host, At(Continue(0)), head)
    ensures MayExpose(HostNext(host, At(Continue(0))), 1, head, f) && 1 in HostNext(host, At(Continue(0))).sys.inFlight
  {
    hide DbAfter, Tracked;
    FindsTracked(f);
    ContinueAlone(host, 0, 0);
    EventJobs(host.sys.db, DestroyedEvent(head), Moment(host.sys.clock, host.sys.clock));
  }

  /** The race by example: the scan begun before the destroyed event commits after it, and its violation sticks. */
  lemma LateScanSticks(head: string, f: Fingerprint, later: seq<HostTimed>)
    ensures
      var steps := UntilDestroyed(head, f) + [At(Continue(0))] + ([CommitStep(1)] + later);
      EndsGroup(HostRun(HOST_START, UntilDestroyed(head, f)), At(Continue(0)), head)
      && ActiveAt(HostRun(HOST_START, steps).sys.db.exposures, Place(f, MergeGroup(head)))
  {
    hide HostNext, HostRun, HandlingDestroyed, UntilDestroyed, EndsGroup, MayExpose, ExposesLate, ExposedLate, ActiveAt, HostInvariant;
    var host := HostRun(HOST_START, UntilDestroyed(head, f));
    var end := At(Continue(0));
    DestroyedReached(head, f);
    AfterEndStillInFlight(host, head, f);
    var ended := HostNext(host, end);
    var after := [CommitStep(1)] + later;
    StartIsRight();
    EveryHostRun(HOST_START, UntilDestroyed(head, f));
    HostNextKeeps(host, end);
    CommitExposes(ended, 1, head, f);
    assert after[..0] == [];
    NoSteps(ended);
    LateAt(ended, after, 0, Place(f, MergeGroup(head)));
    LateMergeGroupScan(UntilDestroyed(head, f), end, after, head, f);
  }

  lemma NoSteps(host: Host)
    ensures HostRun(host, []) == host
  {
  }

  /** Requested, queued, claimed, begun, scanned and committed; then the handler of the destroyed event is lost. */
  function UntilLost(head: string, f: Fingerprint): seq<HostTimed> {
    [At(Deliver(0, RequestedHook(head), true)), At(Continue(0)), At(Work(OnJobs(Progress(0, Running)))), At(Begin(1, 0)),
     At(Claim(1)), At(Publish(1)), SnapshotStep(1, 0, f), CommitStep(1), At(Deliver(0, DestroyedHook(head), true)), At(Lose(0))]
  }

  lemma CommittedIsActive(head: string, f: Fingerprint)
    ensures
      var committed := HostNext(HostNext(ResultPublished(head), SnapshotStep(1, 0, f)), CommitStep(1));
      && ActiveAt(committed.sys.db.exposures, Place(f, MergeGroup(head)))
      && committed.handlers == map[] && committed.mergeGroups == map[head := ChecksRequested]
  {
    hide AskGit, CommitScan;
    var begun := ResultPublished(head);
    var step := SnapshotStep(1, 0, f).step.step;
    assert ActiveIn(begun.sys.db.exposures, JobGroup(begun.sys.db.jobs[0])) == {};
    assert Enabled(begun.sys, step);
    var snapshot := HostNext(begun, SnapshotStep(1, 0, f));
    FindsTracked(f);
    assert Exposes(snapshot.sys, Commit(1), Place(f, MergeGroup(head)));
    OnlyCommitsExpose(snapshot.sys, Timed(Commit(1), 0, 0), Place(f, MergeGroup(head)));
  }

  lemma LostIsSettled(host: Host, head: string)
    requires host.handlers == map[] && host.mergeGroups == map[head := ChecksRequested]
    ensures
      var lost := HostNext(HostNext(host, At(Deliver(0, DestroyedHook(head), true))), At(Lose(0)));
      Settled(lost, head) && lost.sys == host.sys
  {
  }

  lemma OneMoreStep(host: Host, steps: seq<HostTimed>, step: HostTimed)
    ensures HostRun(host, steps + [step]) == HostNext(HostRun(host, steps), step)
  {
    hide HostNext;
    assert (steps + [step])[..|steps|] == steps;
  }

  lemma LostReached(head: string, f: Fingerprint)
    ensures
      var lost := HostRun(HOST_START, UntilLost(head, f));
      Settled(lost, head) && ActiveAt(lost.sys.db.exposures, Place(f, MergeGroup(head)))
  {
    hide HostNext, HostRun, Taking, ResultPublished, Queue, RequestedHook, DestroyedHook, SnapshotStep, CommitStep, RunningJob, Settled, ActiveAt;
    var steps := UntilLost(head, f);
    NineSteps(steps[..9]);
    OneMoreStep(HOST_START, steps[..9], steps[9]);
    assert steps == steps[..9] + [steps[9]];
    RequestQueues(head);
    JobRuns(head);
    ResultIsPublished(head);
    CommittedIsActive(head, f);
    LostIsSettled(HostNext(HostNext(ResultPublished(head), SnapshotStep(1, 0, f)), CommitStep(1)), head);
  }

  /** A lost handler by example: the event was marked, its redeliveries are duplicates, and the violation sticks. */
  lemma LostHandlerSticks(head: string, f: Fingerprint, later: seq<HostTimed>)
    ensures ActiveAt(HostRun(HOST_START, UntilLost(head, f) + later).sys.db.exposures, Place(f, MergeGroup(head)))
  {
    hide HostNext, HostRun, HostInvariant, UntilLost, Settled, ActiveAt;
    LostReached(head, f);
    StartIsRight();
    EveryHostRun(HOST_START, UntilLost(head, f));
    SettledExposureStays(HostRun(HOST_START, UntilLost(head, f)), later, head, f);
    HostRunConcat(HOST_START, UntilLost(head, f), later);
  }
}
