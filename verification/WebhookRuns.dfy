/**
 Whole runs of the service: webhook handlers, workers and dashboard commands
 interleave transaction by transaction, and a handler may be lost in between.
 */
module WebhookRuns {
  import opened Wrappers
  import opened ScanJobs
  import opened Violations
  import opened LifecycleInvariants
  import opened ControlPlane
  import opened WebhookHandlers

  /** The check run of a commit on GitHub, which one job at a time owns. */
  datatype Slot = Slot(head: string, check: CheckName)

  function SlotOf(job: ScanJob): Slot {
    Slot(job.request.headSha, job.request.checkName)
  }

  /** How far a worker is with its job: it passed the first checks, claimed the check run, published the result. */
  datatype Worker = Began(job: nat) | Claimed(job: nat) | Published(job: nat)

  type Owners = map<Slot, nat>

  /** The database, the owners of check runs, the handlers under way, and the workers. */
  datatype Host = Host(sys: System, mergeGroups: MergeGroups, owners: Owners, handlers: map<nat, Handler>, workers: map<nat, Worker>)

  datatype HostStep =
    | Deliver(handler: nat, webhook: Webhook, monitoring: bool)
    | Continue(handler: nat)
    | Lose(handler: nat)
    | Begin(worker: nat, job: nat)
    | Claim(worker: nat)
    | Publish(worker: nat)
    | Work(step: Step)

  datatype HostTimed = HostTimed(step: HostStep, elapsed: nat, lag: nat)

  const HOST_START := Host(Initial, map[], map[], map[], map[])

  /** What happens besides webhooks: scheduled scans, re-executions, progress of jobs, scans and dashboard commands. */
  predicate IsWork(step: Step) {
    match step
    case OnJobs(Enqueue(request)) => request.event == ScheduledEvent
    case OnJobs(Execute(_, trigger, _, _)) => trigger != Trigger.Webhook && trigger != Scheduled
    case OnJobs(Progress(_, _)) => true
    case OnJobs(CancelGroup(_)) => false
    case External(event) => event.AcknowledgeViolation? || event.Unacknowledge?
    case _ => true
  }

  /** A worker refuses a merge group that is gone - when it begins, not when it commits. */
  predicate MayBegin(host: Host, job: nat) {
    && job < |host.sys.db.jobs|
    && host.sys.db.jobs[job].state == Running
    && (host.sys.db.jobs[job].request.event == MergeGroupEvent ==>
          var head := host.sys.db.jobs[job].request.headSha;
          head in host.mergeGroups && host.mergeGroups[head] != Destroyed)
  }

  /** `claim_check`: a newer job takes the check run over, an older one stops. */
  function AfterClaim(owners: Owners, slot: Slot, job: nat): (Owners, Option<Worker>) {
    if slot in owners && owners[slot] > job then (owners, None) else (owners[slot := job], Some(Claimed(job)))
  }

  /** `_publish`: a worker whose check run another job owns stops before it records anything. */
  function AfterPublish(owners: Owners, slot: Slot, job: nat): Option<Worker> {
    if slot in owners && owners[slot] == job then Some(Published(job)) else None
  }

  ghost predicate HostEnabled(host: Host, step: HostStep) {
    match step
    case Deliver(k, _, _) => k !in host.handlers
    case Continue(k) => k in host.handlers && Sound(host.handlers[k])
    case Lose(k) => k in host.handlers
    case Begin(w, job) => w !in host.workers && MayBegin(host, job)
    case Claim(w) => w in host.workers && host.workers[w].Began? && host.workers[w].job < |host.sys.db.jobs|
    case Publish(w) => w in host.workers && host.workers[w].Claimed? && host.workers[w].job < |host.sys.db.jobs|
    case Work(work) =>
      && IsWork(work) && Enabled(host.sys, work)
      && (work.Snapshot? ==> work.worker !in host.sys.inFlight && work.worker in host.workers && host.workers[work.worker] == Published(work.job))
  }

  function With<T>(table: map<nat, T>, k: nat, value: Option<T>): map<nat, T> {
    if value.Some? then table[k := value.value] else table - {k}
  }

  function SlotAt(host: Host, w: nat): Slot
    requires w in host.workers && host.workers[w].job < |host.sys.db.jobs|
  {
    SlotOf(host.sys.db.jobs[host.workers[w].job])
  }

  ghost function HostNext(host: Host, timed: HostTimed): Host {
    if !HostEnabled(host, timed.step) then host
    else
      match timed.step
      case Deliver(k, webhook, monitoring) =>
        var (groups, handler) := Receive(host.mergeGroups, webhook, monitoring);
        host.(mergeGroups := groups, handlers := With(host.handlers, k, handler))
      case Continue(k) =>
        host.(sys := Next(host.sys, Timed(StepOf(host.handlers[k]), timed.elapsed, timed.lag)),
              handlers := With(host.handlers, k, Rest(host.sys.db.jobs, host.handlers[k])))
      case Lose(k) => host.(handlers := host.handlers - {k})
      case Begin(w, job) => host.(workers := host.workers[w := Began(job)])
      case Claim(w) =>
        var (owners, worker) := AfterClaim(host.owners, SlotAt(host, w), host.workers[w].job);
        host.(owners := owners, workers := With(host.workers, w, worker))
      case Publish(w) =>
        host.(workers := With(host.workers, w, AfterPublish(host.owners, SlotAt(host, w), host.workers[w].job)))
      case Work(work) =>
        host.(sys := Next(host.sys, Timed(work, timed.elapsed, timed.lag)),
              workers := if work.Commit? then host.workers - {work.worker} else host.workers)
  }

  ghost function HostRun(host: Host, steps: seq<HostTimed>): Host {
    if steps == [] then host else HostNext(HostRun(host, steps[..|steps| - 1]), steps[|steps| - 1])
  }

  // ---------------------------------------------------------------- a run of the lifecycle inside

  /** The lifecycle step a host step takes, if it takes one. */
  ghost function Taken(host: Host, timed: HostTimed): seq<Timed> {
    if !HostEnabled(host, timed.step) then []
    else
      match timed.step
      case Continue(k) => [Timed(StepOf(host.handlers[k]), timed.elapsed, timed.lag)]
      case Work(work) => [Timed(work, timed.elapsed, timed.lag)]
      case _ => []
  }

  ghost function TakenAll(host: Host, steps: seq<HostTimed>): seq<Timed> {
    if steps == [] then []
    else TakenAll(host, steps[..|steps| - 1]) + Taken(HostRun(host, steps[..|steps| - 1]), steps[|steps| - 1])
  }

  lemma TakenStep(host: Host, timed: HostTimed)
    ensures HostNext(host, timed).sys == Run(host.sys, Taken(host, timed))
    ensures HostNext(host, timed).sys == if Taken(host, timed) == [] then host.sys else Next(host.sys, Taken(host, timed)[0])
  {
    hide Next, Enabled, HostEnabled, Receive;
    if Taken(host, timed) != [] {
      var step := Taken(host, timed)[0];
      assert Taken(host, timed) == [step] && [step][..0] == [];
      assert Run(host.sys, [step]) == Next(Run(host.sys, []), step);
    }
  }

  /** Every run of the service is a run of the lifecycle, so all that holds over those holds here. */
  lemma {:induction false} HostRunIsRun(host: Host, steps: seq<HostTimed>)
    ensures HostRun(host, steps).sys == Run(host.sys, TakenAll(host, steps))
  {
    hide HostNext, Taken, Run;
    if steps == [] {
      EmptyRun(host.sys);
    } else {
      var rest := steps[..|steps| - 1];
      HostRunIsRun(host, rest);
      TakenStep(HostRun(host, rest), steps[|steps| - 1]);
      RunConcat(host.sys, TakenAll(host, rest), Taken(HostRun(host, rest), steps[|steps| - 1]));
    }
  }

  lemma EmptyRun(sys: System)
    ensures Run(sys, []) == sys
  {
  }

  lemma {:induction false} HostRunConcat(host: Host, a: seq<HostTimed>, b: seq<HostTimed>)
    ensures HostRun(host, a + b) == HostRun(HostRun(host, a), b)
    ensures TakenAll(host, a + b) == TakenAll(host, a) + TakenAll(HostRun(host, a), b)
  {
    hide HostNext, Taken;
    if b == [] {
      assert a + b == a;
    } else {
      assert (a + b)[..|a + b| - 1] == a + b[..|b| - 1];
      HostRunConcat(host, a, b[..|b| - 1]);
    }
  }

  // ---------------------------------------------------------------- what every run keeps

  /** A worker's job exists; once claimed, its check run is owned by it or a newer job. */
  predicate WorkerRight(jobs: Jobs, owners: Owners, worker: Worker) {
    && worker.job < |jobs|
    && (!worker.Began? ==> SlotOf(jobs[worker.job]) in owners && owners[SlotOf(jobs[worker.job])] >= worker.job)
  }

  /** Ownership of a check run only moves to newer jobs. */
  predicate OwnersGrow(a: Owners, b: Owners) {
    forall slot :: slot in a ==> slot in b && a[slot] <= b[slot]
  }

  /** Handlers and workers are sound, and what workers hold belongs to the job whose result they published. */
  ghost predicate HostInvariant(host: Host) {
    && SystemInvariant(host.sys)
    && (forall k :: k in host.handlers ==> Sound(host.handlers[k]))
    && (forall w :: w in host.workers ==> WorkerRight(host.sys.db.jobs, host.owners, host.workers[w]))
    && (forall w :: w in host.sys.inFlight ==> w in host.workers && host.workers[w] == Published(host.sys.inFlight[w].job))
  }

  lemma InFlightNext(sys: System, timed: Timed, w: nat)
    requires w in Next(sys, timed).inFlight
    ensures (w in sys.inFlight && Next(sys, timed).inFlight[w].job == sys.inFlight[w].job)
            || (timed.step.Snapshot? && Enabled(sys, timed.step) && timed.step.worker == w
                && Next(sys, timed).inFlight[w].job == timed.step.job)
    ensures timed.step.Commit? && Enabled(sys, timed.step) ==> w != timed.step.worker
  {
    hide CommitScan, DbAfter, JobsAfter, AskGit;
  }

  lemma WorkersStayRight(a: Jobs, b: Jobs, owners: Owners, workers: map<nat, Worker>)
    requires |a| <= |b| && forall i :: 0 <= i < |a| ==> SameRow(a[i], b[i])
    requires forall w :: w in workers ==> WorkerRight(a, owners, workers[w])
    ensures forall w :: w in workers ==> WorkerRight(b, owners, workers[w])
  {
    forall w | w in workers
      ensures WorkerRight(b, owners, workers[w])
    {
      assert SameRow(a[workers[w].job], b[workers[w].job]);
    }
  }

  lemma WorkKeeps(host: Host, timed: HostTimed)
    requires HostInvariant(host) && timed.step.Work? && HostEnabled(host, timed.step)
    ensures HostInvariant(HostNext(host, timed))
  {
    hide SystemInvariant, Next, Enabled, Sound, WorkerRight, MayBegin;
    var after := HostNext(host, timed);
    var step := Timed(timed.step.step, timed.elapsed, timed.lag);
    NextKeepsSystem(host.sys, step);
    JobsOnlyGrow(host.sys, step);
    WorkersStayRight(host.sys.db.jobs, after.sys.db.jobs, host.owners, host.workers);
    forall w | w in after.sys.inFlight
      ensures w in after.workers && after.workers[w] == Published(after.sys.inFlight[w].job)
    {
      InFlightNext(host.sys, step, w);
    }
  }

  lemma ContinueKeeps(host: Host, timed: HostTimed)
    requires HostInvariant(host) && timed.step.Continue? && HostEnabled(host, timed.step)
    ensures HostInvariant(HostNext(host, timed))
  {
    hide SystemInvariant, Next, Enabled, Sound, Rest, WorkerRight, MayBegin;
    var after := HostNext(host, timed);
    var step := Timed(StepOf(host.handlers[timed.step.handler]), timed.elapsed, timed.lag);
    NextKeepsSystem(host.sys, step);
    JobsOnlyGrow(host.sys, step);
    WorkersStayRight(host.sys.db.jobs, after.sys.db.jobs, host.owners, host.workers);
    forall w | w in after.sys.inFlight
      ensures w in after.workers && after.workers[w] == Published(after.sys.inFlight[w].job)
    {
      InFlightNext(host.sys, step, w);
    }
  }

  lemma OwnersGrowKeepWorkers(jobs: Jobs, a: Owners, b: Owners, workers: map<nat, Worker>)
    requires OwnersGrow(a, b) && forall w :: w in workers ==> WorkerRight(jobs, a, workers[w])
    ensures forall w :: w in workers ==> WorkerRight(jobs, b, workers[w])
  {
  }

  lemma ClaimGrows(owners: Owners, slot: Slot, job: nat)
    ensures OwnersGrow(owners, AfterClaim(owners, slot, job).0)
  {
  }

  /** Steps of workers that leave the database alone. */
  lemma WorkerStepKeeps(host: Host, timed: HostTimed)
    requires HostInvariant(host) && HostEnabled(host, timed.step)
    requires timed.step.Begin? || timed.step.Claim? || timed.step.Publish?
    ensures HostInvariant(HostNext(host, timed))
  {
    hide SystemInvariant, Sound, OwnersGrow;
    if timed.step.Claim? {
      var w := timed.step.worker;
      var slot, job := SlotAt(host, w), host.workers[w].job;
      ClaimGrows(host.owners, slot, job);
      OwnersGrowKeepWorkers(host.sys.db.jobs, host.owners, AfterClaim(host.owners, slot, job).0, host.workers);
    }
  }

  lemma HostNextKeeps(host: Host, timed: HostTimed)
    requires HostInvariant(host)
    ensures HostInvariant(HostNext(host, timed))
  {
    hide SystemInvariant, Next, Enabled, Receive, Rest, Sound, WorkerRight, AfterClaim, AfterPublish, MayBegin;
    if HostEnabled(host, timed.step) {
      match timed.step
      case Work(_) => WorkKeeps(host, timed);
      case Continue(_) => ContinueKeeps(host, timed);
      case Begin(_, _) => WorkerStepKeeps(host, timed);
      case Claim(_) => WorkerStepKeeps(host, timed);
      case Publish(_) => WorkerStepKeeps(host, timed);
      case _ =>
    }
  }

  lemma JobsOnlyGrow(sys: System, timed: Timed)
    ensures |sys.db.jobs| <= |Next(sys, timed).db.jobs|
    ensures forall i :: 0 <= i < |sys.db.jobs| ==> SameRow(sys.db.jobs[i], Next(sys, timed).db.jobs[i])
  {
    hide Next;
    NextGrows(sys, timed);
  }

  /** Every run of webhooks, workers and commands keeps the invariant of the lifecycle, whichever handlers are lost. */
  lemma {:induction false} EveryHostRun(host: Host, steps: seq<HostTimed>)
    requires HostInvariant(host)
    ensures HostInvariant(HostRun(host, steps))
  {
    hide HostInvariant, HostNext;
    if steps != [] {
      EveryHostRun(host, steps[..|steps| - 1]);
      HostNextKeeps(HostRun(host, steps[..|steps| - 1]), steps[|steps| - 1]);
    }
  }

  lemma StartIsRight()
    ensures HostInvariant(HOST_START)
  {
  }

  // ---------------------------------------------------------------- a handler with nothing in between

  lemma ContinueAlone(host: Host, k: nat, lag: nat)
    requires k in host.handlers && Sound(host.handlers[k])
    ensures
      var next := HostNext(host, HostTimed(Continue(k), 0, lag));
      && next.sys == host.sys.(db := AfterTransaction(host.sys.db, host.handlers[k], Moment(host.sys.clock - lag, host.sys.clock)))
      && next.mergeGroups == host.mergeGroups
      && next.handlers == With(host.handlers, k, Rest(host.sys.db.jobs, host.handlers[k]))
  {
    hide DbAfter, JobsAfter, Rest;
  }

  /** Delivered and continued without interruption, a webhook has exactly the effect of its handler. */
  lemma HandledAlone(host: Host, k: nat, webhook: Webhook, monitoring: bool, lag: nat)
    requires k !in host.handlers
    ensures
      var steps := [HostTimed(Deliver(k, webhook, monitoring), 0, lag), HostTimed(Continue(k), 0, lag), HostTimed(Continue(k), 0, lag)];
      var after := HostRun(host, steps);
      && (after.sys.db, after.mergeGroups)
         == Handle(host.sys.db, host.mergeGroups, webhook, monitoring, Moment(host.sys.clock - lag, host.sys.clock))
      && after.handlers == host.handlers
  {
    hide AfterTransaction, Complete, Receive, Rest, Handle, HostNext;
    var deliver, proceed := HostTimed(Deliver(k, webhook, monitoring), 0, lag), HostTimed(Continue(k), 0, lag);
    var now := Moment(host.sys.clock - lag, host.sys.clock);
    ThreeSteps(host, deliver, proceed, proceed);
    Handled(host.sys.db, host.mergeGroups, webhook, monitoring, now);
    var one := HostNext(host, deliver);
    Delivered(host, k, webhook, monitoring, lag);
    var handler := Receive(host.mergeGroups, webhook, monitoring).1;
    if handler.None? {
      ContinueNothing(one, k, lag);
    } else {
      ContinueAlone(one, k, lag);
      var two := HostNext(one, proceed);
      var rest := Rest(host.sys.db.jobs, handler.value);
      if rest.None? {
        ContinueNothing(two, k, lag);
      } else {
        ContinueAlone(two, k, lag);
        NoThird(two.sys.db.jobs, rest.value);
      }
    }
  }

  lemma Delivered(host: Host, k: nat, webhook: Webhook, monitoring: bool, lag: nat)
    requires k !in host.handlers
    ensures
      var (groups, handler) := Receive(host.mergeGroups, webhook, monitoring);
      HostNext(host, HostTimed(Deliver(k, webhook, monitoring), 0, lag))
      == host.(mergeGroups := groups, handlers := With(host.handlers, k, handler))
  {
    hide Receive;
  }

  lemma ContinueNothing(host: Host, k: nat, lag: nat)
    requires k !in host.handlers
    ensures HostNext(host, HostTimed(Continue(k), 0, lag)) == host
  {
  }

  lemma NoThird(jobs: Jobs, handler: Handler)
    requires handler.Reopening? || handler.Ending?
    ensures Rest(jobs, handler).None?
  {
  }

  lemma ThreeSteps(host: Host, a: HostTimed, b: HostTimed, c: HostTimed)
    ensures HostRun(host, [a, b, c]) == HostNext(HostNext(HostNext(host, a), b), c)
  {
    hide HostNext;
    assert [a, b, c][..2] == [a, b] && [a, b][..1] == [a] && [a][..0] == [];
    assert HostRun(host, [a]) == HostNext(HostRun(host, []), a);
    assert HostRun(host, [a, b]) == HostNext(HostRun(host, [a]), b);
  }
}
