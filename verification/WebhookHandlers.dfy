/**
 The webhook handlers. Handling a webhook is a sequence of transactions: the
 first one decides which others follow, and the handler remembers what is left.
 */
module WebhookHandlers {
  import opened Wrappers
  import opened ScanJobs
  import opened Violations
  import opened LifecycleInvariants
  import opened ControlPlane

  datatype PullRequestAction = OpenedAction | Synchronize | ReopenedAction | Edited | ClosedAction | OtherAction

  datatype PullRequestWebhook = PullRequestWebhook(
    action: PullRequestAction, baseChanged: bool, merged: bool, number: int, base: string, head: string, baseRef: string, delivery: string)

  datatype Webhook =
    | PullRequestHook(event: PullRequestWebhook)
    | PushHook(ref: string, before: string, after: Option<string>, delivery: string)
    | MergeGroupRequestedHook(headRef: string, base: string, head: string, baseRef: string, delivery: string)
    | MergeGroupDestroyedHook(head: string, reason: string, baseRef: string)

  datatype Disposition = ScanIt | RecordMerge | CloseIt | Ignore

  function DispositionOf(event: PullRequestWebhook): Disposition {
    if event.action == OpenedAction || event.action == Synchronize || event.action == ReopenedAction then ScanIt
    else if event.action == Edited && event.baseChanged then ScanIt
    else if event.action == ClosedAction then if event.merged then RecordMerge else CloseIt
    else Ignore
  }

  datatype MergeGroupState = ChecksRequested | Destroyed

  type MergeGroups = map<string, MergeGroupState>

  predicate IsDestroyed(groups: MergeGroups, head: string) {
    head in groups && groups[head] == Destroyed
  }

  function RequestOf(event: PullRequestWebhook): NewScanJob {
    PullRequestRequest(event.number, event.base, event.head, event.baseRef, event.delivery)
  }

  const BRANCH_PREFIX := "refs/heads/"

  /** What a handler still has to do, one transaction at a time. */
  datatype Handler =
    | Queueing(request: NewScanJob, reopens: Option<int>)
    | Reopening(number: int)
    | Cancelling(group: GroupKey, event: LifecycleEvent)
    | Ending(event: LifecycleEvent)

  predicate Sound(handler: Handler) {
    handler.Queueing? ==> FirstRequest(handler.request)
  }

  /**
   The decision, with the first transaction of a merge group webhook: its record
   is inserted if missing, and marked destroyed at most once.
   */
  function Receive(groups: MergeGroups, webhook: Webhook, monitoring: bool): (r: (MergeGroups, Option<Handler>))
    ensures r.1.Some? ==> Sound(r.1.value)
  {
    match webhook
    case PullRequestHook(event) =>
      (groups,
       match DispositionOf(event)
       case Ignore => None
       case CloseIt => Some(Cancelling(PullRequestGroup(event.number), ClosePullRequest(event.number, false, "")))
       case RecordMerge => Some(Ending(ClosePullRequest(event.number, true, event.baseRef)))
       case ScanIt =>
         if !monitoring then None
         else Some(Queueing(RequestOf(event), if event.action == ReopenedAction then Some(event.number) else None)))
    case PushHook(ref, before, after, delivery) =>
      (groups,
       if !(BRANCH_PREFIX <= ref) then None
       else if after.None? then Some(Ending(DeleteBranch(ref)))
       else if !monitoring then None
       else Some(Queueing(PushRequest(ref, before, after.value, delivery), None)))
    case MergeGroupRequestedHook(headRef, base, head, baseRef, delivery) =>
      if !monitoring || head in groups then (groups, None)
      else (groups[head := ChecksRequested], Some(Queueing(MergeGroupRequest(headRef, base, head, baseRef, delivery), None)))
    case MergeGroupDestroyedHook(head, reason, baseRef) =>
      if IsDestroyed(groups, head) then (groups, None)
      else (groups[head := Destroyed], Some(Cancelling(MergeGroup(head), DestroyMergeGroup(head, reason, baseRef))))
  }

  /** The next transaction of a handler. */
  function StepOf(handler: Handler): Step {
    match handler
    case Queueing(request, _) => OnJobs(Enqueue(request))
    case Reopening(number) => External(ReopenPullRequest(number))
    case Cancelling(group, _) => OnJobs(CancelGroup(group))
    case Ending(event) => External(event)
  }

  /** What is left after it: a reopened pull request whose commits were already scanned is restored. */
  function Rest(jobs: Jobs, handler: Handler): (r: Option<Handler>)
    requires Sound(handler)
    ensures r.Some? ==> Sound(r.value) && (r.value.Reopening? || r.value.Ending?)
  {
    match handler
    case Queueing(request, reopens) =>
      if reopens.Some? && !CreateJob(jobs, request).1 then Some(Reopening(reopens.value)) else None
    case Cancelling(_, event) => Some(Ending(event))
    case _ => None
  }

  function AfterTransaction(db: Db, handler: Handler, now: Moment): Db
    requires Sound(handler)
  {
    match StepOf(handler)
    case OnJobs(step) => db.(jobs := JobsAfter(db.jobs, step, now))
    case External(event) => DbAfter(db, event, now)
  }

  /** All remaining transactions with nothing in between. */
  function Complete(db: Db, handler: Option<Handler>, now: Moment): Db
    requires handler.Some? ==> Sound(handler.value)
    decreases if handler.None? then 0 else if handler.value.Reopening? || handler.value.Ending? then 1 else 2
  {
    if handler.None? then db
    else Complete(AfterTransaction(db, handler.value, now), Rest(db.jobs, handler.value), now)
  }

  function Handle(db: Db, groups: MergeGroups, webhook: Webhook, monitoring: bool, now: Moment): (Db, MergeGroups) {
    var (after, handler) := Receive(groups, webhook, monitoring);
    (Complete(db, handler, now), after)
  }

  lemma NothingLeft(db: Db, now: Moment)
    ensures Complete(db, None, now) == db
  {
  }

  /** No handler has more than two transactions after the first decision. */
  lemma TwoTransactions(db: Db, handler: Handler, now: Moment)
    requires Sound(handler)
    ensures
      var once, rest := AfterTransaction(db, handler, now), Rest(db.jobs, handler);
      Complete(db, Some(handler), now) == if rest.None? then once else AfterTransaction(once, rest.value, now)
  {
    hide AfterTransaction;
    var once, rest := AfterTransaction(db, handler, now), Rest(db.jobs, handler);
    assert Complete(db, Some(handler), now) == Complete(once, rest, now);
    if rest.Some? {
      var twice := AfterTransaction(once, rest.value, now);
      assert Rest(once.jobs, rest.value).None?;
      assert Complete(once, rest, now) == Complete(twice, None, now);
      NothingLeft(twice, now);
    } else {
      NothingLeft(once, now);
    }
  }

  lemma Handled(db: Db, groups: MergeGroups, webhook: Webhook, monitoring: bool, now: Moment)
    ensures
      var (after, handler) := Receive(groups, webhook, monitoring);
      && Handle(db, groups, webhook, monitoring, now).1 == after
      && (handler.None? ==> Handle(db, groups, webhook, monitoring, now).0 == db)
      && (handler.Some? ==>
            var once, rest := AfterTransaction(db, handler.value, now), Rest(db.jobs, handler.value);
            Handle(db, groups, webhook, monitoring, now).0 == if rest.None? then once else AfterTransaction(once, rest.value, now))
  {
    hide AfterTransaction;
    var (after, handler) := Receive(groups, webhook, monitoring);
    NothingLeft(db, now);
    if handler.Some? {
      TwoTransactions(db, handler.value, now);
    }
  }

  // ---------------------------------------------------------------- what the handlers keep

  lemma TransactionKeeps(db: Db, handler: Handler, clock: int, now: Moment)
    requires Invariant(db, clock) && clock <= now.at && now.read <= now.at && Sound(handler)
    ensures Invariant(AfterTransaction(db, handler, now), now.at)
  {
    hide Invariant, WellFormed, DbAfter, JobsAfter;
    match StepOf(handler)
    case OnJobs(step) =>
      InvariantJobs(db, clock);
      JobStepKeeps(db.jobs, step, now);
      JobsOnly(db, JobsAfter(db.jobs, step, now), clock, now.at);
    case External(event) => EventKeeps(db, event, clock, now);
  }

  lemma InvariantJobs(db: Db, clock: int)
    requires Invariant(db, clock)
    ensures WellFormed(db.jobs)
  {
  }

  lemma {:induction false} CompleteKeeps(db: Db, handler: Option<Handler>, clock: int, now: Moment)
    requires Invariant(db, clock) && clock <= now.at && now.read <= now.at
    requires handler.Some? ==> Sound(handler.value)
    ensures Invariant(Complete(db, handler, now), now.at)
    decreases if handler.None? then 0 else if handler.value.Reopening? || handler.value.Ending? then 1 else 2
  {
    hide Invariant, AfterTransaction;
    if handler.None? {
      ForwardClock(db, clock, now.at);
    } else {
      TransactionKeeps(db, handler.value, clock, now);
      CompleteKeeps(AfterTransaction(db, handler.value, now), Rest(db.jobs, handler.value), now.at, now);
    }
  }

  /** Every handler, run on its own, keeps the lifecycle invariant. */
  lemma HandlersKeep(db: Db, groups: MergeGroups, webhook: Webhook, monitoring: bool, clock: int, now: Moment)
    requires Invariant(db, clock) && clock <= now.at && now.read <= now.at
    ensures Invariant(Handle(db, groups, webhook, monitoring, now).0, now.at)
  {
    CompleteKeeps(db, Receive(groups, webhook, monitoring).1, clock, now);
  }
}
