/** Scans of one pull request may complete in any order: the newest one decides. */
module ScanOrder {
  import opened Wrappers
  import opened ScanJobs
  import opened Violations
  import opened LifecycleInvariants
  import opened ScanCompletion
  import opened ControlPlane

  /** The completed scan that decides a group, and what it tracked. */
  datatype Best = Best(job: nat, tracked: set<Fingerprint>)

  /** A completion takes over unless a scan with a greater sequence already completed. */
  function NextBest(best: Option<Best>, job: nat, tracked: set<Fingerprint>): Option<Best> {
    if best.None? || best.value.job <= job then Some(Best(job, tracked)) else best
  }

  predicate CompletedIn(jobs: Jobs, i: int, group: GroupKey) {
    0 <= i < |jobs| && jobs[i].request.groupKey == group && Completed(jobs[i])
  }

  /** `best` is the completed scan of the group with the greatest sequence. */
  ghost predicate Decides(jobs: Jobs, group: GroupKey, best: Option<Best>) {
    && (best.Some? ==> CompletedIn(jobs, best.value.job, group))
    && (forall i :: CompletedIn(jobs, i, group) ==> best.Some? && i <= best.value.job)
  }

  /** The stored exposures of the group show exactly what the deciding scan tracked. */
  ghost predicate Shows(db: Db, group: GroupKey, best: Option<Best>) {
    && Decides(db.jobs, group, best)
    && (best.Some? ==> ActiveIn(db.exposures, group) == best.value.tracked)
  }

  predicate SameCompletions(a: Jobs, b: Jobs) {
    |a| <= |b| && (forall i :: 0 <= i < |a| ==> SameRow(a[i], b[i]) && Completed(a[i]) == Completed(b[i]))
    && (forall i :: |a| <= i < |b| ==> !Completed(b[i]))
  }

  lemma DecidesSame(a: Jobs, b: Jobs, group: GroupKey, best: Option<Best>)
    requires Decides(a, group, best) && SameCompletions(a, b)
    ensures Decides(b, group, best)
  {
    assert forall i :: CompletedIn(a, i, group) ==> CompletedIn(b, i, group);
    forall i | CompletedIn(b, i, group)
      ensures CompletedIn(a, i, group)
    {
      assert i < |a| && SameRow(a[i], b[i]);
    }
  }

  lemma FinishDecides(jobs: Jobs, job: nat, passed: bool, now: Moment, group: GroupKey, best: Option<Best>, tracked: set<Fingerprint>)
    requires job < |jobs| && Decides(jobs, group, best)
    ensures Decides(Finish(jobs, job, passed, now), group,
                    if jobs[job].request.groupKey == group then NextBest(best, job, tracked) else best)
    ensures jobs[job].request.groupKey == group ==> (NewerScanCompleted(jobs, job) <==> best.Some? && best.value.job > job)
  {
    var after := Finish(jobs, job, passed, now);
    assert forall i :: 0 <= i < |jobs| ==> after[i].request == jobs[i].request;
    assert forall i :: CompletedIn(jobs, i, group) ==> CompletedIn(after, i, group);
    assert forall i :: CompletedIn(after, i, group) ==> CompletedIn(jobs, i, group) || i == job;
    if jobs[job].request.groupKey == group {
      assert CompletedIn(after, job, group);
      if best.Some? && best.value.job > job {
        assert CompletedIn(jobs, best.value.job, group);
      }
      forall t | job < t < |jobs| && jobs[t].request.groupKey == group && Completed(jobs[t])
        ensures best.Some? && best.value.job > job
      {
        assert CompletedIn(jobs, t, group);
      }
    }
  }

  lemma ActiveInAfter(a: ExposureTable, b: ExposureTable, group: GroupKey)
    requires forall p: Place :: p.group == group ==> (ActiveAt(a, p) <==> ActiveAt(b, p))
    ensures ActiveIn(a, group) == ActiveIn(b, group)
  {
    forall f
      ensures f in ActiveIn(a, group) <==> f in ActiveIn(b, group)
    {
      InActiveIn(a, group, f);
      InActiveIn(b, group, f);
      assert ActiveAt(a, Place(f, group)) <==> ActiveAt(b, Place(f, group));
    }
  }

  lemma InActiveIn(exposures: ExposureTable, group: GroupKey, f: Fingerprint)
    ensures f in ActiveIn(exposures, group) <==> ActiveAt(exposures, Place(f, group))
  {
    if f in ActiveIn(exposures, group) {
      var p :| p in exposures && p.group == group && exposures[p].active && p.violation == f;
      assert p == Place(f, group);
    }
  }

  lemma CommitJobs(db: Db, job: nat, scan: ScanResult, gone: set<Fingerprint>, now: Moment)
    requires job < |db.jobs|
    ensures CommitScan(db, job, scan, gone, now).jobs == Finish(db.jobs, job, scan.passed, now)
  {
  }

  /** One completion: the deciding scan and what the group shows move together. */
  lemma CommitShows(db: Db, job: nat, scan: ScanResult, gone: set<Fingerprint>, now: Moment, number: int, best: Option<Best>)
    requires job < |db.jobs| && JobGroup(db.jobs[job]) == db.jobs[job].request.groupKey
    requires Shows(db, PullRequestGroup(number), best)
    ensures Shows(CommitScan(db, job, scan, gone, now), PullRequestGroup(number),
                  if JobGroup(db.jobs[job]) == PullRequestGroup(number) then NextBest(best, job, Tracked(scan.findings)) else best)
  {
    var group := PullRequestGroup(number);
    var after := CommitScan(db, job, scan, gone, now);
    CommitJobs(db, job, scan, gone, now);
    FinishDecides(db.jobs, job, scan.passed, now, group, best, Tracked(scan.findings));
    CommitScanActive(db, job, scan, gone, now);
    if JobGroup(db.jobs[job]) != group || NewerScanCompleted(db.jobs, job) {
      ActiveInAfter(db.exposures, after.exposures, group);
    } else {
      forall f
        ensures f in ActiveIn(after.exposures, group) <==> f in Tracked(scan.findings)
      {
        InActiveIn(after.exposures, group, f);
        assert ActiveAt(after.exposures, Place(f, group)) <==> f in Tracked(scan.findings);
      }
    }
  }

  /** A completion that no newer one precedes makes its pull request show exactly what it tracked, whatever was there. */
  lemma CommitDecides(db: Db, job: nat, scan: ScanResult, gone: set<Fingerprint>, now: Moment, number: int)
    requires job < |db.jobs| && JobGroup(db.jobs[job]) == db.jobs[job].request.groupKey == PullRequestGroup(number)
    requires !NewerScanCompleted(db.jobs, job)
    ensures Shows(CommitScan(db, job, scan, gone, now), PullRequestGroup(number), Some(Best(job, Tracked(scan.findings))))
  {
    hide CommitScan;
    var group := PullRequestGroup(number);
    var after := CommitScan(db, job, scan, gone, now);
    CommitJobs(db, job, scan, gone, now);
    assert CompletedIn(after.jobs, job, group);
    forall i | CompletedIn(after.jobs, i, group)
      ensures i <= job
    {
      assert i != job ==> after.jobs[i] == db.jobs[i];
    }
    CommitScanActive(db, job, scan, gone, now);
    forall f
      ensures f in ActiveIn(after.exposures, group) <==> f in Tracked(scan.findings)
    {
      InActiveIn(after.exposures, group, f);
      assert ActiveAt(after.exposures, Place(f, group)) <==> f in Tracked(scan.findings);
    }
  }

  // ---------------------------------------------------------------- a list of completions

  datatype Completion = Completion(job: nat, scan: ScanResult, gone: set<Fingerprint>, at: Moment)

  predicate CompletionIn(jobs: Jobs, number: int, c: Completion) {
    c.job < |jobs| && JobGroup(jobs[c.job]) == jobs[c.job].request.groupKey == PullRequestGroup(number)
  }

  ghost predicate Completions(jobs: Jobs, number: int, cs: seq<Completion>) {
    forall c :: c in cs ==> CompletionIn(jobs, number, c)
  }

  function CommitAll(db: Db, cs: seq<Completion>): (r: Db)
    requires forall c :: c in cs ==> c.job < |db.jobs|
    ensures |r.jobs| == |db.jobs|
  {
    if cs == [] then db
    else
      var last := cs[|cs| - 1];
      CommitScan(CommitAll(db, cs[..|cs| - 1]), last.job, last.scan, last.gone, last.at)
  }

  /** The last completion among those with the greatest sequence. */
  ghost predicate Newest(cs: seq<Completion>, k: nat) {
    && k < |cs|
    && (forall i :: 0 <= i < |cs| ==> cs[i].job <= cs[k].job)
    && (forall i :: k < i < |cs| ==> cs[i].job < cs[k].job)
  }

  lemma {:induction false} CommitAllTable(db: Db, cs: seq<Completion>)
    requires forall c :: c in cs ==> c.job < |db.jobs|
    ensures SameRows(db.jobs, CommitAll(db, cs).jobs)
  {
    if cs != [] {
      var rest, last := cs[..|cs| - 1], cs[|cs| - 1];
      CommitAllTable(db, rest);
      CommitJobs(CommitAll(db, rest), last.job, last.scan, last.gone, last.at);
    }
  }

  lemma SameCompletionGroup(a: Jobs, b: Jobs, number: int, c: Completion)
    requires SameRows(a, b) && CompletionIn(a, number, c)
    ensures CompletionIn(b, number, c)
  {
    assert SameRow(a[c.job], b[c.job]);
  }

  function BestOfCompletion(c: Completion): Option<Best> {
    Some(Best(c.job, Tracked(c.scan.findings)))
  }

  /** No scan of the group with a sequence above `bound` has completed. */
  ghost predicate CompletedUpTo(jobs: Jobs, group: GroupKey, bound: nat) {
    forall i :: CompletedIn(jobs, i, group) ==> i <= bound
  }

  lemma {:induction false} CommitAllUpTo(db: Db, number: int, cs: seq<Completion>, bound: nat)
    requires Completions(db.jobs, number, cs) && forall c :: c in cs ==> c.job <= bound
    requires CompletedUpTo(db.jobs, PullRequestGroup(number), bound)
    ensures CompletedUpTo(CommitAll(db, cs).jobs, PullRequestGroup(number), bound)
  {
    hide CommitScan;
    if cs != [] {
      var rest, last := cs[..|cs| - 1], cs[|cs| - 1];
      assert forall c :: c in rest ==> c in cs;
      CommitAllUpTo(db, number, rest, bound);
      var before := CommitAll(db, rest);
      assert last in cs;
      CommitJobs(before, last.job, last.scan, last.gone, last.at);
      forall i | CompletedIn(CommitAll(db, cs).jobs, i, PullRequestGroup(number))
        ensures i <= bound
      {
        assert i != last.job ==> CompletedIn(before.jobs, i, PullRequestGroup(number));
      }
    }
  }

  lemma NoneNewer(jobs: Jobs, job: nat, number: int)
    requires job < |jobs| && jobs[job].request.groupKey == PullRequestGroup(number)
    requires CompletedUpTo(jobs, PullRequestGroup(number), job)
    ensures !NewerScanCompleted(jobs, job)
  {
    forall t | job < t < |jobs| && jobs[t].request.groupKey == jobs[job].request.groupKey
      ensures !Completed(jobs[t])
    {
      assert CompletedIn(jobs, t, PullRequestGroup(number)) <==> Completed(jobs[t]);
    }
  }

  /** Whatever had completed with smaller sequences, the last completion of the greatest sequence decides. */
  lemma {:induction false} CommitAllShows(db: Db, number: int, cs: seq<Completion>, k: nat)
    requires Completions(db.jobs, number, cs) && Newest(cs, k)
    requires CompletedUpTo(db.jobs, PullRequestGroup(number), cs[k].job)
    ensures Shows(CommitAll(db, cs), PullRequestGroup(number), BestOfCompletion(cs[k]))
  {
    hide CommitScan, Shows, Decides, CompletedUpTo, NewerScanCompleted;
    var n := |cs| - 1;
    var rest, last := cs[..n], cs[n];
    assert forall c :: c in rest ==> c in cs;
    var before := CommitAll(db, rest);
    CommitAllTable(db, rest);
    assert CompletionIn(db.jobs, number, last);
    SameCompletionGroup(db.jobs, before.jobs, number, last);
    if k == n {
      CommitAllUpTo(db, number, rest, last.job);
      NoneNewer(before.jobs, last.job, number);
      CommitDecides(before, last.job, last.scan, last.gone, last.at, number);
    } else {
      assert Newest(rest, k) && rest[k] == cs[k];
      CommitAllShows(db, number, rest, k);
      CommitShows(before, last.job, last.scan, last.gone, last.at, number, BestOfCompletion(cs[k]));
    }
  }

  /** Completions older than a completed scan of the pull request change nothing it shows. */
  lemma {:induction false} CommitAllStale(db: Db, number: int, cs: seq<Completion>, newer: nat)
    requires Completions(db.jobs, number, cs) && forall c :: c in cs ==> c.job < newer
    requires CompletedIn(db.jobs, newer, PullRequestGroup(number))
    ensures CompletedIn(CommitAll(db, cs).jobs, newer, PullRequestGroup(number))
    ensures ActiveIn(CommitAll(db, cs).exposures, PullRequestGroup(number)) == ActiveIn(db.exposures, PullRequestGroup(number))
  {
    hide CommitScan, ActiveIn;
    if cs != [] {
      var rest, last := cs[..|cs| - 1], cs[|cs| - 1];
      assert forall c :: c in rest ==> c in cs;
      CommitAllStale(db, number, rest, newer);
      var before := CommitAll(db, rest);
      CommitAllTable(db, rest);
      assert CompletionIn(db.jobs, number, last);
      SameCompletionGroup(db.jobs, before.jobs, number, last);
      CommitJobs(before, last.job, last.scan, last.gone, last.at);
      CommitScanActive(before, last.job, last.scan, last.gone, last.at);
      ActiveInAfter(before.exposures, CommitAll(db, cs).exposures, PullRequestGroup(number));
    }
  }

  lemma {:induction false} NewestExists(cs: seq<Completion>) returns (k: nat)
    requires cs != []
    ensures Newest(cs, k)
  {
    var n := |cs| - 1;
    if n == 0 {
      k := 0;
    } else {
      var j := NewestExists(cs[..n]);
      k := if cs[n].job >= cs[j].job then n else j;
    }
  }

  /**
   Order independence: completing the same scans (one completion each) in two
   orders leaves a pull request in any state with the same active violations -
   those of the scan with the greatest sequence, or the ones from before if a
   scan with a greater sequence had already completed.
   */
  lemma OrderIndependence(db: Db, number: int, cs: seq<Completion>, ds: seq<Completion>, k: nat)
    requires Completions(db.jobs, number, cs) && Completions(db.jobs, number, ds) && multiset(cs) == multiset(ds)
    requires forall i, j :: 0 <= i < j < |cs| ==> cs[i].job != cs[j].job
    requires k < |cs| && forall i :: 0 <= i < |cs| ==> cs[i].job <= cs[k].job
    ensures
      var group := PullRequestGroup(number);
      ActiveIn(CommitAll(db, cs).exposures, group) == ActiveIn(CommitAll(db, ds).exposures, group)
      == if CompletedUpTo(db.jobs, group, cs[k].job) then Tracked(cs[k].scan.findings) else ActiveIn(db.exposures, group)
  {
    assert forall c :: c in ds <==> c in multiset(ds);
    assert forall c :: c in cs <==> c in multiset(cs);
    if CompletedUpTo(db.jobs, PullRequestGroup(number), cs[k].job) {
      OneOrder(db, number, cs, cs[k]);
      OneOrder(db, number, ds, cs[k]);
    } else {
      var newer: nat :| CompletedIn(db.jobs, newer, PullRequestGroup(number)) && newer > cs[k].job;
      CommitAllStale(db, number, cs, newer);
      CommitAllStale(db, number, ds, newer);
    }
  }

  lemma OneOrder(db: Db, number: int, cs: seq<Completion>, newest: Completion)
    requires Completions(db.jobs, number, cs) && newest in cs
    requires forall c :: c in cs && c != newest ==> c.job < newest.job
    requires CompletedUpTo(db.jobs, PullRequestGroup(number), newest.job)
    ensures ActiveIn(CommitAll(db, cs).exposures, PullRequestGroup(number)) == Tracked(newest.scan.findings)
  {
    var m := NewestExists(cs);
    assert cs[m] in cs && cs[m] == newest;
    CommitAllShows(db, number, cs, m);
  }

  // ---------------------------------------------------------------- inside any run

  /** Events of this pull request itself, which end or restore its exposures. */
  predicate MovesPullRequest(step: Step, number: int) {
    step.External? && (step.event == ReopenPullRequest(number) || (step.event.ClosePullRequest? && step.event.number == number))
  }

  ghost function BestAfter(sys: System, step: Step, number: int, best: Option<Best>): Option<Best> {
    if step.Commit? && Enabled(sys, step) && JobGroup(sys.db.jobs[sys.inFlight[step.worker].job]) == PullRequestGroup(number) then
      NextBest(best, sys.inFlight[step.worker].job, Tracked(sys.inFlight[step.worker].scan.findings))
    else best
  }

  lemma EndAndMoveActive(db: Db, group: GroupKey, reason: ClosedReason, branch: Option<string>, now: Moment)
    ensures forall p :: (ActiveAt(EndAndMove(db, group, reason, branch, now).exposures, p) <==>
                         (ActiveAt(db.exposures, p) && p.group != group)
                         || (branch.Some? && p.group == BranchGroup(branch.value) && p.violation in ActiveIn(db.exposures, group)))
  {
    var ids := ActiveIn(db.exposures, group);
    CloseInActive(db.exposures, ids, group, reason, None, now);
    if branch.Some? {
      ActivateAllActive(EndGroup(db, group, reason, now).exposures, ids, BranchGroup(branch.value), None, now);
    }
  }

  lemma EventShows(db: Db, event: LifecycleEvent, now: Moment, number: int, best: Option<Best>)
    requires Shows(db, PullRequestGroup(number), best) && !MovesPullRequest(External(event), number)
    ensures Shows(DbAfter(db, event, now), PullRequestGroup(number), best)
  {
    var group := PullRequestGroup(number);
    match event
    case ClosePullRequest(n, merged, baseRef) =>
      EndAndMoveActive(db, PullRequestGroup(n), if merged then MergedInto(n, baseRef) else ClosedUnmerged(n),
                       if merged && baseRef != "" then Some(baseRef) else None, now);
      ActiveInAfter(db.exposures, DbAfter(db, event, now).exposures, group);
    case ReopenPullRequest(n) =>
      ActiveInAfter(db.exposures, RestoredExposures(db.exposures, n, now), group);
    case DestroyMergeGroup(head, reason, baseRef) =>
      EndAndMoveActive(db, MergeGroup(head), if reason == MERGED then MergeGroupMerged(head, baseRef) else MergeGroupGone(head, reason),
                       if reason == MERGED then Some(baseRef) else None, now);
      ActiveInAfter(db.exposures, DbAfter(db, event, now).exposures, group);
    case DeleteBranch(ref) =>
      EndAndMoveActive(db, BranchGroup(ref), BranchDeletedReason(ref), None, now);
      ActiveInAfter(db.exposures, DbAfter(db, event, now).exposures, group);
    case AcknowledgeViolation(_) =>
    case Unacknowledge(_) =>
  }

  lemma JobStepCompletions(jobs: Jobs, step: JobStep, now: Moment)
    requires JobStepEnabled(jobs, step)
    ensures SameCompletions(jobs, JobsAfter(jobs, step, now))
  {
  }

  lemma StepShows(sys: System, timed: Timed, number: int, best: Option<Best>)
    requires WellFormed(sys.db.jobs) && Shows(sys.db, PullRequestGroup(number), best) && !MovesPullRequest(timed.step, number)
    ensures Shows(Next(sys, timed).db, PullRequestGroup(number), BestAfter(sys, timed.step, number, best))
  {
    var now := MomentOf(sys, timed);
    if Enabled(sys, timed.step) {
      match timed.step
      case OnJobs(step) =>
        JobStepCompletions(sys.db.jobs, step, now);
        DecidesSame(sys.db.jobs, JobsAfter(sys.db.jobs, step, now), PullRequestGroup(number), best);
      case Snapshot(_, _, _, _, _, _) =>
      case Commit(worker) =>
        var p := sys.inFlight[worker];
        JobGroupIsGroupKey(sys.db.jobs, p.job);
        CommitShows(sys.db, p.job, p.scan, p.gone, now, number, best);
      case External(event) => EventShows(sys.db, event, now, number, best);
    }
  }

  ghost function BestOf(sys: System, steps: seq<Timed>, number: int, best: Option<Best>): Option<Best> {
    if steps == [] then best
    else
      var rest := steps[..|steps| - 1];
      BestAfter(Run(sys, rest), steps[|steps| - 1].step, number, BestOf(sys, rest, number, best))
  }

  /**
   In any run, with scans of other groups, executions, merges of other pull
   requests and acknowledgements interleaved, a pull request that is neither
   closed nor reopened shows exactly the violations of its completed scan with
   the greatest sequence.
   */
  lemma {:induction false} EveryRunShowsNewestScan(sys: System, steps: seq<Timed>, number: int, best: Option<Best>)
    requires SystemInvariant(sys) && Shows(sys.db, PullRequestGroup(number), best)
    requires forall t :: t in steps ==> !MovesPullRequest(t.step, number)
    ensures Shows(Run(sys, steps).db, PullRequestGroup(number), BestOf(sys, steps, number, best))
  {
    if steps != [] {
      var rest := steps[..|steps| - 1];
      assert forall t :: t in rest ==> t in steps;
      EveryRunShowsNewestScan(sys, rest, number, best);
      RunKeepsJobs(sys, rest);
      StepShows(Run(sys, rest), steps[|steps| - 1], number, BestOf(sys, rest, number, best));
    }
  }

  /**
   From the commit of a scan that no newer completed one precedes, a pull request
   shows exactly its newest completed scan - in any run, whatever was closed,
   reopened or left over before - for as long as it is not closed or reopened again.
   */
  lemma ScanSettlesPullRequest(before: seq<Timed>, commit: Timed, after: seq<Timed>, number: int)
    requires commit.step.Commit? && Enabled(Run(Initial, before), commit.step)
    requires
      var sys := Run(Initial, before);
      var job := sys.inFlight[commit.step.worker].job;
      JobGroup(sys.db.jobs[job]) == PullRequestGroup(number) && !NewerScanCompleted(sys.db.jobs, job)
    requires forall t :: t in after ==> !MovesPullRequest(t.step, number)
    ensures
      var sys := Run(Initial, before);
      var p := sys.inFlight[commit.step.worker];
      Shows(Run(Initial, before + [commit] + after).db, PullRequestGroup(number),
            BestOf(Next(sys, commit), after, number, Some(Best(p.job, Tracked(p.scan.findings)))))
  {
    hide Next, Run, Shows, NewerScanCompleted;
    var sys := Run(Initial, before);
    InitialIsRight();
    RunKeepsJobs(Initial, before);
    EveryRun(Initial, before);
    var p := sys.inFlight[commit.step.worker];
    JobGroupIsGroupKey(sys.db.jobs, p.job);
    NextOfCommit(sys, commit);
    CommitDecides(sys.db, p.job, p.scan, p.gone, MomentOf(sys, commit), number);
    NextKeepsSystem(sys, commit);
    EveryRunShowsNewestScan(Next(sys, commit), after, number, Some(Best(p.job, Tracked(p.scan.findings))));
    RunThrough(Initial, before, commit, after);
  }

  lemma RunKeepsJobs(sys: System, steps: seq<Timed>)
    requires SystemInvariant(sys)
    ensures WellFormed(Run(sys, steps).db.jobs)
  {
    EveryRun(sys, steps);
  }
}
