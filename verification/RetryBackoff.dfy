/** When exactly a sweep retries a failed scan. */
module RetryBackoff {
  import opened Wrappers
  import opened ScanJobs
  import opened Reexecution
  import opened SingleExecution

  /** Five minutes before the first automatic retry, twenty before the second. */
  function Wait(retries: nat): int {
    if retries == 0 then 300 else 1200
  }

  /** The job failed, its back-off is over, fewer than two retries are in sight, and no execution of the scan is under way. */
  predicate Waited(jobs: Jobs, row: nat, now: int)
    requires row < |jobs|
  {
    var retries := RetriesAmongNewest(jobs, jobs[row].scanKey, EXECUTIONS_LISTED);
    && jobs[row].state == Error && jobs[row].completedAt.Some?
    && retries < 2 && jobs[row].completedAt.value + Wait(retries) <= now
    && !UnderWay(jobs, jobs[row].scanKey)
  }

  predicate RetryOf(job: ScanJob, jobs: Jobs, row: nat)
    requires row < |jobs|
  {
    && job.trigger == Retry && job.state == Queued && job.previous == Some(row)
    && job.request.deliveryId == None && SameWork(jobs[row], job)
  }

  lemma RetriedIff(jobs: Jobs, row: nat, now: int, monitoring: bool)
    requires row < |jobs|
    ensures
      var (after, created) := RetryOne(jobs, row, now, monitoring);
      && (created <==> monitoring && Waited(jobs, row, now))
      && (!created ==> after == jobs)
      && (created ==> |after| == |jobs| + 1 && after[..|jobs|] == jobs && RetryOf(after[|jobs|], jobs, row))
  {
    hide CreateExecution, UnderWay, RetriesAmongNewest;
    ExecutionCreatedIff(jobs, row, Retry, None, |jobs|);
  }

  // ---------------------------------------------------------------- executions of other scans do not matter

  lemma {:induction false} OtherScansDoNotCount(jobs: Jobs, more: Jobs, scan: ScanKey, limit: nat)
    requires forall i :: 0 <= i < |more| ==> more[i].scanKey != scan
    ensures RetriesAmongNewest(jobs + more, scan, limit) == RetriesAmongNewest(jobs, scan, limit)
  {
    if more == [] {
      assert jobs + more == jobs;
    } else {
      assert (jobs + more)[..|jobs + more| - 1] == jobs + more[..|more| - 1];
      OtherScansDoNotCount(jobs, more[..|more| - 1], scan, limit);
    }
  }

  lemma OtherScansAreNotUnderWay(jobs: Jobs, more: Jobs, scan: ScanKey)
    requires forall i :: 0 <= i < |more| ==> more[i].scanKey != scan
    ensures UnderWay(jobs + more, scan) <==> UnderWay(jobs, scan)
  {
    var all := jobs + more;
    if UnderWay(jobs, scan) {
      var i: nat :| i < |jobs| && jobs[i].scanKey == scan && (jobs[i].state == Queued || jobs[i].state == Running);
      assert all[i] == jobs[i];
    }
    if UnderWay(all, scan) {
      var i: nat :| i < |all| && all[i].scanKey == scan && (all[i].state == Queued || all[i].state == Running);
      assert i < |jobs| ==> all[i] == jobs[i];
      assert i >= |jobs| ==> all[i] == more[i - |jobs|];
    }
  }

  lemma OtherScansDoNotMatter(jobs: Jobs, more: Jobs, row: nat, now: int)
    requires row < |jobs| && forall i :: 0 <= i < |more| ==> more[i].scanKey != jobs[row].scanKey
    ensures Waited(jobs + more, row, now) <==> Waited(jobs, row, now)
  {
    OtherScansDoNotCount(jobs, more, jobs[row].scanKey, EXECUTIONS_LISTED);
    OtherScansAreNotUnderWay(jobs, more, jobs[row].scanKey);
  }

  // ---------------------------------------------------------------- the sweep

  ghost predicate DifferentScans(jobs: Jobs, rows: seq<nat>) {
    Within(rows, |jobs|) && forall i, j :: 0 <= i < j < |rows| ==> rows[i] != rows[j] && jobs[rows[i]].scanKey != jobs[rows[j]].scanKey
  }

  /** The rows that have waited, in order. */
  function Due(jobs: Jobs, rows: seq<nat>, now: int, monitoring: bool): (due: seq<nat>)
    requires Within(rows, |jobs|)
    ensures Within(due, |jobs|)
  {
    if rows == [] then []
    else
      var next := rows[|rows| - 1];
      Due(jobs, rows[..|rows| - 1], now, monitoring) + if monitoring && Waited(jobs, next, now) then [next] else []
  }

  lemma {:induction false} DueIff(jobs: Jobs, rows: seq<nat>, now: int, monitoring: bool, row: nat)
    requires Within(rows, |jobs|) && row < |jobs|
    ensures row in Due(jobs, rows, now, monitoring) <==> row in rows && monitoring && Waited(jobs, row, now)
  {
    hide Waited;
    if rows != [] {
      DueIff(jobs, rows[..|rows| - 1], now, monitoring, row);
      assert rows == rows[..|rows| - 1] + [rows[|rows| - 1]];
    }
  }

  /** `more` holds one retry of each of the rows, in order. */
  predicate RetriesOf(jobs: Jobs, due: seq<nat>, more: Jobs)
    requires Within(due, |jobs|)
  {
    |more| == |due| && forall m :: 0 <= m < |more| ==> RetryOf(more[m], jobs, due[m])
  }

  lemma NextRetry(jobs: Jobs, more: Jobs, due: seq<nat>, next: nat, now: int, monitoring: bool)
    requires Within(due, |jobs|) && next < |jobs| && RetriesOf(jobs, due, more)
    requires forall d :: d in due ==> jobs[d].scanKey != jobs[next].scanKey
    ensures
      var after := RetryOne(jobs + more, next, now, monitoring).0;
      var rest := if monitoring && Waited(jobs, next, now) then [next] else [];
      Within(due + rest, |jobs|) && jobs <= after && RetriesOf(jobs, due + rest, after[|jobs|..])
  {
    hide Waited, RetryOne;
    var (after, created) := RetryOne(jobs + more, next, now, monitoring);
    RetriedIff(jobs + more, next, now, monitoring);
    forall m | 0 <= m < |more|
      ensures more[m].scanKey != jobs[next].scanKey
    {
      assert RetryOf(more[m], jobs, due[m]) && due[m] in due;
    }
    OtherScansDoNotMatter(jobs, more, next, now);
    if created {
      assert after == jobs + more + [after[|jobs + more|]];
      assert after[|jobs|..] == more + [after[|jobs + more|]];
    } else {
      assert after[|jobs|..] == more && due + [] == due;
    }
  }

  lemma {:induction false} RetryAllOf(jobs: Jobs, rows: seq<nat>, now: int, monitoring: bool)
    requires DifferentScans(jobs, rows)
    ensures
      var after := RetryAll(jobs, rows, now, monitoring);
      jobs <= after && RetriesOf(jobs, Due(jobs, rows, now, monitoring), after[|jobs|..])
  {
    hide RetryOne, Waited, RetryOf;
    if rows == [] {
      assert jobs[|jobs|..] == [];
    } else {
      var rest, next := rows[..|rows| - 1], rows[|rows| - 1];
      RetryAllOf(jobs, rest, now, monitoring);
      var before := RetryAll(jobs, rest, now, monitoring);
      assert before == jobs + before[|jobs|..];
      forall d | d in Due(jobs, rest, now, monitoring)
        ensures jobs[d].scanKey != jobs[next].scanKey
      {
        DueIff(jobs, rest, now, monitoring, d);
      }
      NextRetry(jobs, before[|jobs|..], Due(jobs, rest, now, monitoring), next, now, monitoring);
    }
  }

  // ---------------------------------------------------------------- which rows the query returns

  /** Failed for a reason worth retrying, within a day, and still the newest job of its group. */
  predicate Retryable(jobs: Jobs, row: nat, now: int)
    requires row < |jobs|
  {
    && jobs[row].state == Error && jobs[row].failure in {Some(Infrastructure), Some(FailureKind.Timeout)}
    && jobs[row].completedAt.Some? && now <= jobs[row].completedAt.value + 86400
    && forall n :: row < n < |jobs| ==> jobs[n].request.groupKey != jobs[row].request.groupKey
  }

  function RetryableBelow(jobs: Jobs, n: nat, now: int): nat
    requires n <= |jobs|
  {
    if n == 0 then 0 else RetryableBelow(jobs, n - 1, now) + if Retryable(jobs, n - 1, now) then 1 else 0
  }

  lemma RetryableIsCandidate(jobs: Jobs, row: nat, now: int)
    requires row < |jobs|
    ensures Retryable(jobs, row, now) <==> RetryCandidate(jobs, row, now)
  {
  }

  lemma {:induction false} CandidatesCount(jobs: Jobs, n: nat, now: int)
    requires n <= |jobs|
    ensures |CandidatesBelow(jobs, n, now)| == RetryableBelow(jobs, n, now)
  {
    hide RetryCandidate, Retryable;
    if n > 0 {
      CandidatesCount(jobs, n - 1, now);
      RetryableIsCandidate(jobs, n - 1, now);
    }
  }

  lemma {:induction false} CandidatesPrefix(jobs: Jobs, row: nat, n: nat, now: int)
    requires row < n <= |jobs| && RetryCandidate(jobs, row, now)
    ensures
      var all, before := CandidatesBelow(jobs, n, now), |CandidatesBelow(jobs, row, now)|;
      before < |all| && all[before] == row
  {
    hide RetryCandidate;
    if row < n - 1 {
      CandidatesPrefix(jobs, row, n - 1, now);
    }
  }

  /** The query returns the retryable rows with fewer than fifty retryable ones before them. */
  lemma QueryReturns(jobs: Jobs, now: int, active: bool, row: nat)
    requires row < |jobs|
    ensures row in RetryRows(jobs, now, active) <==> active && Retryable(jobs, row, now) && RetryableBelow(jobs, row, now) < 50
  {
    hide CandidatesBelow, RetryCandidate, Retryable;
    RetryableIsCandidate(jobs, row, now);
    CandidatesCount(jobs, row, now);
    var all, rows := CandidatesBelow(jobs, |jobs|, now), RetryRows(jobs, now, active);
    if RetryCandidate(jobs, row, now) {
      var before := |CandidatesBelow(jobs, row, now)|;
      CandidatesPrefix(jobs, row, |jobs|, now);
      if row in rows {
        var i :| 0 <= i < |rows| && rows[i] == row;
        assert all[i] == row;
      }
      if active && before < 50 {
        assert rows[before] == row;
      }
    }
  }

  /**
   A sweep adds one retry of each due scan, in order, and nothing else. A scan is
   due if and only if the installation is active, the repository is monitored, the
   job is retryable and among the first fifty, its back-off is over, and the scan
   is neither retried twice nor under way; provided that the query returns no two
   jobs of one scan.
   */
  lemma SweepRetriesIff(jobs: Jobs, now: int, active: bool, monitoring: bool, row: nat)
    requires row < |jobs| && DifferentScans(jobs, RetryRows(jobs, now, active))
    ensures
      var after := RetrySweep(jobs, now, active, monitoring);
      var due := Due(jobs, RetryRows(jobs, now, active), now, monitoring);
      && jobs <= after && RetriesOf(jobs, due, after[|jobs|..])
      && (row in due <==>
            active && monitoring && Retryable(jobs, row, now) && RetryableBelow(jobs, row, now) < 50 && Waited(jobs, row, now))
  {
    hide CandidatesBelow, RetryRows, Retryable, RetryableBelow, Waited, RetryAll, Due, RetriesOf;
    RetryAllOf(jobs, RetryRows(jobs, now, active), now, monitoring);
    QueryReturns(jobs, now, active, row);
    DueIff(jobs, RetryRows(jobs, now, active), now, monitoring, row);
  }

  /** Two jobs the query returns belong to one scan only if a schedule asked for it on two branches. */
  lemma QueryScansDiffer(jobs: Jobs, now: int, active: bool)
    requires WellFormed(jobs)
    requires forall i, j :: 0 <= i < j < |jobs| && jobs[i].scanKey == jobs[j].scanKey && jobs[i].scanKey.ScheduledScan? ==>
               jobs[i].request.ref == jobs[j].request.ref
    ensures DifferentScans(jobs, RetryRows(jobs, now, active))
  {
    hide CandidatesBelow, ExecutionCount;
    var rows := RetryRows(jobs, now, active);
    forall i, j | 0 <= i < j < |rows|
      ensures jobs[rows[i]].scanKey != jobs[rows[j]].scanKey
    {
      assert RetryCandidate(jobs, rows[i], now);
      JobGroupIsGroupKey(jobs, rows[i]);
      JobGroupIsGroupKey(jobs, rows[j]);
    }
  }

  // ---------------------------------------------------------------- in any table

  predicate RightlyRetried(job: ScanJob, jobs: Jobs, rows: seq<nat>, now: int, monitoring: bool) {
    && job.previous.Some? && job.previous.value in rows && job.previous.value < |jobs|
    && RetryOf(job, jobs, job.previous.value) && monitoring && Waited(jobs, job.previous.value, now)
  }

  lemma QueuedIsUnderWay(jobs: Jobs, more: Jobs, m: nat)
    requires m < |more| && more[m].state == Queued
    ensures UnderWay(jobs + more, more[m].scanKey)
  {
    assert (jobs + more)[|jobs| + m] == more[m];
  }

  lemma NextIsRightlyRetried(jobs: Jobs, more: Jobs, rows: seq<nat>, next: nat, now: int, monitoring: bool)
    requires next in rows && next < |jobs|
    requires forall m :: 0 <= m < |more| ==> RightlyRetried(more[m], jobs, rows, now, monitoring)
    ensures
      var after := RetryOne(jobs + more, next, now, monitoring).0;
      && jobs <= after
      && forall m :: |jobs| <= m < |after| ==> RightlyRetried(after[m], jobs, rows, now, monitoring)
  {
    hide Waited, RetryOne, UnderWay;
    var (after, created) := RetryOne(jobs + more, next, now, monitoring);
    RetriedIff(jobs + more, next, now, monitoring);
    if created {
      forall m | 0 <= m < |more|
        ensures more[m].scanKey != jobs[next].scanKey
      {
        QueuedIsUnderWay(jobs, more, m);
        WaitedIsNotUnderWay(jobs + more, next, now);
      }
      OtherScansDoNotMatter(jobs, more, next, now);
      assert after == jobs + more + [after[|jobs + more|]];
    }
    forall m | |jobs| <= m < |after|
      ensures RightlyRetried(after[m], jobs, rows, now, monitoring)
    {
      assert m < |jobs + more| ==> after[m] == more[m - |jobs|];
    }
  }

  lemma WaitedIsNotUnderWay(jobs: Jobs, row: nat, now: int)
    requires row < |jobs| && Waited(jobs, row, now)
    ensures !UnderWay(jobs, jobs[row].scanKey)
  {
  }

  lemma {:induction false} RetryAllOnly(jobs: Jobs, all: seq<nat>, k: nat, now: int, monitoring: bool)
    requires Within(all, |jobs|) && k <= |all|
    ensures
      var after := RetryAll(jobs, all[..k], now, monitoring);
      && jobs <= after
      && forall m :: |jobs| <= m < |after| ==> RightlyRetried(after[m], jobs, all, now, monitoring)
  {
    hide RetryOne, RightlyRetried;
    if k > 0 {
      assert all[..k][..k - 1] == all[..k - 1];
      RetryAllOnly(jobs, all, k - 1, now, monitoring);
      var before := RetryAll(jobs, all[..k - 1], now, monitoring);
      assert before == jobs + before[|jobs|..];
      NextIsRightlyRetried(jobs, before[|jobs|..], all, all[k - 1], now, monitoring);
    }
  }

  /**
   In any table: every row a sweep adds is a retry of a job that the query returned,
   after its back-off, while the installation was active and the repository monitored.
   */
  lemma RetriesWait(jobs: Jobs, now: int, active: bool, monitoring: bool, m: nat)
    requires |jobs| <= m < |RetrySweep(jobs, now, active, monitoring)|
    ensures
      var retry := RetrySweep(jobs, now, active, monitoring)[m];
      && retry.previous.Some? && retry.previous.value < |jobs| && RetryOf(retry, jobs, retry.previous.value)
      && active && monitoring && Retryable(jobs, retry.previous.value, now) && Waited(jobs, retry.previous.value, now)
  {
    hide RetryRows, RetryAll, Waited, Retryable, RetryOf;
    var rows := RetryRows(jobs, now, active);
    RetryAllOnly(jobs, rows, |rows|, now, monitoring);
    assert rows[..|rows|] == rows;
    QueryReturns(jobs, now, active, RetrySweep(jobs, now, active, monitoring)[m].previous.value);
  }
}
