/**
 Runs of concurrent updates and rollbacks of one target: every writer reads and
 decides outside the transaction, and other writers may commit before it does.
 */
module PolicyRuns {
  import opened Wrappers
  import opened Json
  import opened Decision
  import opened PolicyDocuments
  import opened PolicyChanges
  import opened PolicyStore

  /** Where a writer is between its reads and its commit. */
  datatype Writer =
    | Updating(update: UpdateRequest)
    | RollingBack(request: RollbackRequest)
    | Restoring(request: RollbackRequest, current: Policy)
    | Ready(plan: Plan)

  datatype State = State(table: Table, writers: seq<Writer>)

  datatype Step =
    | Arrive(writer: Writer)
    | Read(w: nat)
    | CommitNow(w: nat, targetKnown: bool)

  ghost predicate StepAllowed(s: State, step: Step) {
    match step
    case Arrive(writer) => writer.RollingBack? || (writer.Updating? && Validated(writer.update))
    case Read(w) =>
      w < |s.writers| &&
      (match s.writers[w]
       case Updating(request) => Validated(request) && DecideUpdate(s.table.rows, request).Ok?
       case RollingBack(request) => BeginRollback(s.table.rows, request).Ok?
       case Restoring(request, current) => ValidPolicy(current) && DecideRollback(s.table.rows, request, current).Ok?
       case Ready(_) => false)
    case CommitNow(w, known) => w < |s.writers| && s.writers[w].Ready? && CommitPlan(s.table, s.writers[w].plan, known).1.Ok?
  }

  /** A refused read or commit changes nothing, so only the others are steps. */
  ghost function Next(s: State, step: Step): State
    requires StepAllowed(s, step)
  {
    match step
    case Arrive(writer) => s.(writers := s.writers + [writer])
    case Read(w) => s.(writers := s.writers[w := AfterRead(s.table.rows, s.writers[w])])
    case CommitNow(w, known) => s.(table := CommitPlan(s.table, s.writers[w].plan, known).0)
  }

  ghost function AfterRead(rows: Versions, writer: Writer): Writer {
    match writer
    case Updating(request) =>
      if Validated(request) && DecideUpdate(rows, request).Ok? then Ready(DecideUpdate(rows, request).value) else writer
    case RollingBack(request) =>
      if BeginRollback(rows, request).Ok? then Restoring(request, BeginRollback(rows, request).value) else writer
    case Restoring(request, current) =>
      if ValidPolicy(current) && DecideRollback(rows, request, current).Ok? then Ready(DecideRollback(rows, request, current).value)
      else writer
    case Ready(_) => writer
  }

  ghost predicate Run(states: seq<State>, steps: seq<Step>) {
    && |states| == |steps| + 1
    && states[0] == State(Table(map[], []), [])
    && forall i :: 0 <= i < |steps| ==> StepAllowed(states[i], steps[i]) && states[i + 1] == Next(states[i], steps[i])
  }

  // ---------------------------------------------------------------- invariants of the table

  ghost predicate Contiguous(rows: Versions) {
    forall v :: v in rows <==> 1 <= v <= Latest(rows)
  }

  /** A row holds a valid policy in canonical form, under its fingerprint. */
  ghost predicate SoundDocument(document: Json) {
    ValidPolicy(PolicyOf(document)) && CanonicalDocument(PolicyOf(document)) == Ok(document) && ParseDocument(document).Ok?
  }

  ghost predicate SoundVersion(rows: Versions, v: nat)
    requires v in rows
  {
    var row := rows[v];
    && SoundDocument(row.document)
    && row.fingerprint == Sha256(row.document)
    && (row.kind == ChangeVersion ==> row.rollbackOf == None && row.restoredVersion == None)
    && (row.kind == RollbackVersion ==>
          && v > 0 && row.rollbackOf == Some(v - 1)
          && row.restoredVersion.Some? && row.restoredVersion.value < v - 1 && row.restoredVersion.value in rows
          && rows[row.restoredVersion.value].document == row.document)
  }

  /** What was decided about the change from `prev` to `next`, and why it was allowed. */
  ghost predicate DecidedAgainst(prev: Policy, next: Policy, kind: Kind, d: Decided)
    requires ValidPolicy(prev) && ValidPolicy(next)
  {
    && d.changes == Changes(prev, next) && d.changes != []
    && d.weakening == Weakens(d.changes)
    && (d.weakening ==> d.confirmed && d.signInAge <= REAUTHENTICATION_WINDOW && d.reason.Some?)
    && (kind == RollbackVersion ==> d.confirmed && d.reason.Some?)
  }

  /** A decision about version `v` was made against the version before it. */
  ghost predicate SoundDecision(rows: Versions, v: nat, d: Decided)
    requires v in rows
  {
    && d.expected == v - 1
    && ValidPolicy(PolicyAt(rows, d.expected)) && ValidPolicy(PolicyAt(rows, v))
    && DecidedAgainst(PolicyAt(rows, d.expected), PolicyAt(rows, v), rows[v].kind, d)
  }

  ghost predicate TableInvariant(t: Table) {
    && Contiguous(t.rows) && |t.log| == Latest(t.rows)
    && (forall v :: v in t.rows ==> SoundVersion(t.rows, v))
    && (forall i :: 0 <= i < |t.log| ==> SoundDecision(t.rows, i + 1, t.log[i]))
  }

  /** What a plan promises about the version it was based on, if that is still the newest. */
  ghost predicate SoundPlan(rows: Versions, plan: Plan) {
    var d := plan.decided;
    && d.expected <= Latest(rows)
    && SoundDocument(plan.document)
    && ValidPolicy(PolicyAt(rows, d.expected))
    && DecidedAgainst(PolicyAt(rows, d.expected), PolicyOf(plan.document), plan.kind, d)
    && (plan.kind == RollbackVersion ==>
          && plan.restored.Some? && plan.restored.value < d.expected && plan.restored.value in rows
          && rows[plan.restored.value].document == plan.document)
    && (plan.kind == ChangeVersion ==> plan.restored == None)
  }

  ghost predicate SoundWriter(rows: Versions, writer: Writer) {
    match writer
    case Updating(request) => Validated(request)
    case RollingBack(_) => true
    case Restoring(request, current) =>
      && request.reason.Some? && 1 <= request.target < request.expected <= Latest(rows)
      && current == PolicyAt(rows, request.expected) && ValidPolicy(current)
    case Ready(plan) => SoundPlan(rows, plan)
  }

  ghost predicate Invariant(s: State) {
    TableInvariant(s.table) && forall w :: 0 <= w < |s.writers| ==> SoundWriter(s.table.rows, s.writers[w])
  }

  // ---------------------------------------------------------------- decisions are sound

  lemma CanonicalIsSound(p: Policy)
    requires ValidPolicy(p)
    ensures CanonicalDocument(p).Ok? && SoundDocument(CanonicalDocument(p).value) && PolicyOf(CanonicalDocument(p).value) == p
  {
    CanonicalRoundTrip(p);
  }

  lemma NewPolicyIsValid(current: Policy, request: UpdateRequest)
    requires ValidPolicy(current) && Validated(request)
    ensures KnownDefaults(NewPolicy(current, request))
    ensures CanonicalDocument(NewPolicy(current, request)).Ok? ==> ValidPolicy(NewPolicy(current, request))
  {
    var p := NewPolicy(current, request);
    if CanonicalDocument(p).Ok? {
      forall k | k in p.defaults
        ensures k !in p.floors
      {
        assert k in p.floors ==> k in p.floors.Keys * p.defaults.Keys;
      }
    }
  }

  lemma UpdateDecisionIsSound(rows: Versions, request: UpdateRequest)
    requires Validated(request) && DecideUpdate(rows, request).Ok?
    ensures SoundPlan(rows, DecideUpdate(rows, request).value)
  {
    hide Changes, CanonicalDocument, NewPolicy, SoundDocument, Validated;
    var latest := Latest(rows);
    ParsedIsKnown(rows, latest);
    var next := NewPolicy(PolicyAt(rows, latest), request);
    NewPolicyIsValid(PolicyAt(rows, latest), request);
    CanonicalIsSound(next);
  }

  lemma RollbackDecisionIsSound(rows: Versions, request: RollbackRequest, current: Policy)
    requires SoundWriter(rows, Restoring(request, current)) && DecideRollback(rows, request, current).Ok?
    ensures SoundPlan(rows, DecideRollback(rows, request, current).value)
  {
    ParsedIsKnown(rows, request.target);
  }

  // ---------------------------------------------------------------- what a commit does

  lemma LatestIs(rows: Versions, n: nat)
    requires forall v :: v in rows <==> 1 <= v <= n
    ensures Latest(rows) == n
  {
    if n > 0 {
      assert n in rows.Keys;
    }
  }

  /** Appending a version keeps what was sound about the versions, decisions and plans there were. */
  lemma AppendKeepsPlan(rows: Versions, row: Version, plan: Plan)
    requires Contiguous(rows) && SoundPlan(rows, plan)
    ensures SoundPlan(rows[Latest(rows) + 1 := row], plan)
  {
    hide DecidedAgainst, ValidPolicy, SoundDocument, PolicyOf;
    var latest := Latest(rows);
    var after := rows[latest + 1 := row];
    LatestIs(after, latest + 1);
    assert PolicyAt(after, plan.decided.expected) == PolicyAt(rows, plan.decided.expected);
  }

  lemma AppendKeepsWriter(rows: Versions, row: Version, writer: Writer)
    requires Contiguous(rows) && SoundWriter(rows, writer)
    ensures SoundWriter(rows[Latest(rows) + 1 := row], writer)
  {
    var latest := Latest(rows);
    match writer
    case Updating(_) =>
    case RollingBack(_) =>
    case Restoring(request, current) =>
      LatestIs(rows[latest + 1 := row], latest + 1);
    case Ready(plan) =>
      AppendKeepsPlan(rows, row, plan);
  }

  lemma AppendKeepsVersion(rows: Versions, row: Version, v: nat)
    requires Contiguous(rows) && v in rows && SoundVersion(rows, v)
    ensures SoundVersion(rows[Latest(rows) + 1 := row], v)
  {
  }

  lemma AppendKeepsDecision(rows: Versions, row: Version, v: nat, d: Decided)
    requires Contiguous(rows) && v in rows && SoundDecision(rows, v, d)
    ensures SoundDecision(rows[Latest(rows) + 1 := row], v, d)
  {
    var after := rows[Latest(rows) + 1 := row];
    assert PolicyAt(after, v - 1) == PolicyAt(rows, v - 1) && PolicyAt(after, v) == PolicyAt(rows, v);
  }

  lemma NewVersionIsSound(rows: Versions, plan: Plan)
    requires Contiguous(rows) && SoundPlan(rows, plan) && plan.decided.expected == Latest(rows)
    ensures
      var latest := Latest(rows);
      var after := rows[latest + 1 := NewVersion(plan, latest)];
      SoundVersion(after, latest + 1) && SoundDecision(after, latest + 1, plan.decided)
  {
    var latest := Latest(rows);
    var after := rows[latest + 1 := NewVersion(plan, latest)];
    assert PolicyAt(after, latest) == PolicyAt(rows, latest);
    assert PolicyAt(after, latest + 1) == PolicyOf(plan.document);
  }

  lemma AppendKeepsTable(t: Table, row: Version, d: Decided)
    requires TableInvariant(t)
    requires SoundVersion(t.rows[Latest(t.rows) + 1 := row], Latest(t.rows) + 1)
    requires SoundDecision(t.rows[Latest(t.rows) + 1 := row], Latest(t.rows) + 1, d)
    ensures TableInvariant(Table(t.rows[Latest(t.rows) + 1 := row], t.log + [d]))
  {
    hide SoundVersion, SoundDecision;
    var latest := Latest(t.rows);
    var after := Table(t.rows[latest + 1 := row], t.log + [d]);
    LatestIs(after.rows, latest + 1);
    forall v | v in after.rows
      ensures SoundVersion(after.rows, v)
    {
      if v != latest + 1 {
        AppendKeepsVersion(t.rows, row, v);
      }
    }
    forall i | 0 <= i < |after.log|
      ensures SoundDecision(after.rows, i + 1, after.log[i])
    {
      if i < latest {
        AppendKeepsDecision(t.rows, row, i + 1, t.log[i]);
      }
    }
  }

  lemma CommitKeepsTable(t: Table, plan: Plan, known: bool)
    requires TableInvariant(t) && SoundPlan(t.rows, plan) && CommitPlan(t, plan, known).1.Ok?
    ensures TableInvariant(CommitPlan(t, plan, known).0)
  {
    hide SoundVersion, SoundDecision, SoundPlan, NewVersion, Contiguous;
    NewVersionIsSound(t.rows, plan);
    AppendKeepsTable(t, NewVersion(plan, Latest(t.rows)), plan.decided);
  }

  lemma ReadKeepsWriter(rows: Versions, writer: Writer)
    requires SoundWriter(rows, writer)
    ensures SoundWriter(rows, AfterRead(rows, writer))
  {
    match writer
    case Updating(request) =>
      if DecideUpdate(rows, request).Ok? {
        UpdateDecisionIsSound(rows, request);
      }
    case RollingBack(request) =>
      ParsedIsKnown(rows, Latest(rows));
    case Restoring(request, current) =>
      if DecideRollback(rows, request, current).Ok? {
        RollbackDecisionIsSound(rows, request, current);
      }
    case Ready(_) =>
  }

  lemma CommitKeeps(s: State, plan: Plan, known: bool)
    requires Invariant(s) && SoundPlan(s.table.rows, plan) && CommitPlan(s.table, plan, known).1.Ok?
    ensures Invariant(s.(table := CommitPlan(s.table, plan, known).0))
    ensures forall v :: v in s.table.rows ==>
      v in CommitPlan(s.table, plan, known).0.rows && CommitPlan(s.table, plan, known).0.rows[v] == s.table.rows[v]
  {
    hide SoundVersion, SoundDecision, SoundWriter, SoundPlan, NewVersion, Contiguous;
    CommitKeepsTable(s.table, plan, known);
    forall o | 0 <= o < |s.writers|
      ensures SoundWriter(CommitPlan(s.table, plan, known).0.rows, s.writers[o])
    {
      AppendKeepsWriter(s.table.rows, NewVersion(plan, Latest(s.table.rows)), s.writers[o]);
    }
  }

  lemma StepKeeps(s: State, step: Step)
    requires Invariant(s) && StepAllowed(s, step)
    ensures Invariant(Next(s, step))
    ensures forall v :: v in s.table.rows ==> v in Next(s, step).table.rows && Next(s, step).table.rows[v] == s.table.rows[v]
  {
    hide SoundPlan, TableInvariant, CommitPlan, Validated;
    match step
    case Arrive(_) =>
    case Read(w) =>
      ReadKeepsWriter(s.table.rows, s.writers[w]);
    case CommitNow(w, known) =>
      assert SoundWriter(s.table.rows, s.writers[w]);
      CommitKeeps(s, s.writers[w].plan, known);
  }

  /** Every reachable state satisfies the invariant, and published versions never change or disappear. */
  lemma {:induction false} EveryRunKeeps(states: seq<State>, steps: seq<Step>, i: nat, j: nat)
    requires Run(states, steps) && i <= j < |states|
    ensures Invariant(states[j])
    ensures forall v :: v in states[i].table.rows ==> v in states[j].table.rows && states[j].table.rows[v] == states[i].table.rows[v]
    decreases j
  {
    if j == 0 {
      LatestIs(map[], 0);
    } else if i < j {
      EveryRunKeeps(states, steps, i, j - 1);
      StepKeeps(states[j - 1], steps[j - 1]);
    } else {
      EveryRunKeeps(states, steps, j - 1, j - 1);
      StepKeeps(states[j - 1], steps[j - 1]);
    }
  }

  // ---------------------------------------------------------------- what administrators may rely on

  /**
   No lost update: version n + 1 was decided (its changes, whether they weaken,
   the confirmation and the sign-in) against exactly the policy of version n, and
   two published versions never name the same expected version.
   */
  lemma NoLostUpdate(states: seq<State>, steps: seq<Step>, n: nat)
    requires Run(states, steps) && n + 1 in states[|steps|].table.rows
    ensures
      var t := states[|steps|].table;
      && n < |t.log| && ValidPolicy(PolicyAt(t.rows, n)) && ValidPolicy(PolicyAt(t.rows, n + 1))
      && t.log[n].expected == n
      && t.log[n].changes == Changes(PolicyAt(t.rows, n), PolicyAt(t.rows, n + 1))
      && (Weakens(t.log[n].changes) ==> t.log[n].confirmed && t.log[n].signInAge <= REAUTHENTICATION_WINDOW && t.log[n].reason.Some?)
      && (forall i :: 0 <= i < |t.log| && t.log[i].expected == n ==> i == n)
  {
    hide Changes, PolicyOf, SoundVersion;
    EveryRunKeeps(states, steps, 0, |steps|);
    var t := states[|steps|].table;
    assert SoundDecision(t.rows, n + 1, t.log[n]);
    assert forall i :: 0 <= i < |t.log| ==> SoundDecision(t.rows, i + 1, t.log[i]);
  }

  /** A ready writer commits exactly when nobody has committed since the version it names. */
  lemma CommitsIffStillNewest(s: State, w: nat)
    requires Invariant(s) && w < |s.writers| && s.writers[w].Ready?
    ensures CommitPlan(s.table, s.writers[w].plan, true).1.Ok? <==> |s.table.log| == s.writers[w].plan.decided.expected
  {
  }

  /** Neighbouring versions hold different policies, and so different documents. */
  lemma NeighboursDiffer(states: seq<State>, steps: seq<Step>, v: nat)
    requires Run(states, steps) && v in states[|steps|].table.rows && v + 1 in states[|steps|].table.rows
    ensures
      var rows := states[|steps|].table.rows;
      PolicyAt(rows, v) != PolicyAt(rows, v + 1) && rows[v].document != rows[v + 1].document
  {
    NoLostUpdate(states, steps, v);
    NoChangesIffSame(PolicyAt(states[|steps|].table.rows, v), PolicyAt(states[|steps|].table.rows, v + 1));
    EveryRunKeeps(states, steps, 0, |steps|);
  }

  /** Every stored version passes its integrity check, so reading it never falls back to the empty policy. */
  lemma StoredVersionsAreIntact(states: seq<State>, steps: seq<Step>, v: nat)
    requires Run(states, steps) && v in states[|steps|].table.rows
    ensures
      var row := states[|steps|].table.rows[v];
      && PassesIntegrity(row.document, row.fingerprint)
      && ParseDocument(row.document) == Ok(PolicyAt(states[|steps|].table.rows, v))
  {
    EveryRunKeeps(states, steps, 0, |steps|);
    var row := states[|steps|].table.rows[v];
    assert SoundVersion(states[|steps|].table.rows, v);
    IntegrityIsCanonical(row.document, row.fingerprint);
  }

  // ---------------------------------------------------------------- rollback lineage

  /** The version a rollback goes back to, following `restored_version` to the end. */
  function Origin(rows: Versions, v: nat): (origin: nat)
    requires v in rows
    ensures origin in rows && origin <= v
  {
    var row := rows[v];
    if row.kind == RollbackVersion && row.restoredVersion.Some? && row.restoredVersion.value < v && row.restoredVersion.value in rows
    then Origin(rows, row.restoredVersion.value)
    else v
  }

  lemma {:induction false} OriginIsChange(rows: Versions, v: nat)
    requires (forall w :: w in rows ==> SoundVersion(rows, w)) && v in rows
    ensures rows[Origin(rows, v)].kind == ChangeVersion
    ensures rows[Origin(rows, v)].document == rows[v].document
  {
    assert SoundVersion(rows, v);
    if rows[v].kind == RollbackVersion {
      OriginIsChange(rows, rows[v].restoredVersion.value);
    }
  }

  /**
   In every run, versions are numbered from 1 without gaps, a rollback names the
   version before it and restores an earlier one, and following what rollbacks
   restore ends at an ordinary change with the identical document.
   */
  lemma RollbackLineage(states: seq<State>, steps: seq<Step>, v: nat)
    requires Run(states, steps)
    ensures
      var rows := states[|steps|].table.rows;
      && (v in rows <==> 1 <= v <= |states[|steps|].table.log|)
      && (v in rows && rows[v].kind == RollbackVersion ==>
            && rows[v].rollbackOf == Some(v - 1)
            && rows[v].restoredVersion.Some? && rows[v].restoredVersion.value < v - 1)
      && (v in rows ==> rows[Origin(rows, v)].kind == ChangeVersion && rows[Origin(rows, v)].document == rows[v].document)
  {
    EveryRunKeeps(states, steps, 0, |steps|);
    var rows := states[|steps|].table.rows;
    if v in rows {
      assert SoundVersion(rows, v);
      OriginIsChange(rows, v);
    }
  }

  /** A successful rollback makes the restored version's policy current again. */
  lemma RollbackRestores(t: Table, request: RollbackRequest)
    requires Contiguous(t.rows) && Rollback(t, request, true).1.Ok?
    ensures
      var after := Rollback(t, request, true).0.rows;
      && Latest(after) == Latest(t.rows) + 1
      && request.target > 0 && PolicyAt(after, Latest(after)) == PolicyAt(t.rows, request.target)
  {
    hide Changes, PassesIntegrity, ValidPolicy, PolicyOf;
    var after := Rollback(t, request, true).0.rows;
    LatestIs(after, Latest(t.rows) + 1);
  }
}
