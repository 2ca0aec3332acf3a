/** What a published version owes to the request that published it, in every interleaving of writers. */
module PolicyRequests {
  import opened Wrappers
  import opened Json
  import opened Decision
  import opened PolicyDocuments
  import opened PolicyChanges
  import opened PolicyStore
  import opened PolicyRuns

  /** Omitted defaults are kept, except for rules that became mandatory. */
  ghost predicate Asked(request: UpdateRequest, before: Policy, after: Policy) {
    && after.floors == request.floors
    && (request.defaults.Some? ==> after.defaults == request.defaults.value)
    && (request.defaults.None? ==>
          forall rule :: (rule in after.defaults <==> rule in before.defaults && rule !in request.floors)
                         && (rule in after.defaults ==> after.defaults[rule] == before.defaults[rule]))
  }

  /** The stored row and decision are those of an ordinary change made by this request. */
  ghost predicate StoredFor(request: UpdateRequest, row: Version, decided: Decided) {
    && row.kind == ChangeVersion && row.reason == request.reason
    && decided.expected == request.expected && decided.reason == request.reason
    && decided.confirmed == request.confirm && decided.signInAge == request.signInAge
  }

  /** The version after the one the request names is what was asked for. */
  ghost predicate Published(request: UpdateRequest, t: Table) {
    && request.expected + 1 in t.rows && request.expected < |t.log|
    && Asked(request, PolicyAt(t.rows, request.expected), PolicyAt(t.rows, request.expected + 1))
    && StoredFor(request, t.rows[request.expected + 1], t.log[request.expected])
  }

  lemma PlanHoldsRequest(rows: Versions, request: UpdateRequest)
    requires Validated(request) && DecideUpdate(rows, request).Ok?
    ensures
      var plan := DecideUpdate(rows, request).value;
      && Latest(rows) == request.expected
      && Asked(request, PolicyAt(rows, request.expected), PolicyOf(plan.document))
      && StoredFor(request, NewVersion(plan, request.expected), plan.decided)
  {
    hide Changes, CanonicalDocument, SoundDocument, ValidPolicy, PolicyOf;
    ParsedIsKnown(rows, Latest(rows));
    NewPolicyIsValid(PolicyAt(rows, Latest(rows)), request);
    CanonicalIsSound(NewPolicy(PolicyAt(rows, Latest(rows)), request));
  }

  /** Without interference: a successful update publishes exactly what was asked for, as the next version. */
  lemma UpdatePublishes(t: Table, request: UpdateRequest, known: bool)
    requires Validated(request) && Update(t, request, known).1.Ok?
    ensures
      var (after, version) := Update(t, request, known);
      && version.value == request.expected + 1 == Latest(t.rows) + 1 && version.value in after.rows
      && Asked(request, PolicyAt(t.rows, request.expected), PolicyAt(after.rows, version.value))
      && after.log == t.log + [after.log[|t.log|]] && StoredFor(request, after.rows[version.value], after.log[|t.log|])
      && (forall v :: v != version.value ==> (v in after.rows <==> v in t.rows) && (v in t.rows ==> after.rows[v] == t.rows[v]))
  {
    hide Asked, PolicyOf;
    PlanHoldsRequest(t.rows, request);
  }

  // ---------------------------------------------------------------- exactly which requests are accepted

  /**
   An update is decided if and only if it names the newest version, asks for another
   policy without a rule that is both mandatory and a default, is confirmed from a
   recent sign-in with a reason if it weakens, and gives a reason in an emergency.
   */
  lemma UpdateDecidedIff(rows: Versions, request: UpdateRequest)
    requires Validated(request)
    ensures
      var current := PolicyAt(rows, Latest(rows));
      var next := NewPolicy(current, request);
      && KnownDefaults(current) && KnownDefaults(next)
      && (DecideUpdate(rows, request).Ok? <==>
            && Latest(rows) == request.expected && next != current
            && (request.defaults.Some? ==> request.floors.Keys !! request.defaults.value.Keys)
            && (Weakens(Changes(current, next)) ==> request.confirm && request.signInAge <= REAUTHENTICATION_WINDOW)
            && (Weakens(Changes(current, next)) || request.emergency ==> request.reason.Some?))
  {
    hide Weakens, PolicyOf, Changes, CanonicalDocument, NewPolicy, Validated, KnownDefaults, ValidPolicy;
    ParsedIsKnown(rows, Latest(rows));
    var current := PolicyAt(rows, Latest(rows));
    NewPolicyIsValid(current, request);
    ValidIsKnown(current);
    NoChangesIffSame(current, NewPolicy(current, request));
    NewPolicyHasDocument(current, request);
  }

  lemma NewPolicyHasDocument(current: Policy, request: UpdateRequest)
    ensures CanonicalDocument(NewPolicy(current, request)).Ok?
       <==> (request.defaults.Some? ==> request.floors.Keys !! request.defaults.value.Keys)
  {
    var next := NewPolicy(current, request);
    assert request.defaults.None? ==> next.floors.Keys !! next.defaults.Keys;
    DisjointHasDocument(next);
  }

  lemma DisjointHasDocument(p: Policy)
    ensures CanonicalDocument(p).Ok? <==> p.floors.Keys !! p.defaults.Keys
  {
  }

  /** A refusal is truthful. */
  lemma RefusalIsTrue(rows: Versions, request: UpdateRequest)
    requires Validated(request) && DecideUpdate(rows, request).Err?
    ensures
      var current := PolicyAt(rows, Latest(rows));
      var next := NewPolicy(current, request);
      && KnownDefaults(current) && KnownDefaults(next)
      && match DecideUpdate(rows, request).error
         case Conflict(newest) => newest == Latest(rows) != request.expected
         case Identical => next == current
         case ConfirmationRequired => Weakens(Changes(current, next)) && !request.confirm
         case ReauthenticationRequired => Weakens(Changes(current, next)) && request.signInAge > REAUTHENTICATION_WINDOW
         case ReasonRequired => (Weakens(Changes(current, next)) || request.emergency) && request.reason.None?
         case RuleIsMandatoryAndDefault => exists rule :: rule in next.floors && rule in next.defaults
         case _ => false
  {
    hide Weakens, PolicyOf, Changes, CanonicalDocument, NewPolicy, Validated, KnownDefaults, ValidPolicy;
    ParsedIsKnown(rows, Latest(rows));
    var current := PolicyAt(rows, Latest(rows));
    NewPolicyIsValid(current, request);
    ValidIsKnown(current);
    var next := NewPolicy(current, request);
    NoChangesIffSame(current, next);
    if CanonicalDocument(next).Err? {
      CommonRule(next);
    }
  }

  lemma ValidIsKnown(p: Policy)
    requires ValidPolicy(p)
    ensures KnownDefaults(p)
  {
  }

  lemma CommonRule(p: Policy)
    requires CanonicalDocument(p).Err?
    ensures exists rule :: rule in p.floors && rule in p.defaults
  {
    DisjointHasDocument(p);
    var rule :| rule in p.floors.Keys * p.defaults.Keys;
    assert rule in p.floors && rule in p.defaults;
  }

  /**
   A rollback that read the newest version is decided if and only if the version to
   restore is stored, intact and different, the change is confirmed, and a weakening
   one comes from a recent sign-in.
   */
  lemma RollbackDecidedIff(rows: Versions, request: RollbackRequest, current: Policy)
    requires ValidPolicy(current)
    ensures DecideRollback(rows, request, current).Ok? <==>
      && request.target >= 0 && request.target in rows && request.confirm
      && PassesIntegrity(rows[request.target].document, rows[request.target].fingerprint)
      && ValidPolicy(PolicyAt(rows, request.target)) && PolicyAt(rows, request.target) != current
      && (Weakens(Changes(current, PolicyAt(rows, request.target))) ==> request.signInAge <= REAUTHENTICATION_WINDOW)
  {
    hide Weakens, PolicyOf, PassesIntegrity;
    if request.target >= 0 && request.target in rows {
      ParsedIsKnown(rows, request.target);
      NoChangesIffSame(current, PolicyAt(rows, request.target));
    }
  }

  /**
   Without interference a rollback succeeds if and only if it gives a reason, names
   the newest version and an earlier one that is intact and different, is confirmed,
   comes from a recent sign-in if it weakens, and its target is known.
   */
  lemma RollbackSucceedsIff(t: Table, request: RollbackRequest, known: bool)
    requires Contiguous(t.rows)
    ensures
      var newest := Latest(t.rows);
      && ValidPolicy(PolicyAt(t.rows, newest))
      && (Rollback(t, request, known).1.Ok? <==>
            && known && request.reason.Some? && newest == request.expected && 1 <= request.target < newest && request.confirm
            && PassesIntegrity(t.rows[request.target].document, t.rows[request.target].fingerprint)
            && PolicyAt(t.rows, request.target) != PolicyAt(t.rows, newest) && ValidPolicy(PolicyAt(t.rows, request.target))
            && (Weakens(Changes(PolicyAt(t.rows, newest), PolicyAt(t.rows, request.target))) ==>
                  request.signInAge <= REAUTHENTICATION_WINDOW))
  {
    hide Weakens, PolicyOf, PassesIntegrity, Changes, ValidPolicy, DecideRollback;
    ParsedIsKnown(t.rows, Latest(t.rows));
    RollbackDecidedIff(t.rows, request, PolicyAt(t.rows, Latest(t.rows)));
    if DecideRollback(t.rows, request, PolicyAt(t.rows, Latest(t.rows))).Ok? {
      PlanNamesExpected(t.rows, request, PolicyAt(t.rows, Latest(t.rows)));
    }
  }

  lemma PlanNamesExpected(rows: Versions, request: RollbackRequest, current: Policy)
    requires ValidPolicy(current) && DecideRollback(rows, request, current).Ok?
    ensures DecideRollback(rows, request, current).value.decided.expected == request.expected
  {
    hide Weakens, PolicyOf, PassesIntegrity, Changes;
  }

  /** An update that is decided is published if and only if its target is known. */
  lemma UpdateSucceedsIff(t: Table, request: UpdateRequest, known: bool)
    requires Validated(request)
    ensures Update(t, request, known).1.Ok? <==> known && DecideUpdate(t.rows, request).Ok?
    ensures Update(t, request, known).1.Err? ==> Update(t, request, known).0 == t
  {
    hide Weakens, PolicyOf, Changes, CanonicalDocument, NewPolicy;
  }

  /** A successful rollback stores the restored version's document under its own request, as the next version. */
  lemma RollbackPublishes(t: Table, request: RollbackRequest, known: bool)
    requires Rollback(t, request, known).1.Ok?
    ensures
      var (after, version) := Rollback(t, request, known);
      && version.value == request.expected + 1 == Latest(t.rows) + 1 && version.value in after.rows
      && 1 <= request.target < request.expected && request.target in t.rows
      && after.rows[version.value].document == t.rows[request.target].document
      && after.rows[version.value].kind == RollbackVersion
      && after.rows[version.value].rollbackOf == Some(request.expected)
      && after.rows[version.value].restoredVersion == Some(request.target)
      && after.rows[version.value].reason == request.reason && request.reason.Some?
      && after.log == t.log + [after.log[|t.log|]]
      && after.log[|t.log|].expected == request.expected && after.log[|t.log|].confirmed == request.confirm
      && after.log[|t.log|].signInAge == request.signInAge && after.log[|t.log|].reason == request.reason
      && (forall v :: v != version.value ==> (v in after.rows <==> v in t.rows) && (v in t.rows ==> after.rows[v] == t.rows[v]))
  {
    hide Changes, PassesIntegrity, PolicyOf;
  }

  // ---------------------------------------------------------------- in every run

  lemma RunStep(states: seq<State>, steps: seq<Step>, k: nat)
    requires Run(states, steps) && k < |steps|
    ensures StepAllowed(states[k], steps[k]) && states[k + 1] == Next(states[k], steps[k])
  {
  }

  lemma ReadyStays(s: State, step: Step, w: nat)
    requires StepAllowed(s, step) && w < |s.writers| && s.writers[w].Ready?
    ensures w < |Next(s, step).writers| && Next(s, step).writers[w] == s.writers[w]
  {
    hide CommitPlan, DecideUpdate, DecideRollback, BeginRollback, Validated;
  }

  lemma {:induction false} ReadyStaysInRuns(states: seq<State>, steps: seq<Step>, i: nat, j: nat, w: nat)
    requires Run(states, steps) && i <= j < |states| && w < |states[i].writers| && states[i].writers[w].Ready?
    ensures w < |states[j].writers| && states[j].writers[w] == states[i].writers[w]
    decreases j
  {
    hide Next, StepAllowed;
    if i < j {
      ReadyStaysInRuns(states, steps, i, j - 1, w);
      ReadyStays(states[j - 1], steps[j - 1], w);
    }
  }

  lemma ReadIsAllowed(s: State, w: nat)
    requires StepAllowed(s, Read(w)) && w < |s.writers|
    ensures w < |Next(s, Read(w)).writers|
  {
    hide DecideUpdate, DecideRollback, BeginRollback, Validated;
  }

  lemma ReadDecides(s: State, w: nat)
    requires StepAllowed(s, Read(w)) && s.writers[w].Updating?
    ensures
      var request := s.writers[w].update;
      && Validated(request) && DecideUpdate(s.table.rows, request).Ok?
      && Next(s, Read(w)).writers[w] == Ready(DecideUpdate(s.table.rows, request).value)
  {
    hide Validated, DecideUpdate;
  }

  lemma CommitStores(s: State, w: nat, known: bool)
    requires StepAllowed(s, CommitNow(w, known))
    ensures
      var plan := s.writers[w].plan;
      var after := Next(s, CommitNow(w, known)).table;
      && Latest(s.table.rows) == plan.decided.expected
      && after.rows == s.table.rows[plan.decided.expected + 1 := NewVersion(plan, plan.decided.expected)]
      && after.log == s.table.log + [plan.decided]
  {
    hide NewVersion;
  }

  /** The table keeps what a commit stored. */
  lemma {:induction false} LogStays(states: seq<State>, steps: seq<Step>, i: nat, j: nat)
    requires Run(states, steps) && i <= j < |states|
    ensures states[i].table.log <= states[j].table.log
    decreases j
  {
    hide StepAllowed;
    if i < j {
      LogStays(states, steps, i, j - 1);
      NextKeepsLog(states[j - 1], steps[j - 1]);
    }
  }

  lemma NextKeepsLog(s: State, step: Step)
    requires StepAllowed(s, step)
    ensures s.table.log <= Next(s, step).table.log
  {
    hide NewVersion, AfterRead;
  }

  lemma InvariantCounts(s: State)
    requires Invariant(s)
    ensures |s.table.log| == Latest(s.table.rows)
    ensures forall v :: v in s.table.rows <==> 1 <= v <= Latest(s.table.rows)
  {
    hide SoundVersion, SoundDecision, SoundWriter;
  }

  /** The plan a writer commits is the one it decided when it read. */
  lemma DecidedPlan(states: seq<State>, steps: seq<Step>, i: nat, j: nat, w: nat)
    requires Run(states, steps) && i < j < |steps|
    requires steps[i] == Read(w) && w < |states[i].writers| && states[i].writers[w].Updating?
    ensures
      var request := states[i].writers[w].update;
      && Validated(request) && DecideUpdate(states[i].table.rows, request).Ok?
      && w < |states[j].writers| && states[j].writers[w] == Ready(DecideUpdate(states[i].table.rows, request).value)
  {
    hide Next, StepAllowed, Validated, DecideUpdate;
    RunStep(states, steps, i);
    ReadIsAllowed(states[i], w);
    ReadDecides(states[i], w);
    ReadyStaysInRuns(states, steps, i + 1, j, w);
  }

  /** What step j stored is still there at the end, and what it was based on never changed. */
  lemma StoredForGood(states: seq<State>, steps: seq<Step>, i: nat, j: nat, w: nat, plan: Plan, n: nat)
    requires Run(states, steps) && i < j < |steps| && steps[j].CommitNow? && steps[j].w == w
    requires w < |states[j].writers| && states[j].writers[w] == Ready(plan) && plan.decided.expected == n == Latest(states[i].table.rows)
    ensures
      var t := states[|steps|].table;
      && n + 1 in t.rows && t.rows[n + 1] == NewVersion(plan, n) && n < |t.log| && t.log[n] == plan.decided
      && PolicyAt(t.rows, n) == PolicyAt(states[i].table.rows, n)
  {
    hide Next, StepAllowed, NewVersion, Invariant, PolicyOf;
    RunStep(states, steps, j);
    CommitStores(states[j], w, steps[j].targetKnown);
    EveryRunKeeps(states, steps, i, |steps|);
    EveryRunKeeps(states, steps, j, j);
    EveryRunKeeps(states, steps, i, i);
    EveryRunKeeps(states, steps, j + 1, |steps|);
    LogStays(states, steps, j + 1, |steps|);
    InvariantCounts(states[i]);
    InvariantCounts(states[j]);
    InvariantCounts(states[|steps|]);
  }

  /**
   In every interleaving: when a writer read and decided an update in step i and
   committed it in step j, the version after the one its request names holds in
   every later state exactly what was asked for, relative to the version it names,
   under the reason, confirmation and sign-in of that request.
   */
  lemma PublishedAsRequested(states: seq<State>, steps: seq<Step>, i: nat, j: nat, w: nat)
    requires Run(states, steps) && i < j < |steps|
    requires steps[i] == Read(w) && w < |states[i].writers| && states[i].writers[w].Updating?
    requires steps[j].CommitNow? && steps[j].w == w
    ensures Published(states[i].writers[w].update, states[|steps|].table)
  {
    hide Next, StepAllowed, Validated, DecideUpdate, Asked, PolicyOf, Latest;
    var request := states[i].writers[w].update;
    DecidedPlan(states, steps, i, j, w);
    PlanHoldsRequest(states[i].table.rows, request);
    StoredForGood(states, steps, i, j, w, DecideUpdate(states[i].table.rows, request).value, request.expected);
  }

  // ---------------------------------------------------------------- a writer that nobody interrupts

  /** Reading, deciding and committing with nothing in between is the update as a whole. */
  lemma UpdateAlone(s: State, request: UpdateRequest)
    requires Validated(request) && Update(s.table, request, true).1.Ok?
    ensures
      var w := |s.writers|;
      var arrived := Next(s, Arrive(Updating(request)));
      && StepAllowed(arrived, Read(w))
      && var decided := Next(arrived, Read(w));
         StepAllowed(decided, CommitNow(w, true))
         && Next(decided, CommitNow(w, true)).table == Update(s.table, request, true).0
  {
    hide DecideUpdate, Validated, NewVersion;
  }

  /** The same for a rollback and its two reads. */
  lemma RollbackAlone(s: State, request: RollbackRequest)
    requires Rollback(s.table, request, true).1.Ok?
    ensures
      var w := |s.writers|;
      var arrived := Next(s, Arrive(RollingBack(request)));
      && StepAllowed(arrived, Read(w))
      && var begun := Next(arrived, Read(w));
         StepAllowed(begun, Read(w))
         && var decided := Next(begun, Read(w));
            StepAllowed(decided, CommitNow(w, true))
            && Next(decided, CommitNow(w, true)).table == Rollback(s.table, request, true).0
  {
    hide DecideRollback, BeginRollback, NewVersion, ValidPolicy;
    BegunIsValid(s.table.rows, request);
  }

  lemma BegunIsValid(rows: Versions, request: RollbackRequest)
    ensures BeginRollback(rows, request).Ok? ==> ValidPolicy(BeginRollback(rows, request).value)
  {
    ParsedIsKnown(rows, Latest(rows));
  }
}
