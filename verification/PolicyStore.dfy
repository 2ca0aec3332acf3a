/**
 The versioned policy of one target (the organization, a group or a repository):
 an append-only table, written by updates and rollbacks that read first, decide,
 and then commit in a transaction that checks the version they were based on.
 */
module PolicyStore {
  import opened Wrappers
  import opened Json
  import opened Decision
  import opened PolicyDocuments
  import opened PolicyChanges

  /** A sign-in older than this (in seconds) does not cover a weakening change. */
  const REAUTHENTICATION_WINDOW: int := 15 * 60

  datatype Kind = ChangeVersion | RollbackVersion

  /** A row of the version table. */
  datatype Version = Version(
    document: Json,
    fingerprint: Fingerprint,
    kind: Kind,
    rollbackOf: Option<nat>,
    restoredVersion: Option<nat>,
    reason: Option<string>)

  type Versions = map<nat, Version>

  /** What was decided, and against which version, for a published version. */
  datatype Decided = Decided(
    expected: nat,
    changes: seq<Change>,
    weakening: bool,
    confirmed: bool,
    signInAge: int,
    reason: Option<string>)

  datatype PublishError =
    | Conflict(current: nat)
    | Identical
    | ConfirmationRequired
    | ReauthenticationRequired
    | ReasonRequired
    | RuleIsMandatoryAndDefault
    | TargetNotEarlier
    | IntegrityFailed
    | UnknownTarget

  // ---------------------------------------------------------------- reads

  ghost function MaxOf(keys: set<nat>): (m: nat)
    ensures forall k :: k in keys ==> k <= m
    ensures keys != {} ==> m in keys
    ensures keys == {} ==> m == 0
  {
    if keys == {} then 0
    else
      var k :| k in keys;
      assert keys == (keys - {k}) + {k};
      var rest := MaxOf(keys - {k});
      if k >= rest then k else rest
  }

  /** `SELECT MAX(version)`, 0 when there is no version. */
  ghost function Latest(rows: Versions): nat {
    MaxOf(rows.Keys)
  }

  /** `_version`: a document that does not parse reads as the empty policy. */
  function PolicyOf(document: Json): Policy {
    var parsed := ParseDocument(document);
    if parsed.Ok? then parsed.value else NO_POLICY
  }

  /** The policy of a version; version 0 is "no policy". */
  function PolicyAt(rows: Versions, version: nat): Policy {
    if version in rows then PolicyOf(rows[version].document) else NO_POLICY
  }

  // ---------------------------------------------------------------- update: read and decide

  datatype UpdateRequest = UpdateRequest(
    expected: nat,
    floors: map<string, Action>,
    defaults: Option<map<string, Action>>,
    reason: Option<string>,
    confirm: bool,
    signInAge: int,
    emergency: bool)

  /** What `validate_floors` and `validate_defaults` let through. */
  ghost predicate Validated(request: UpdateRequest) {
    && (forall k :: k in request.floors ==> Known(k) && request.floors[k] != Allow)
    && (request.defaults.Some? ==> forall k :: k in request.defaults.value ==> Known(k))
  }

  /** A version ready to be committed, with what was decided about it. */
  datatype Plan = Plan(document: Json, kind: Kind, restored: Option<nat>, decided: Decided)

  function NewPolicy(current: Policy, request: UpdateRequest): Policy {
    Policy(request.floors,
           if request.defaults.Some? then request.defaults.value
           else map k | k in current.defaults && k !in request.floors :: current.defaults[k])
  }

  /** `update` up to its transaction, on the rows it read. */
  ghost function DecideUpdate(rows: Versions, request: UpdateRequest): Result<Plan, PublishError>
    requires Validated(request)
  {
    var latest := Latest(rows);
    var current := PolicyAt(rows, latest);
    ParsedIsKnown(rows, latest);
    if latest != request.expected then Err(Conflict(latest))
    else
      var next := NewPolicy(current, request);
      var changes := Changes(current, next);
      var weakening := Weakens(changes);
      if changes == [] then Err(Identical)
      else if weakening && !request.confirm then Err(ConfirmationRequired)
      else if weakening && request.signInAge > REAUTHENTICATION_WINDOW then Err(ReauthenticationRequired)
      else if (weakening || request.emergency) && request.reason.None? then Err(ReasonRequired)
      else if CanonicalDocument(next).Err? then Err(RuleIsMandatoryAndDefault)
      else Ok(Plan(CanonicalDocument(next).value, ChangeVersion, None,
                   Decided(request.expected, changes, weakening, request.confirm, request.signInAge, request.reason)))
  }

  lemma ParsedIsKnown(rows: Versions, version: nat)
    ensures ValidPolicy(PolicyAt(rows, version))
  {
    if version in rows {
      ParsedIsValid(rows[version].document);
    }
  }

  // ---------------------------------------------------------------- rollback: two reads

  datatype RollbackRequest = RollbackRequest(
    target: int,
    expected: nat,
    reason: Option<string>,
    confirm: bool,
    signInAge: int)

  /** The first part of `_rollback`: the current version, unless it is refused. */
  ghost function BeginRollback(rows: Versions, request: RollbackRequest): Result<Policy, PublishError> {
    var latest := Latest(rows);
    if request.reason.None? then Err(ReasonRequired)
    else if latest != request.expected then Err(Conflict(latest))
    else if !(1 <= request.target < latest) then Err(TargetNotEarlier)
    else Ok(PolicyAt(rows, latest))
  }

  /** The second part, on a later read: the version to restore against the policy read before. */
  ghost function DecideRollback(rows: Versions, request: RollbackRequest, current: Policy): Result<Plan, PublishError>
    requires ValidPolicy(current)
  {
    if request.target < 0 || request.target !in rows then Err(TargetNotEarlier)
    else
      var restored := rows[request.target];
      ParsedIsKnown(rows, request.target);
      var changes := Changes(current, PolicyOf(restored.document));
      var weakening := Weakens(changes);
      if !PassesIntegrity(restored.document, restored.fingerprint) then Err(IntegrityFailed)
      else if changes == [] then Err(Identical)
      else if !request.confirm then Err(ConfirmationRequired)
      else if weakening && request.signInAge > REAUTHENTICATION_WINDOW then Err(ReauthenticationRequired)
      else Ok(Plan(restored.document, RollbackVersion, Some(request.target),
                   Decided(request.expected, changes, weakening, request.confirm, request.signInAge, request.reason)))
  }

  // ---------------------------------------------------------------- the committing transaction

  datatype Table = Table(rows: Versions, log: seq<Decided>)

  function NewVersion(plan: Plan, latest: nat): Version {
    Version(plan.document, Sha256(plan.document), plan.kind,
            if plan.kind == RollbackVersion then Some(latest) else None, plan.restored, plan.decided.reason)
  }

  ghost function CommitPlan(table: Table, plan: Plan, targetKnown: bool): (Table, Result<nat, PublishError>) {
    var latest := Latest(table.rows);
    if !targetKnown then (table, Err(UnknownTarget))
    else if latest != plan.decided.expected then (table, Err(Conflict(latest)))
    else (Table(table.rows[latest + 1 := NewVersion(plan, latest)], table.log + [plan.decided]), Ok(latest + 1))
  }

  /** `update` without interference. */
  ghost function Update(table: Table, request: UpdateRequest, targetKnown: bool): (Table, Result<nat, PublishError>)
    requires Validated(request)
  {
    var plan := DecideUpdate(table.rows, request);
    if plan.Err? then (table, Err(plan.error)) else CommitPlan(table, plan.value, targetKnown)
  }

  /** `rollback` without interference. */
  ghost function Rollback(table: Table, request: RollbackRequest, targetKnown: bool): (Table, Result<nat, PublishError>) {
    var begun := BeginRollback(table.rows, request);
    if begun.Err? then (table, Err(begun.error))
    else
      ParsedIsKnown(table.rows, Latest(table.rows));
      var plan := DecideRollback(table.rows, request, begun.value);
      if plan.Err? then (table, Err(plan.error)) else CommitPlan(table, plan.value, targetKnown)
  }

  // ---------------------------------------------------------------- the service, updating its tables in place

  class OrganizationPolicyService {
    var rows: Versions
    var log: seq<Decided>

    ghost function State(): Table
      reads this
    {
      Table(rows, log)
    }

    constructor ()
      ensures State() == Table(map[], [])
    {
      rows, log := map[], [];
    }

    method MaxVersion() returns (latest: nat)
      ensures latest == Latest(rows)
    {
      latest := 0;
      var left := rows.Keys;
      while left != {}
        invariant left <= rows.Keys
        invariant forall v :: v in rows && v !in left ==> v <= latest
        invariant latest in rows || (latest == 0 && left == rows.Keys)
        decreases |left|
      {
        var v :| v in left;
        left := left - {v};
        if v > latest || latest !in rows {
          latest := v;
        }
      }
    }

    method InsertVersion(version: nat, plan: Plan, latest: nat)
      modifies this
      ensures State() == Table(old(rows)[version := NewVersion(plan, latest)], old(log) + [plan.decided])
    {
      var rollbackOf := if plan.kind == RollbackVersion then Some(latest) else None;
      rows := rows[version := Version(plan.document, Sha256(plan.document), plan.kind, rollbackOf, plan.restored, plan.decided.reason)];
      log := log + [plan.decided];
    }

    method Commit(plan: Plan, targetKnown: bool) returns (r: Result<nat, PublishError>)
      modifies this
      ensures (State(), r) == CommitPlan(old(State()), plan, targetKnown)
    {
      if !targetKnown {
        return Err(UnknownTarget);
      }
      var latest := MaxVersion();
      if latest != plan.decided.expected {
        return Err(Conflict(latest));
      }
      InsertVersion(latest + 1, plan, latest);
      return Ok(latest + 1);
    }

    method PrepareUpdate(request: UpdateRequest) returns (plan: Result<Plan, PublishError>)
      requires Validated(request)
      ensures plan == DecideUpdate(rows, request)
    {
      var latest := MaxVersion();
      var current := PolicyAt(rows, latest);
      ParsedIsKnown(rows, latest);
      if latest != request.expected {
        return Err(Conflict(latest));
      }
      var next := NewPolicy(current, request);
      var changes := ListChanges(current, next);
      if changes == [] {
        return Err(Identical);
      }
      var weakening := Weakens(changes);
      if weakening && !request.confirm {
        return Err(ConfirmationRequired);
      }
      if weakening && request.signInAge > REAUTHENTICATION_WINDOW {
        return Err(ReauthenticationRequired);
      }
      if (weakening || request.emergency) && request.reason.None? {
        return Err(ReasonRequired);
      }
      var document := WriteDocument(next);
      if document.Err? {
        return Err(RuleIsMandatoryAndDefault);
      }
      return Ok(Plan(document.value, ChangeVersion, None,
                     Decided(request.expected, changes, weakening, request.confirm, request.signInAge, request.reason)));
    }

    method PublishUpdate(request: UpdateRequest, targetKnown: bool) returns (r: Result<nat, PublishError>)
      requires Validated(request)
      modifies this
      ensures (State(), r) == Update(old(State()), request, targetKnown)
    {
      var plan := PrepareUpdate(request);
      if plan.Err? {
        return Err(plan.error);
      }
      r := Commit(plan.value, targetKnown);
    }

    /** `_verify_integrity` */
    method VerifyIntegrity(document: Json, fingerprint: Fingerprint) returns (ok: bool)
      ensures ok == PassesIntegrity(document, fingerprint)
    {
      if Sha256(document) != fingerprint {
        return false;
      }
      var parsed := ReadDocument(document);
      if parsed.Err? {
        return false;
      }
      ParsedIsValid(document);
      FloorsValidate(parsed.value.floors);
      var canonical := WriteDocument(parsed.value);
      return canonical == Ok(document);
    }

    method PrepareRollback(request: RollbackRequest, current: Policy) returns (plan: Result<Plan, PublishError>)
      requires ValidPolicy(current)
      ensures plan == DecideRollback(rows, request, current)
    {
      hide Changes, PassesIntegrity, PolicyOf, Weakens;
      if request.target < 0 || request.target !in rows {
        return Err(TargetNotEarlier);
      }
      var restored := rows[request.target];
      ParsedIsKnown(rows, request.target);
      var intact := VerifyIntegrity(restored.document, restored.fingerprint);
      if !intact {
        return Err(IntegrityFailed);
      }
      var diff := DiffPolicies(current, PolicyOf(restored.document));
      NothingDiffers(Changes(current, PolicyOf(restored.document)));
      if diff.added == [] && diff.changed == [] && diff.removed == [] {
        return Err(Identical);
      }
      if !request.confirm {
        return Err(ConfirmationRequired);
      }
      if diff.weakening && request.signInAge > REAUTHENTICATION_WINDOW {
        return Err(ReauthenticationRequired);
      }
      var changes := ListChanges(current, PolicyOf(restored.document));
      return Ok(Plan(restored.document, RollbackVersion, Some(request.target),
                     Decided(request.expected, changes, diff.weakening, request.confirm, request.signInAge, request.reason)));
    }

    method PublishRollback(request: RollbackRequest, targetKnown: bool) returns (r: Result<nat, PublishError>)
      modifies this
      ensures (State(), r) == Rollback(old(State()), request, targetKnown)
    {
      if request.reason.None? {
        return Err(ReasonRequired);
      }
      var latest := MaxVersion();
      if latest != request.expected {
        return Err(Conflict(latest));
      }
      if !(1 <= request.target < latest) {
        return Err(TargetNotEarlier);
      }
      ParsedIsKnown(rows, latest);
      var plan := PrepareRollback(request, PolicyAt(rows, latest));
      if plan.Err? {
        return Err(plan.error);
      }
      r := Commit(plan.value, targetKnown);
    }
  }
}
