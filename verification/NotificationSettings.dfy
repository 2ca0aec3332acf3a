/**
 An organization's notification settings: one row, replaced in place. A save
 names the version it was based on; what it turns off is worked out before the
 transaction that writes it.
 */
module NotificationSettings {
  import opened Wrappers

  datatype ChannelSetting = ChannelSetting(inApp: bool, email: bool, webhook: bool)

  datatype Definition = Definition(name: string, mandatoryInApp: bool, builtin: ChannelSetting)

  /** The notification types in the order they are declared. */
  type Catalogue = seq<Definition>

  predicate ValidCatalogue(catalogue: Catalogue) {
    forall i, j :: 0 <= i < j < |catalogue| ==> catalogue[i].name != catalogue[j].name
  }

  type Types = map<string, ChannelSetting>

  datatype Settings = Settings(version: nat, types: Types, recipients: seq<string>)

  // ---------------------------------------------------------------- documents

  /** A saved document may leave out types and channels. */
  datatype Entry = Entry(inApp: Option<bool>, email: Option<bool>, webhook: Option<bool>)

  type Document = map<string, Entry>

  function NormalizeOne(definition: Definition, document: Document): ChannelSetting {
    var default := definition.builtin.(inApp := definition.builtin.inApp || definition.mandatoryInApp);
    if definition.name in document then
      var entry := document[definition.name];
      ChannelSetting(definition.mandatoryInApp || entry.inApp.GetOr(default.inApp),
                     entry.email.GetOr(default.email), entry.webhook.GetOr(default.webhook))
    else default
  }

  /** `_normalize`: every type of the catalogue, the built-in setting where the document says nothing. */
  function Normalize(catalogue: Catalogue, document: Document): Types {
    if catalogue == [] then map[]
    else
      var last := catalogue[|catalogue| - 1];
      Normalize(catalogue[..|catalogue| - 1], document)[last.name := NormalizeOne(last, document)]
  }

  /** A row that was never saved reads as version 0 with the built-in settings. */
  function Load(catalogue: Catalogue, row: Option<Settings>): Settings {
    if row.Some? then row.value else Settings(0, Normalize(catalogue, map[]), [])
  }

  ghost predicate Complete(catalogue: Catalogue, types: Types) {
    forall i :: 0 <= i < |catalogue| ==>
      catalogue[i].name in types && (catalogue[i].mandatoryInApp ==> types[catalogue[i].name].inApp)
  }

  lemma {:induction false} NormalizeIsComplete(catalogue: Catalogue, document: Document)
    requires ValidCatalogue(catalogue)
    ensures forall i :: 0 <= i < |catalogue| ==>
      catalogue[i].name in Normalize(catalogue, document)
      && Normalize(catalogue, document)[catalogue[i].name] == NormalizeOne(catalogue[i], document)
    ensures Complete(catalogue, Normalize(catalogue, document))
  {
    if catalogue != [] {
      NormalizeIsComplete(catalogue[..|catalogue| - 1], document);
    }
  }

  // ---------------------------------------------------------------- what a save turns off

  datatype Channel = InApp | Email | Webhook

  datatype Disabled = Delivery(name: string, channel: Channel) | RecipientsRemoved(count: nat)

  function On(setting: ChannelSetting, channel: Channel): bool {
    match channel
    case InApp => setting.inApp
    case Email => setting.email
    case Webhook => setting.webhook
  }

  function TurnsOff(name: string, was: ChannelSetting, now: ChannelSetting, channel: Channel): seq<Disabled> {
    if On(was, channel) && !On(now, channel) then [Delivery(name, channel)] else []
  }

  /** What the loop over the first `channels` channels finds. */
  function TurnsOffFirst(name: string, was: ChannelSetting, now: ChannelSetting, channels: nat): seq<Disabled> {
    (if channels > 0 then TurnsOff(name, was, now, InApp) else [])
    + (if channels > 1 then TurnsOff(name, was, now, Email) else [])
    + (if channels > 2 then TurnsOff(name, was, now, Webhook) else [])
  }

  lemma InTurnsOff(name: string, was: ChannelSetting, now: ChannelSetting, d: Disabled)
    ensures d in TurnsOffFirst(name, was, now, 3) <==> d.Delivery? && d.name == name && On(was, d.channel) && !On(now, d.channel)
  {
    forall c: Channel
      ensures d in TurnsOff(name, was, now, c) <==> On(was, c) && !On(now, c) && d == Delivery(name, c)
    {
    }
    var a, b, c := TurnsOff(name, was, now, InApp), TurnsOff(name, was, now, Email), TurnsOff(name, was, now, Webhook);
    assert d in a + b + c <==> d in a || d in b || d in c;
  }

  function DisabledTypes(catalogue: Catalogue, before: Types, types: Types): seq<Disabled>
    requires forall i :: 0 <= i < |catalogue| ==> catalogue[i].name in before && catalogue[i].name in types
  {
    if catalogue == [] then []
    else
      var name := catalogue[|catalogue| - 1].name;
      DisabledTypes(catalogue[..|catalogue| - 1], before, types) + TurnsOffFirst(name, before[name], types[name], 3)
  }

  function Dropped(before: seq<string>, recipients: seq<string>): set<string> {
    (set r | r in before) - (set r | r in recipients)
  }

  function DisabledDeliveries(catalogue: Catalogue, before: Settings, types: Types, recipients: seq<string>): seq<Disabled>
    requires Complete(catalogue, before.types) && Complete(catalogue, types)
  {
    DisabledTypes(catalogue, before.types, types)
    + var dropped := Dropped(before.recipients, recipients); if dropped == {} then [] else [RecipientsRemoved(|dropped|)]
  }

  /** `disabled_deliveries` */
  method ListDisabled(catalogue: Catalogue, before: Settings, types: Types, recipients: seq<string>) returns (removed: seq<Disabled>)
    requires Complete(catalogue, before.types) && Complete(catalogue, types)
    ensures removed == DisabledDeliveries(catalogue, before, types, recipients)
  {
    removed := [];
    for i := 0 to |catalogue|
      invariant removed == DisabledTypes(catalogue[..i], before.types, types)
    {
      assert catalogue[..i + 1][..i] == catalogue[..i];
      var name := catalogue[i].name;
      var was, now := before.types[name], types[name];
      var channels := [InApp, Email, Webhook];
      ghost var start := removed;
      for c := 0 to 3
        invariant removed == start + TurnsOffFirst(name, was, now, c)
      {
        if On(was, channels[c]) && !On(now, channels[c]) {
          removed := removed + [Delivery(name, channels[c])];
        }
      }
    }
    assert catalogue[..|catalogue|] == catalogue;
    var dropped := Dropped(before.recipients, recipients);
    if dropped != {} {
      removed := removed + [RecipientsRemoved(|dropped|)];
    }
  }

  lemma {:induction false} DisabledTypesIff(catalogue: Catalogue, before: Types, types: Types, name: string, channel: Channel)
    requires forall i :: 0 <= i < |catalogue| ==> catalogue[i].name in before && catalogue[i].name in types
    ensures Delivery(name, channel) in DisabledTypes(catalogue, before, types) <==>
      exists i :: 0 <= i < |catalogue| && catalogue[i].name == name && On(before[name], channel) && !On(types[name], channel)
  {
    hide TurnsOffFirst, On;
    if catalogue != [] {
      var rest, last := catalogue[..|catalogue| - 1], catalogue[|catalogue| - 1].name;
      DisabledTypesIff(rest, before, types, name, channel);
      InTurnsOff(last, before[last], types[last], Delivery(name, channel));
      assert forall i :: 0 <= i < |rest| ==> catalogue[i] == rest[i];
    }
  }

  /** Nothing is listed exactly when every delivery that was on stays on and every recipient is kept. */
  lemma NothingDisabledIff(catalogue: Catalogue, before: Settings, types: Types, recipients: seq<string>)
    requires Complete(catalogue, before.types) && Complete(catalogue, types)
    ensures DisabledDeliveries(catalogue, before, types, recipients) == [] <==>
      && (forall i, channel :: 0 <= i < |catalogue| && On(before.types[catalogue[i].name], channel) ==> On(types[catalogue[i].name], channel))
      && (forall r :: r in before.recipients ==> r in recipients)
  {
    var listed := DisabledTypes(catalogue, before.types, types);
    forall i, channel | 0 <= i < |catalogue|
      ensures listed == [] && On(before.types[catalogue[i].name], channel) ==> On(types[catalogue[i].name], channel)
    {
      DisabledTypesIff(catalogue, before.types, types, catalogue[i].name, channel);
    }
    if listed != [] {
      OnlyDeliveries(catalogue, before.types, types);
      var d := listed[0];
      DisabledTypesIff(catalogue, before.types, types, d.name, d.channel);
    }
    var dropped := Dropped(before.recipients, recipients);
    if forall r :: r in before.recipients ==> r in recipients {
      assert dropped == {};
    } else {
      var r :| r in before.recipients && r !in recipients;
      assert r in dropped;
    }
  }

  lemma {:induction false} OnlyDeliveries(catalogue: Catalogue, before: Types, types: Types)
    requires forall i :: 0 <= i < |catalogue| ==> catalogue[i].name in before && catalogue[i].name in types
    ensures forall d :: d in DisabledTypes(catalogue, before, types) ==> d.Delivery?
  {
    if catalogue != [] {
      OnlyDeliveries(catalogue[..|catalogue| - 1], before, types);
    }
  }

  // ---------------------------------------------------------------- saving

  datatype SaveError = InvalidDocument | Conflict(current: nat) | ConfirmationRequired(disabled: seq<Disabled>)

  datatype SaveRequest = SaveRequest(expected: nat, document: Document, recipients: Option<seq<string>>, confirm: bool)

  /** The entry names a declared type and does not turn mandatory in-app delivery off. */
  predicate AcceptedEntry(catalogue: Catalogue, name: string, entry: Entry) {
    exists i :: 0 <= i < |catalogue| && catalogue[i].name == name && !(catalogue[i].mandatoryInApp && entry.inApp == Some(false))
  }

  predicate AcceptedDocument(catalogue: Catalogue, document: Document) {
    forall name :: name in document ==> AcceptedEntry(catalogue, name, document[name])
  }

  /** What a save is about to write, and what it found it turns off. */
  datatype Plan = Plan(expected: nat, types: Types, recipients: seq<string>, disabled: seq<Disabled>, confirmed: bool)

  /** The validation of `update_organization`, its first transaction and the checks after it. */
  function DecideSave(catalogue: Catalogue, row: Option<Settings>, request: SaveRequest): Result<Plan, SaveError>
    requires ValidCatalogue(catalogue) && Complete(catalogue, Load(catalogue, row).types)
  {
    var current := Load(catalogue, row);
    var types := Normalize(catalogue, request.document);
    var recipients := request.recipients.GetOr(current.recipients);
    NormalizeIsComplete(catalogue, request.document);
    if !AcceptedDocument(catalogue, request.document) then Err(InvalidDocument)
    else if current.version != request.expected then Err(Conflict(current.version))
    else
      var disabled := DisabledDeliveries(catalogue, current, types, recipients);
      if disabled != [] && !request.confirm then Err(ConfirmationRequired(disabled))
      else Ok(Plan(request.expected, types, recipients, disabled, request.confirm))
  }

  /** The second transaction. */
  function CommitSave(catalogue: Catalogue, row: Option<Settings>, plan: Plan): (Option<Settings>, Result<nat, SaveError>) {
    var latest := Load(catalogue, row);
    if latest.version != plan.expected then (row, Err(Conflict(latest.version)))
    else (Some(Settings(plan.expected + 1, plan.types, plan.recipients)), Ok(plan.expected + 1))
  }

  class NotificationService {
    const catalogue: Catalogue
    var row: Option<Settings>

    ghost predicate Valid()
      reads this
    {
      ValidCatalogue(catalogue) && Complete(catalogue, Load(catalogue, row).types)
    }

    constructor (catalogue: Catalogue)
      requires ValidCatalogue(catalogue)
      ensures this.catalogue == catalogue && row == None && Valid()
    {
      NormalizeIsComplete(catalogue, map[]);
      this.catalogue := catalogue;
      row := None;
    }

    /** The loop of `validate_organization_document` over the entries: the first offending one refuses the document. */
    method ValidateDocument(document: Document) returns (accepted: bool)
      ensures accepted == AcceptedDocument(catalogue, document)
    {
      var todo := document.Keys;
      ghost var done: set<string> := {};
      while todo != {}
        invariant done + todo == document.Keys
        invariant forall name :: name in done ==> AcceptedEntry(catalogue, name, document[name])
        decreases todo
      {
        var name :| name in todo;
        var entry := document[name];
        var allowed := false;
        for i := 0 to |catalogue|
          invariant allowed <==> exists k :: 0 <= k < i && catalogue[k].name == name
                                             && !(catalogue[k].mandatoryInApp && entry.inApp == Some(false))
        {
          if catalogue[i].name == name && !(catalogue[i].mandatoryInApp && entry.inApp == Some(false)) {
            allowed := true;
          }
        }
        if !allowed {
          return false;
        }
        todo, done := todo - {name}, done + {name};
      }
      return true;
    }

    method Prepare(request: SaveRequest) returns (plan: Result<Plan, SaveError>)
      requires Valid()
      ensures plan == DecideSave(catalogue, row, request)
    {
      var current := Load(catalogue, row);
      var types := Normalize(catalogue, request.document);
      NormalizeIsComplete(catalogue, request.document);
      var accepted := ValidateDocument(request.document);
      if !accepted {
        return Err(InvalidDocument);
      }
      var recipients := if request.recipients.Some? then request.recipients.value else current.recipients;
      if current.version != request.expected {
        return Err(Conflict(current.version));
      }
      var disabled := ListDisabled(catalogue, current, types, recipients);
      if disabled != [] && !request.confirm {
        return Err(ConfirmationRequired(disabled));
      }
      return Ok(Plan(request.expected, types, recipients, disabled, request.confirm));
    }

    method Commit(plan: Plan) returns (r: Result<nat, SaveError>)
      requires Valid() && Complete(catalogue, plan.types)
      modifies this`row
      ensures Valid() && (row, r) == CommitSave(catalogue, old(row), plan)
    {
      var latest := Load(catalogue, row);
      if latest.version != plan.expected {
        return Err(Conflict(latest.version));
      }
      row := Some(Settings(plan.expected + 1, plan.types, plan.recipients));
      return Ok(plan.expected + 1);
    }
  }

  // ---------------------------------------------------------------- concurrent saves

  datatype Writer = Arrived(request: SaveRequest) | Ready(plan: Plan)

  /** `history[v]` is what version v held, `decisions[v]` the plan that replaced it; both are kept for the proof only. */
  datatype State = State(row: Option<Settings>, writers: seq<Writer>, history: seq<Settings>, decisions: seq<Plan>)

  datatype Step = Arrive(request: SaveRequest) | Decide(w: nat) | CommitNow(w: nat)

  function Start(catalogue: Catalogue): State {
    State(None, [], [Load(catalogue, None)], [])
  }

  ghost predicate StepAllowed(catalogue: Catalogue, s: State, step: Step) {
    match step
    case Arrive(_) => true
    case Decide(w) =>
      && w < |s.writers| && s.writers[w].Arrived?
      && ValidCatalogue(catalogue) && Complete(catalogue, Load(catalogue, s.row).types)
      && DecideSave(catalogue, s.row, s.writers[w].request).Ok?
    case CommitNow(w) =>
      w < |s.writers| && s.writers[w].Ready? && CommitSave(catalogue, s.row, s.writers[w].plan).1.Ok?
  }

  ghost function Next(catalogue: Catalogue, s: State, step: Step): State
    requires StepAllowed(catalogue, s, step)
  {
    match step
    case Arrive(request) => s.(writers := s.writers + [Arrived(request)])
    case Decide(w) => s.(writers := s.writers[w := Ready(DecideSave(catalogue, s.row, s.writers[w].request).value)])
    case CommitNow(w) =>
      var row := CommitSave(catalogue, s.row, s.writers[w].plan).0;
      s.(row := row, history := s.history + [row.value], decisions := s.decisions + [s.writers[w].plan])
  }

  ghost predicate Run(catalogue: Catalogue, states: seq<State>, steps: seq<Step>) {
    && ValidCatalogue(catalogue)
    && |states| == |steps| + 1
    && states[0] == Start(catalogue)
    && forall i :: 0 <= i < |steps| ==>
         StepAllowed(catalogue, states[i], steps[i]) && states[i + 1] == Next(catalogue, states[i], steps[i])
  }

  /** A plan was decided against what version `plan.expected` held. */
  ghost predicate SoundPlan(catalogue: Catalogue, history: seq<Settings>, plan: Plan) {
    && plan.expected < |history|
    && Complete(catalogue, plan.types) && Complete(catalogue, history[plan.expected].types)
    && plan.disabled == DisabledDeliveries(catalogue, history[plan.expected], plan.types, plan.recipients)
    && (plan.disabled != [] ==> plan.confirmed)
  }

  ghost predicate SoundHistory(catalogue: Catalogue, s: State) {
    && |s.history| == |s.decisions| + 1
    && s.history[|s.decisions|] == Load(catalogue, s.row)
    && (forall v :: 0 <= v < |s.history| ==> s.history[v].version == v && Complete(catalogue, s.history[v].types))
    && (forall v :: 0 <= v < |s.decisions| ==>
          && SoundPlan(catalogue, s.history, s.decisions[v]) && s.decisions[v].expected == v
          && s.history[v + 1] == Settings(v + 1, s.decisions[v].types, s.decisions[v].recipients))
  }

  ghost predicate Invariant(catalogue: Catalogue, s: State) {
    && SoundHistory(catalogue, s)
    && (forall w :: 0 <= w < |s.writers| && s.writers[w].Ready? ==> SoundPlan(catalogue, s.history, s.writers[w].plan))
  }

  lemma HistoryKeepsPlan(catalogue: Catalogue, history: seq<Settings>, more: Settings, plan: Plan)
    requires SoundPlan(catalogue, history, plan)
    ensures SoundPlan(catalogue, history + [more], plan)
  {
    assert (history + [more])[plan.expected] == history[plan.expected];
  }

  lemma DecisionIsSound(catalogue: Catalogue, s: State, request: SaveRequest)
    requires ValidCatalogue(catalogue) && SoundHistory(catalogue, s)
    requires Complete(catalogue, Load(catalogue, s.row).types) && DecideSave(catalogue, s.row, request).Ok?
    ensures SoundPlan(catalogue, s.history, DecideSave(catalogue, s.row, request).value)
  {
    NormalizeIsComplete(catalogue, request.document);
    assert s.history[|s.decisions|].version == |s.decisions|;
  }

  lemma CommitKeepsHistory(catalogue: Catalogue, s: State, plan: Plan)
    requires SoundHistory(catalogue, s) && SoundPlan(catalogue, s.history, plan) && CommitSave(catalogue, s.row, plan).1.Ok?
    ensures
      var row := CommitSave(catalogue, s.row, plan).0;
      SoundHistory(catalogue, s.(row := row, history := s.history + [row.value], decisions := s.decisions + [plan]))
  {
    hide DisabledDeliveries, Normalize;
    assert Complete(catalogue, plan.types);
  }

  lemma StepKeeps(catalogue: Catalogue, s: State, step: Step)
    requires ValidCatalogue(catalogue) && Invariant(catalogue, s) && StepAllowed(catalogue, s, step)
    ensures Invariant(catalogue, Next(catalogue, s, step))
  {
    match step
    case Arrive(_) =>
    case Decide(w) =>
      DecisionIsSound(catalogue, s, s.writers[w].request);
    case CommitNow(w) =>
      var plan := s.writers[w].plan;
      CommitKeepsHistory(catalogue, s, plan);
      var row := CommitSave(catalogue, s.row, plan).0;
      forall o | 0 <= o < |s.writers| && s.writers[o].Ready?
        ensures SoundPlan(catalogue, s.history + [row.value], s.writers[o].plan)
      {
        HistoryKeepsPlan(catalogue, s.history, row.value, s.writers[o].plan);
      }
  }

  lemma {:induction false} EveryRunKeeps(catalogue: Catalogue, states: seq<State>, steps: seq<Step>, i: nat)
    requires Run(catalogue, states, steps) && i < |states|
    ensures Invariant(catalogue, states[i])
  {
    if i == 0 {
      NormalizeIsComplete(catalogue, map[]);
    } else {
      EveryRunKeeps(catalogue, states, steps, i - 1);
      StepKeeps(catalogue, states[i - 1], steps[i - 1]);
    }
  }

  /**
   No lost update although the row is replaced in place: version v + 1 was decided
   against exactly what version v held, so whatever it turned off was listed and
   confirmed; no two committed saves name the same version; and a mandatory type
   is never off.
   */
  lemma NoLostSave(catalogue: Catalogue, states: seq<State>, steps: seq<Step>, v: nat)
    requires Run(catalogue, states, steps) && v < |states[|steps|].decisions|
    ensures |states[|steps|].history| == |states[|steps|].decisions| + 1
    ensures
      var s := states[|steps|];
      var plan, before, after := s.decisions[v], s.history[v], s.history[v + 1];
      && before.version == v && after == Settings(v + 1, plan.types, plan.recipients)
      && Complete(catalogue, before.types) && Complete(catalogue, after.types)
      && plan.disabled == DisabledDeliveries(catalogue, before, after.types, after.recipients)
      && (plan.disabled != [] ==> plan.confirmed)
      && Load(catalogue, s.row) == s.history[|s.decisions|]
      && (forall w :: 0 <= w < |s.decisions| && s.decisions[w].expected == plan.expected ==> w == v)
  {
    EveryRunKeeps(catalogue, states, steps, |steps|);
    var s := states[|steps|];
    assert SoundPlan(catalogue, s.history, s.decisions[v]);
  }

  /** A save is decided exactly on an accepted document, the current version, and a confirmation if anything is turned off. */
  lemma SaveDecidedIff(catalogue: Catalogue, row: Option<Settings>, request: SaveRequest)
    requires ValidCatalogue(catalogue) && Complete(catalogue, Load(catalogue, row).types)
    ensures
      var current := Load(catalogue, row);
      var types := Normalize(catalogue, request.document);
      && Complete(catalogue, types)
      && (DecideSave(catalogue, row, request).Ok? <==>
            && AcceptedDocument(catalogue, request.document) && current.version == request.expected
            && (request.confirm || DisabledDeliveries(catalogue, current, types, request.recipients.GetOr(current.recipients)) == []))
  {
    NormalizeIsComplete(catalogue, request.document);
  }

  /**
   A save that leaves a type out returns that type to its built-in setting: the
   stored setting is kept if and only if it equals the built-in one. If that turns
   a delivery off, the save needs confirmation; if it turns one on, it does not.
   */
  lemma OmittedTypesAreReset(catalogue: Catalogue, row: Option<Settings>, request: SaveRequest, i: nat, channel: Channel)
    requires ValidCatalogue(catalogue) && Complete(catalogue, Load(catalogue, row).types)
    requires i < |catalogue| && catalogue[i].name !in request.document && DecideSave(catalogue, row, request).Ok?
    ensures
      var plan := DecideSave(catalogue, row, request).value;
      && catalogue[i].name in plan.types && plan.types[catalogue[i].name] == NormalizeOne(catalogue[i], map[])
      && (plan.types[catalogue[i].name] == Load(catalogue, row).types[catalogue[i].name]
          <==> Load(catalogue, row).types[catalogue[i].name] == NormalizeOne(catalogue[i], map[]))
      && ((On(Load(catalogue, row).types[catalogue[i].name], channel) && !On(plan.types[catalogue[i].name], channel)) ==>
            Delivery(catalogue[i].name, channel) in plan.disabled && plan.confirmed)
  {
    NormalizeIsComplete(catalogue, request.document);
    var plan := DecideSave(catalogue, row, request).value;
    DisabledTypesIff(catalogue, Load(catalogue, row).types, plan.types, catalogue[i].name, channel);
  }

  /**
   By example: an organization had turned e-mail off for a type; saving a document
   that leaves the type out turns it on again, unlisted and unconfirmed.
   */
  lemma OmittedTypeTurnsOn(name: string, recipients: seq<string>)
    ensures
      var definition := Definition(name, false, ChannelSetting(true, true, false));
      var stored := Settings(1, map[name := ChannelSetting(true, false, false)], recipients);
      var saved := DecideSave([definition], Some(stored), SaveRequest(1, map[], None, false));
      saved.Ok? && saved.value.types == map[name := definition.builtin] && saved.value.disabled == []
  {
    var definition := Definition(name, false, ChannelSetting(true, true, false));
    var stored := Settings(1, map[name := ChannelSetting(true, false, false)], recipients);
    var types := Normalize([definition], map[]);
    assert [definition][..0] == [];
    assert Normalize([], map[]) == map[];
    assert types == map[name := NormalizeOne(definition, map[])] == map[name := definition.builtin];
    SaveDecidedIff([definition], Some(stored), SaveRequest(1, map[], None, false));
    NothingDisabledIff([definition], stored, types, recipients);
  }
}
