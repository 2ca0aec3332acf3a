/** What a saved version owes to the request that saved it, in every interleaving of writers. */
module NotificationRequests {
  import opened Wrappers
  import opened NotificationSettings

  /** Per channel the value the document gives, else the built-in one; mandatory in-app delivery is on. */
  predicate Asked(definition: Definition, document: Document, setting: ChannelSetting) {
    var entry := if definition.name in document then document[definition.name] else Entry(None, None, None);
    && setting.inApp == (definition.mandatoryInApp
                         || if entry.inApp.Some? then entry.inApp.value else definition.builtin.inApp)
    && setting.email == (if entry.email.Some? then entry.email.value else definition.builtin.email)
    && setting.webhook == if entry.webhook.Some? then entry.webhook.value else definition.builtin.webhook
  }

  predicate Declared(catalogue: Catalogue, name: string) {
    exists i :: 0 <= i < |catalogue| && catalogue[i].name == name
  }

  ghost predicate HoldsDocument(catalogue: Catalogue, document: Document, types: Types) {
    && (forall name :: name in types <==> Declared(catalogue, name))
    && forall i :: 0 <= i < |catalogue| ==> catalogue[i].name in types && Asked(catalogue[i], document, types[catalogue[i].name])
  }

  lemma {:induction false} OnlyDeclared(catalogue: Catalogue, document: Document, name: string)
    ensures name in Normalize(catalogue, document) <==> Declared(catalogue, name)
  {
    if catalogue != [] {
      var rest, last := catalogue[..|catalogue| - 1], catalogue[|catalogue| - 1];
      OnlyDeclared(rest, document, name);
      assert forall i :: 0 <= i < |rest| ==> rest[i] == catalogue[i];
      if Declared(catalogue, name) && name != last.name {
        var i :| 0 <= i < |catalogue| && catalogue[i].name == name;
        assert rest[i].name == name;
      }
    }
  }

  /** Normalising a document yields exactly the declared types, each set as the document asks. */
  lemma NormalizeHolds(catalogue: Catalogue, document: Document)
    requires ValidCatalogue(catalogue)
    ensures HoldsDocument(catalogue, document, Normalize(catalogue, document))
  {
    NormalizeIsComplete(catalogue, document);
    forall name
      ensures name in Normalize(catalogue, document) <==> Declared(catalogue, name)
    {
      OnlyDeclared(catalogue, document, name);
    }
    forall i | 0 <= i < |catalogue|
      ensures Asked(catalogue[i], document, Normalize(catalogue, document)[catalogue[i].name])
    {
    }
  }

  /** A save lists, channel by channel, exactly the deliveries that were on and will be off, and how many recipients go. */
  lemma ListedIff(catalogue: Catalogue, before: Settings, types: Types, recipients: seq<string>, i: nat, count: nat)
    requires Complete(catalogue, before.types) && Complete(catalogue, types) && i < |catalogue|
    ensures
      var listed := DisabledDeliveries(catalogue, before, types, recipients);
      var name := catalogue[i].name;
      && (Delivery(name, InApp) in listed <==> before.types[name].inApp && !types[name].inApp)
      && (Delivery(name, Email) in listed <==> before.types[name].email && !types[name].email)
      && (Delivery(name, Webhook) in listed <==> before.types[name].webhook && !types[name].webhook)
      && (RecipientsRemoved(count) in listed <==>
            count > 0 && count == |set r | r in before.recipients && r !in recipients|)
  {
    hide DisabledTypes, DisabledDeliveries;
    var name := catalogue[i].name;
    DisabledTypesIff(catalogue, before.types, types, name, InApp);
    DisabledTypesIff(catalogue, before.types, types, name, Email);
    DisabledTypesIff(catalogue, before.types, types, name, Webhook);
    ListIsDeliveriesAndRecipients(catalogue, before, types, recipients, name, InApp, count);
    ListIsDeliveriesAndRecipients(catalogue, before, types, recipients, name, Email, count);
    ListIsDeliveriesAndRecipients(catalogue, before, types, recipients, name, Webhook, count);
  }

  lemma ListIsDeliveriesAndRecipients(
    catalogue: Catalogue, before: Settings, types: Types, recipients: seq<string>, name: string, channel: Channel, count: nat)
    requires Complete(catalogue, before.types) && Complete(catalogue, types)
    ensures
      var listed := DisabledDeliveries(catalogue, before, types, recipients);
      && (Delivery(name, channel) in listed <==> Delivery(name, channel) in DisabledTypes(catalogue, before.types, types))
      && (RecipientsRemoved(count) in listed <==> count > 0 && count == |set r | r in before.recipients && r !in recipients|)
  {
    hide DisabledTypes;
    OnlyDeliveries(catalogue, before.types, types);
    assert Dropped(before.recipients, recipients) == set r | r in before.recipients && r !in recipients;
  }

  /** A document is accepted if and only if it names declared types only and turns no mandatory in-app delivery off. */
  lemma AcceptedIff(catalogue: Catalogue, document: Document)
    requires ValidCatalogue(catalogue)
    ensures AcceptedDocument(catalogue, document) <==>
      && (forall name :: name in document ==> Declared(catalogue, name))
      && (forall i :: 0 <= i < |catalogue| && catalogue[i].mandatoryInApp && catalogue[i].name in document ==>
            document[catalogue[i].name].inApp.None? || document[catalogue[i].name].inApp.value)
  {
    if AcceptedDocument(catalogue, document) {
      forall i | 0 <= i < |catalogue| && catalogue[i].mandatoryInApp && catalogue[i].name in document
        ensures document[catalogue[i].name].inApp != Some(false)
      {
        assert AcceptedEntry(catalogue, catalogue[i].name, document[catalogue[i].name]);
      }
      forall name | name in document
        ensures Declared(catalogue, name)
      {
        assert AcceptedEntry(catalogue, name, document[name]);
      }
    }
  }

  /** A decided save replaces the row if and only if nobody has saved since the version it names; otherwise it changes nothing. */
  lemma SavesIffStillCurrent(catalogue: Catalogue, row: Option<Settings>, plan: Plan)
    ensures
      var (after, r) := CommitSave(catalogue, row, plan);
      if Load(catalogue, row).version == plan.expected
      then r == Ok(plan.expected + 1) && after == Some(Settings(plan.expected + 1, plan.types, plan.recipients))
      else r == Err(SaveError.Conflict(Load(catalogue, row).version)) && after == row
  {
  }

  // ---------------------------------------------------------------- in every run

  /** The version after the one the request names holds what was asked for, and was confirmed if the request says so. */
  ghost predicate Saved(catalogue: Catalogue, request: SaveRequest, s: State) {
    && request.expected + 1 < |s.history| && request.expected < |s.decisions|
    && var before, after := s.history[request.expected], s.history[request.expected + 1];
       && after.version == request.expected + 1
       && HoldsDocument(catalogue, request.document, after.types)
       && after.recipients == (if request.recipients.Some? then request.recipients.value else before.recipients)
       && s.decisions[request.expected].confirmed == request.confirm
  }

  lemma PlanHoldsRequest(catalogue: Catalogue, row: Option<Settings>, request: SaveRequest)
    requires ValidCatalogue(catalogue) && Complete(catalogue, Load(catalogue, row).types) && DecideSave(catalogue, row, request).Ok?
    ensures
      var plan := DecideSave(catalogue, row, request).value;
      && plan.expected == request.expected == Load(catalogue, row).version && plan.confirmed == request.confirm
      && HoldsDocument(catalogue, request.document, plan.types)
      && plan.recipients == if request.recipients.Some? then request.recipients.value else Load(catalogue, row).recipients
  {
    NormalizeHolds(catalogue, request.document);
  }

  lemma RunStep(catalogue: Catalogue, states: seq<State>, steps: seq<Step>, k: nat)
    requires Run(catalogue, states, steps) && k < |steps|
    ensures StepAllowed(catalogue, states[k], steps[k]) && states[k + 1] == Next(catalogue, states[k], steps[k])
  {
  }

  lemma NextKeepsReady(catalogue: Catalogue, s: State, step: Step, w: nat)
    requires StepAllowed(catalogue, s, step) && w < |s.writers| && s.writers[w].Ready?
    ensures w < |Next(catalogue, s, step).writers| && Next(catalogue, s, step).writers[w] == s.writers[w]
    ensures s.history <= Next(catalogue, s, step).history && s.decisions <= Next(catalogue, s, step).decisions
  {
    hide DecideSave, CommitSave, Load;
  }

  lemma NextKeepsHistory(catalogue: Catalogue, s: State, step: Step)
    requires StepAllowed(catalogue, s, step)
    ensures s.history <= Next(catalogue, s, step).history && s.decisions <= Next(catalogue, s, step).decisions
  {
    hide DecideSave, CommitSave, Load;
  }

  lemma {:induction false} ReadyStays(catalogue: Catalogue, states: seq<State>, steps: seq<Step>, i: nat, j: nat, w: nat)
    requires Run(catalogue, states, steps) && i <= j < |states| && w < |states[i].writers| && states[i].writers[w].Ready?
    ensures w < |states[j].writers| && states[j].writers[w] == states[i].writers[w]
    decreases j
  {
    hide Next, StepAllowed;
    if i < j {
      ReadyStays(catalogue, states, steps, i, j - 1, w);
      NextKeepsReady(catalogue, states[j - 1], steps[j - 1], w);
    }
  }

  lemma {:induction false} HistoryStays(catalogue: Catalogue, states: seq<State>, steps: seq<Step>, i: nat, j: nat)
    requires Run(catalogue, states, steps) && i <= j < |states|
    ensures states[i].history <= states[j].history && states[i].decisions <= states[j].decisions
    decreases j
  {
    hide Next, StepAllowed;
    if i < j {
      HistoryStays(catalogue, states, steps, i, j - 1);
      NextKeepsHistory(catalogue, states[j - 1], steps[j - 1]);
    }
  }

  lemma DecideMakesReady(catalogue: Catalogue, s: State, w: nat)
    requires StepAllowed(catalogue, s, Decide(w))
    ensures w < |Next(catalogue, s, Decide(w)).writers|
    ensures Next(catalogue, s, Decide(w)).writers[w] == Ready(DecideSave(catalogue, s.row, s.writers[w].request).value)
  {
    hide DecideSave;
  }

  lemma CommitExtends(catalogue: Catalogue, s: State, w: nat)
    requires Invariant(catalogue, s) && StepAllowed(catalogue, s, CommitNow(w))
    ensures
      var plan, after := s.writers[w].plan, Next(catalogue, s, CommitNow(w));
      && plan.expected == |s.decisions| && |s.history| == plan.expected + 1
      && after.history == s.history + [Settings(plan.expected + 1, plan.types, plan.recipients)]
      && after.decisions == s.decisions + [plan]
  {
    hide DisabledDeliveries, Complete;
    assert s.history[|s.decisions|].version == |s.decisions|;
  }

  lemma HistoryEndsWithRow(catalogue: Catalogue, s: State)
    requires Invariant(catalogue, s)
    ensures |s.history| == |s.decisions| + 1 && s.history[|s.decisions|] == Load(catalogue, s.row)
    ensures Load(catalogue, s.row).version == |s.decisions|
  {
    hide DisabledDeliveries, Complete, SoundPlan;
    assert s.history[|s.decisions|].version == |s.decisions|;
  }

  /**
   In every interleaving: when a writer decided a save in step i and committed it in
   step j, the next version has exactly the declared types, each with the value the
   document gives per channel or the built-in one, and the recipients asked for, or
   those of the version it names.
   */
  lemma SavedAsAsked(catalogue: Catalogue, states: seq<State>, steps: seq<Step>, i: nat, j: nat, w: nat)
    requires Run(catalogue, states, steps) && i < j < |steps|
    requires steps[i] == Decide(w) && w < |states[i].writers| && states[i].writers[w].Arrived? && steps[j] == CommitNow(w)
    ensures Saved(catalogue, states[i].writers[w].request, states[|steps|])
  {
    hide Next, DecideSave, Load, HoldsDocument, Invariant;
    var request := states[i].writers[w].request;
    RunStep(catalogue, states, steps, i);
    RunStep(catalogue, states, steps, j);
    DecideMakesReady(catalogue, states[i], w);
    PlanHoldsRequest(catalogue, states[i].row, request);
    ReadyStays(catalogue, states, steps, i + 1, j, w);
    EveryRunKeeps(catalogue, states, steps, i);
    EveryRunKeeps(catalogue, states, steps, j);
    HistoryEndsWithRow(catalogue, states[i]);
    CommitExtends(catalogue, states[j], w);
    HistoryStays(catalogue, states, steps, i, j);
    HistoryStays(catalogue, states, steps, j + 1, |steps|);
  }

  /** Deciding and committing with nothing in between is the save as a whole. */
  lemma SaveAlone(catalogue: Catalogue, s: State, request: SaveRequest)
    requires ValidCatalogue(catalogue) && Complete(catalogue, Load(catalogue, s.row).types) && DecideSave(catalogue, s.row, request).Ok?
    ensures
      var w := |s.writers|;
      var arrived := Next(catalogue, s, Arrive(request));
      && StepAllowed(catalogue, arrived, Decide(w))
      && var decided := Next(catalogue, arrived, Decide(w));
         StepAllowed(catalogue, decided, CommitNow(w))
         && Next(catalogue, decided, CommitNow(w)).row == CommitSave(catalogue, s.row, DecideSave(catalogue, s.row, request).value).0
         && Next(catalogue, decided, CommitNow(w)).row.Some?
  {
    hide NormalizeOne, DisabledDeliveries, Complete;
    PlanHoldsRequest(catalogue, s.row, request);
  }
}
