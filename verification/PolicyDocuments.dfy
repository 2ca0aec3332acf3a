/** Policies as stored documents: validation of input, canonical form, parsing, integrity. */
module PolicyDocuments {
  import opened Wrappers
  import opened Decision
  import opened Json

  /** The built-in policies and their actions. */
  const DEFAULT_POLICIES: map<string, Action> :=
    map["ai_coauthor" := Block, "ai_identity" := Block, "ai_trailer" := Block,
        "malformed_trailer" := Warn, "bot_identity" := Warn]

  predicate Known(key: string) {
    key in DEFAULT_POLICIES
  }

  function NameOf(action: Action): string {
    match action
    case Allow => "allow"
    case Warn => "warn"
    case Block => "block"
  }

  /** `Action(text)` */
  function ActionNamed(text: string): Option<Action> {
    if text == "allow" then Some(Allow)
    else if text == "warn" then Some(Warn)
    else if text == "block" then Some(Block)
    else None
  }

  lemma NamesRoundTrip(action: Action)
    ensures ActionNamed(NameOf(action)) == Some(action)
  {
  }

  /** Mandatory entries and default entries, by policy. */
  datatype Policy = Policy(floors: map<string, Action>, defaults: map<string, Action>)

  const NO_POLICY := Policy(map[], map[])

  ghost predicate ValidPolicy(p: Policy) {
    && (forall k :: k in p.floors ==> Known(k) && p.floors[k] != Allow)
    && (forall k :: k in p.defaults ==> Known(k) && k !in p.floors)
  }

  // ---------------------------------------------------------------- canonical form

  function FloorEntry(action: Action): Json {
    JString(NameOf(action))
  }

  function DefaultEntry(action: Action): Json {
    JObject([Field("action", JString(NameOf(action))), Field("enforcement", JString("default"))])
  }

  function Entry(p: Policy, key: string): Json
    requires key in p.floors || key in p.defaults
  {
    if key in p.defaults then DefaultEntry(p.defaults[key]) else FloorEntry(p.floors[key])
  }

  function Entries(p: Policy, keys: seq<string>): (fields: seq<Field>)
    requires forall i :: 0 <= i < |keys| ==> keys[i] in p.floors || keys[i] in p.defaults
    ensures |fields| == |keys|
    ensures forall i :: 0 <= i < |keys| ==> fields[i] == Field(keys[i], Entry(p, keys[i]))
  {
    if keys == [] then []
    else Entries(p, keys[..|keys| - 1]) + [Field(keys[|keys| - 1], Entry(p, keys[|keys| - 1]))]
  }

  ghost function Keys(p: Policy): (keys: seq<string>)
    ensures forall i :: 0 <= i < |keys| ==> keys[i] in p.floors || keys[i] in p.defaults
  {
    SortedKeys(p.floors.Keys + p.defaults.Keys)
  }

  datatype DocumentError = RuleIsBoth | NotAPolicy

  /** `canonical_document`; the text is determined by the JSON value. */
  ghost function CanonicalDocument(p: Policy): Result<Json, DocumentError> {
    if p.floors.Keys * p.defaults.Keys != {} then Err(RuleIsBoth)
    else Ok(JObject(Entries(p, Keys(p))))
  }

  method WriteDocument(p: Policy) returns (r: Result<Json, DocumentError>)
    ensures r == CanonicalDocument(p)
  {
    hide Entry, SortedKeys;
    if p.floors.Keys * p.defaults.Keys != {} {
      return Err(RuleIsBoth);
    }
    var keys := SortKeys(p.floors.Keys + p.defaults.Keys);
    assert keys == Keys(p);
    var fields := [];
    for i := 0 to |keys|
      invariant fields == Entries(p, keys[..i])
    {
      assert keys[..i + 1][..i] == keys[..i];
      fields := fields + [Field(keys[i], Entry(p, keys[i]))];
    }
    assert keys[..|keys|] == keys;
    return Ok(JObject(fields));
  }

  // ---------------------------------------------------------------- parsing

  predicate IsFloorEntry(value: Json) {
    value.JString? && (ActionNamed(value.text) == Some(Warn) || ActionNamed(value.text) == Some(Block))
  }

  predicate IsDefaultEntry(value: Json) {
    value.JObject? &&
    var entry := Dict(value.fields);
    && entry.Keys == {"action", "enforcement"}
    && entry["enforcement"] == JString("default")
    && entry["action"].JString?
    && ActionNamed(entry["action"].text).Some?
  }

  function DefaultAction(value: Json): Action
    requires IsDefaultEntry(value)
  {
    ActionNamed(Dict(value.fields)["action"].text).value
  }

  predicate ValidEntry(key: string, value: Json) {
    Known(key) && (IsFloorEntry(value) || IsDefaultEntry(value))
  }

  predicate AllValid(raw: map<string, Json>) {
    forall k | k in raw :: ValidEntry(k, raw[k])
  }

  function Split(raw: map<string, Json>): Policy
    requires AllValid(raw)
  {
    Policy(map k | k in raw && raw[k].JString? :: ActionNamed(raw[k].text).value,
           map k | k in raw && raw[k].JObject? :: DefaultAction(raw[k]))
  }

  /** `parse_document` on the value that `json.loads` returns. */
  function ParseDocument(document: Json): Result<Policy, DocumentError> {
    if !document.JObject? then Err(NotAPolicy)
    else
      var raw := Dict(document.fields);
      if AllValid(raw) then Ok(Split(raw)) else Err(NotAPolicy)
  }

  /** One turn of the loop: the action of an entry, unless the entry is refused. */
  method ReadEntry(key: string, value: Json) returns (action: Option<Action>)
    ensures action.Some? <==> ValidEntry(key, value)
    ensures action.Some? && value.JString? ==> action == ActionNamed(value.text)
    ensures action.Some? && !value.JString? ==> IsDefaultEntry(value) && action.value == DefaultAction(value)
  {
    if !Known(key) {
      return None;
    }
    if value.JString? {
      action := ActionNamed(value.text);
      if action == Some(Allow) {
        return None;
      }
    } else if value.JObject? && Dict(value.fields).Keys == {"action", "enforcement"} {
      var entry := Dict(value.fields);
      if entry["enforcement"] != JString("default") || !entry["action"].JString? {
        return None;
      }
      return ActionNamed(entry["action"].text);
    } else {
      return None;
    }
  }

  method ReadDocument(document: Json) returns (r: Result<Policy, DocumentError>)
    ensures r == ParseDocument(document)
  {
    if !document.JObject? {
      return Err(NotAPolicy);
    }
    var raw := Dict(document.fields);
    var floors, defaults := map[], map[];
    var left := raw.Keys;
    while left != {}
      invariant left <= raw.Keys
      invariant forall k :: k in raw && k !in left ==> ValidEntry(k, raw[k])
      invariant forall k :: k in floors <==> k in raw && k !in left && raw[k].JString?
      invariant forall k :: k in floors ==> Some(floors[k]) == ActionNamed(raw[k].text)
      invariant forall k :: k in defaults <==> k in raw && k !in left && raw[k].JObject?
      invariant forall k :: k in defaults ==> IsDefaultEntry(raw[k]) && defaults[k] == DefaultAction(raw[k])
      decreases |left|
    {
      var key :| key in left;
      var action := ReadEntry(key, raw[key]);
      if action.None? {
        return Err(NotAPolicy);
      }
      if raw[key].JString? {
        floors := floors[key := action.value];
      } else {
        defaults := defaults[key := action.value];
      }
      left := left - {key};
    }
    SplitRestores(Policy(floors, defaults), raw);
    return Ok(Policy(floors, defaults));
  }

  /** Whatever parses is a valid policy. */
  lemma ParsedIsValid(document: Json)
    ensures ParseDocument(document).Ok? ==> ValidPolicy(ParseDocument(document).value)
  {
  }

  // ---------------------------------------------------------------- the round trip

  lemma DefaultEntryParses(action: Action)
    ensures IsDefaultEntry(DefaultEntry(action)) && DefaultAction(DefaultEntry(action)) == action
  {
    var fields := DefaultEntry(action).fields;
    assert fields[0].key[0] == 'a' && fields[1].key[0] == 'e';
    DictHolds(fields);
    NamesRoundTrip(action);
    forall k
      ensures k in Dict(fields) <==> k in {"action", "enforcement"}
    {
    }
  }

  lemma EntryParses(p: Policy, key: string)
    requires ValidPolicy(p) && (key in p.floors || key in p.defaults)
    ensures ValidEntry(key, Entry(p, key))
    ensures Entry(p, key).JString? <==> key in p.floors
    ensures key in p.floors ==> ActionNamed(Entry(p, key).text) == Some(p.floors[key])
    ensures key in p.defaults ==> IsDefaultEntry(Entry(p, key)) && DefaultAction(Entry(p, key)) == p.defaults[key]
  {
    if key in p.defaults {
      DefaultEntryParses(p.defaults[key]);
    } else {
      NamesRoundTrip(p.floors[key]);
    }
  }

  ghost predicate NamesAll(p: Policy, keys: seq<string>) {
    && (forall k :: k in keys <==> k in p.floors || k in p.defaults)
    && (forall i, j :: 0 <= i < j < |keys| ==> keys[i] != keys[j])
    && (forall i :: 0 <= i < |keys| ==> keys[i] in p.floors || keys[i] in p.defaults)
  }

  lemma KeysNameAll(p: Policy)
    ensures NamesAll(p, Keys(p))
  {
    hide SortedKeys;
  }

  lemma EntriesDict(p: Policy, keys: seq<string>, k: string)
    requires NamesAll(p, keys)
    ensures k in Dict(Entries(p, keys)) <==> k in p.floors || k in p.defaults
    ensures k in Dict(Entries(p, keys)) ==> Dict(Entries(p, keys))[k] == Entry(p, k)
  {
    hide Entry, Dict, Entries;
    var fields := Entries(p, keys);
    DictHolds(fields);
    if k in keys {
      var i :| 0 <= i < |keys| && keys[i] == k;
      assert fields[i].key == k;
    }
  }

  lemma CanonicalDict(p: Policy)
    requires ValidPolicy(p)
    ensures CanonicalDocument(p).Ok?
    ensures
      var raw := Dict(CanonicalDocument(p).value.fields);
      forall k :: (k in raw <==> k in p.floors || k in p.defaults) && (k in raw ==> raw[k] == Entry(p, k))
  {
    hide Entry, Dict, Entries, Keys, Known;
    KeysNameAll(p);
    forall k
      ensures k in Dict(Entries(p, Keys(p))) <==> k in p.floors || k in p.defaults
      ensures k in Dict(Entries(p, Keys(p))) ==> Dict(Entries(p, Keys(p)))[k] == Entry(p, k)
    {
      EntriesDict(p, Keys(p), k);
    }
  }

  lemma SplitRestores(p: Policy, raw: map<string, Json>)
    requires forall k :: k in raw <==> k in p.floors || k in p.defaults
    requires forall k :: k in p.floors ==> k !in p.defaults
    requires forall k :: k in raw ==> ValidEntry(k, raw[k]) && (raw[k].JString? <==> k in p.floors)
    requires forall k :: k in p.floors ==> ActionNamed(raw[k].text) == Some(p.floors[k])
    requires forall k :: k in p.defaults ==> IsDefaultEntry(raw[k]) && DefaultAction(raw[k]) == p.defaults[k]
    ensures AllValid(raw) && Split(raw) == p
  {
    hide ActionNamed, DefaultAction, Known, IsFloorEntry;
    assert AllValid(raw);
    assert Split(raw).floors == p.floors;
    assert Split(raw).defaults == p.defaults;
  }

  /** `parse_document` undoes `canonical_document` on every valid policy. */
  lemma CanonicalRoundTrip(p: Policy)
    requires ValidPolicy(p)
    ensures CanonicalDocument(p).Ok? && ParseDocument(CanonicalDocument(p).value) == Ok(p)
  {
    CanonicalDict(p);
    var raw := Dict(CanonicalDocument(p).value.fields);
    forall k | k in raw
      ensures ValidEntry(k, raw[k])
      ensures raw[k].JString? <==> k in p.floors
      ensures k in p.floors ==> ActionNamed(raw[k].text) == Some(p.floors[k])
      ensures k in p.defaults ==> IsDefaultEntry(raw[k]) && DefaultAction(raw[k]) == p.defaults[k]
    {
      EntryParses(p, k);
    }
    SplitRestores(p, raw);
  }

  /** So different policies have different documents. */
  lemma CanonicalIsInjective(p: Policy, q: Policy)
    requires ValidPolicy(p) && ValidPolicy(q) && CanonicalDocument(p) == CanonicalDocument(q)
    ensures p == q
  {
    CanonicalRoundTrip(p);
    CanonicalRoundTrip(q);
  }

  // ---------------------------------------------------------------- integrity of a stored version

  /** SHA-256 of the document's text, as an injective function. */
  datatype Fingerprint = Sha256(of: Json)

  /** `_verify_integrity`, up to which of its three refusals is reported. */
  ghost predicate PassesIntegrity(document: Json, fingerprint: Fingerprint) {
    && Sha256(document) == fingerprint
    && ParseDocument(document).Ok?
    && ValidateFloors(AsJson(ParseDocument(document).value.floors)).Ok?
    && CanonicalDocument(ParseDocument(document).value) == Ok(document)
  }

  /** A version passes exactly when its fingerprint fits and it is some valid policy's canonical document. */
  lemma IntegrityIsCanonical(document: Json, fingerprint: Fingerprint)
    ensures PassesIntegrity(document, fingerprint) <==>
      && Sha256(document) == fingerprint
      && exists p :: ValidPolicy(p) && CanonicalDocument(p) == Ok(document)
  {
    hide CanonicalDocument, ParseDocument, ValidPolicy, AsJson, ValidateFloors;
    if PassesIntegrity(document, fingerprint) {
      ParsedIsValid(document);
    }
    if exists p :: ValidPolicy(p) && CanonicalDocument(p) == Ok(document) {
      var p :| ValidPolicy(p) && CanonicalDocument(p) == Ok(document);
      CanonicalRoundTrip(p);
      FloorsAreValid(p);
      FloorsValidate(p.floors);
    }
  }

  lemma FloorsAreValid(p: Policy)
    requires ValidPolicy(p)
    ensures ValidPolicy(Policy(p.floors, map[]))
  {
  }

  // ---------------------------------------------------------------- validation of input

  datatype InputError = NotAnObject | UnknownPolicy | InvalidAction(key: string)

  /** The loop of `validate_floors` (with `floor`) and of `validate_defaults` over the items in order. */
  function ValidateEntries(fields: seq<Field>, floor: bool): Result<map<string, Action>, InputError> {
    if fields == [] then Ok(map[])
    else
      var rest := ValidateEntries(fields[..|fields| - 1], floor);
      var key, value := fields[|fields| - 1].key, fields[|fields| - 1].value;
      if rest.Err? then rest
      else if !Known(key) then Err(UnknownPolicy)
      else if value.JNull? then rest
      else if !value.JString? || ActionNamed(value.text).None? || (floor && ActionNamed(value.text) == Some(Allow)) then
        Err(InvalidAction(key))
      else Ok(rest.value[key := ActionNamed(value.text).value])
  }

  function ValidateFloors(raw: Json): Result<map<string, Action>, InputError> {
    if raw.JObject? then ValidateEntries(raw.fields, true) else Err(NotAnObject)
  }

  method CheckEntries(fields: seq<Field>, floor: bool) returns (r: Result<map<string, Action>, InputError>)
    ensures r == ValidateEntries(fields, floor)
  {
    var actions := map[];
    for i := 0 to |fields|
      invariant ValidateEntries(fields[..i], floor) == Ok(actions)
    {
      assert fields[..i + 1][..i] == fields[..i];
      ErrorsStay(fields, i + 1, floor);
      var key, value := fields[i].key, fields[i].value;
      if !Known(key) {
        return Err(UnknownPolicy);
      }
      if !value.JNull? {
        if !value.JString? || ActionNamed(value.text).None? || (floor && ActionNamed(value.text) == Some(Allow)) {
          return Err(InvalidAction(key));
        }
        actions := actions[key := ActionNamed(value.text).value];
      }
    }
    assert fields[..|fields|] == fields;
    return Ok(actions);
  }

  lemma {:induction false} ErrorsStay(fields: seq<Field>, k: nat, floor: bool)
    requires k <= |fields|
    ensures ValidateEntries(fields[..k], floor).Err? ==> ValidateEntries(fields, floor) == ValidateEntries(fields[..k], floor)
    decreases |fields| - k
  {
    if k < |fields| {
      ErrorsStay(fields, k + 1, floor);
      assert fields[..k + 1][..k] == fields[..k];
    } else {
      assert fields[..k] == fields;
    }
  }

  /** What an accepted input may contain, and what it then means. */
  predicate AcceptableEntry(field: Field, floor: bool) {
    && Known(field.key)
    && (field.value.JNull?
        || (field.value.JString? && ActionNamed(field.value.text).Some? && (floor ==> ActionNamed(field.value.text) != Some(Allow))))
  }

  /** The loop accepts exactly the inputs all of whose entries are acceptable. */
  lemma {:induction false} ValidationAccepts(fields: seq<Field>, floor: bool)
    ensures ValidateEntries(fields, floor).Ok? <==> forall i :: 0 <= i < |fields| ==> AcceptableEntry(fields[i], floor)
  {
    if fields != [] {
      var rest := fields[..|fields| - 1];
      ValidationAccepts(rest, floor);
      assert forall i :: 0 <= i < |rest| ==> fields[i] == rest[i];
      assert fields == rest + [fields[|fields| - 1]];
    }
  }

  predicate TextAt(fields: seq<Field>, k: string, i: nat) {
    i < |fields| && fields[i].key == k && fields[i].value.JString?
  }

  /** ... and then yields the action of every text, */
  lemma {:induction false} ValidationYields(fields: seq<Field>, floor: bool)
    requires DistinctKeys(fields) && ValidateEntries(fields, floor).Ok?
    ensures
      var actions := ValidateEntries(fields, floor).value;
      forall i :: 0 <= i < |fields| && fields[i].value.JString? ==>
        fields[i].key in actions && Some(actions[fields[i].key]) == ActionNamed(fields[i].value.text)
  {
    hide ActionNamed, Known;
    if fields != [] {
      var rest := fields[..|fields| - 1];
      ValidationYields(rest, floor);
      assert forall i :: 0 <= i < |rest| ==> fields[i] == rest[i];
    }
  }

  /** ... and nothing else: a null is left out. */
  lemma {:induction false} ValidationYieldsOnly(fields: seq<Field>, floor: bool, k: string)
    requires ValidateEntries(fields, floor).Ok? && k in ValidateEntries(fields, floor).value
    ensures Known(k) && (floor ==> ValidateEntries(fields, floor).value[k] != Allow)
    ensures exists i: nat :: TextAt(fields, k, i)
  {
    hide ActionNamed, Known;
    var rest, last := fields[..|fields| - 1], |fields| - 1;
    if k in ValidateEntries(rest, floor).value {
      ValidationYieldsOnly(rest, floor, k);
      var i: nat :| TextAt(rest, k, i);
      assert TextAt(fields, k, i);
    } else {
      assert TextAt(fields, k, last);
    }
  }

  /** Validated floors and defaults without a common rule are a valid policy. */
  lemma ValidatedIsValid(floors: seq<Field>, defaults: seq<Field>)
    requires ValidateEntries(floors, true).Ok? && ValidateEntries(defaults, false).Ok?
    requires ValidateEntries(floors, true).value.Keys !! ValidateEntries(defaults, false).value.Keys
    ensures ValidPolicy(Policy(ValidateEntries(floors, true).value, ValidateEntries(defaults, false).value))
  {
    forall k | k in ValidateEntries(floors, true).value
      ensures Known(k) && ValidateEntries(floors, true).value[k] != Allow
    {
      ValidationYieldsOnly(floors, true, k);
    }
    forall k | k in ValidateEntries(defaults, false).value
      ensures Known(k)
    {
      ValidationYieldsOnly(defaults, false, k);
    }
  }

  /** A dictionary of actions as JSON. */
  ghost function AsJson(actions: map<string, Action>): Json {
    JObject(Entries(Policy(actions, map[]), Keys(Policy(actions, map[]))))
  }

  lemma FloorFieldsAcceptable(floors: map<string, Action>)
    requires ValidPolicy(Policy(floors, map[]))
    ensures
      var fields := Entries(Policy(floors, map[]), Keys(Policy(floors, map[])));
      && DistinctKeys(fields)
      && (forall i :: 0 <= i < |fields| ==>
            AcceptableEntry(fields[i], true) && fields[i].value.JString? && fields[i].key in floors
            && ActionNamed(fields[i].value.text) == Some(floors[fields[i].key]))
      && (forall k :: k in floors ==> exists i :: 0 <= i < |fields| && fields[i].key == k)
  {
    hide Known, ActionNamed, NameOf, SortedKeys;
    var p := Policy(floors, map[]);
    var keys := Keys(p);
    var fields := Entries(p, keys);
    forall i | 0 <= i < |fields|
      ensures AcceptableEntry(fields[i], true) && fields[i].key in floors
      ensures fields[i].value.JString? && ActionNamed(fields[i].value.text) == Some(floors[fields[i].key])
    {
      NamesRoundTrip(floors[keys[i]]);
    }
    forall k | k in floors
      ensures exists i :: 0 <= i < |fields| && fields[i].key == k
    {
      assert k in keys;
      var i :| 0 <= i < |keys| && keys[i] == k;
      assert fields[i].key == k;
    }
  }

  /** Two dictionaries that both give every field's action, and nothing else, are the same. */
  lemma FieldsDetermineActions(fields: seq<Field>, a: map<string, Action>, b: map<string, Action>)
    requires forall i :: 0 <= i < |fields| ==> fields[i].value.JString?
    requires forall i :: 0 <= i < |fields| ==> fields[i].key in a && Some(a[fields[i].key]) == ActionNamed(fields[i].value.text)
    requires forall i :: 0 <= i < |fields| ==> fields[i].key in b && Some(b[fields[i].key]) == ActionNamed(fields[i].value.text)
    requires forall k :: k in a ==> exists i :: 0 <= i < |fields| && fields[i].key == k
    requires forall k :: k in b ==> exists i :: 0 <= i < |fields| && fields[i].key == k
    ensures a == b
  {
  }

  /** Parsed floors always pass the second validation. */
  lemma FloorsValidate(floors: map<string, Action>)
    requires ValidPolicy(Policy(floors, map[]))
    ensures ValidateFloors(AsJson(floors)) == Ok(floors)
  {
    hide Entries, Keys, ActionNamed, Known, ValidateEntries, AcceptableEntry, ValidPolicy;
    var fields := Entries(Policy(floors, map[]), Keys(Policy(floors, map[])));
    FloorFieldsAcceptable(floors);
    ValidationAccepts(fields, true);
    ValidationYields(fields, true);
    forall k | k in ValidateEntries(fields, true).value
      ensures exists i :: 0 <= i < |fields| && fields[i].key == k
    {
      ValidationYieldsOnly(fields, true, k);
      var i: nat :| TextAt(fields, k, i);
      assert fields[i].key == k;
    }
    FieldsDetermineActions(fields, ValidateEntries(fields, true).value, floors);
  }
}
