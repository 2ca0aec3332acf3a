/** Exactly which documents parse, and to which policy. */
module PolicyParsing {
  import opened Wrappers
  import opened Json
  import opened Decision
  import opened PolicyDocuments

  lemma NamesAreExact(text: string, action: Action)
    ensures ActionNamed(text) == Some(action) <==> text == NameOf(action)
  {
  }

  /** A mandatory entry is the name of its action. */
  predicate SaysFloor(value: Json, action: Action) {
    value == JString(NameOf(action))
  }

  /** A default entry is an object with its action and its enforcement, and nothing else, in any order. */
  predicate SaysDefault(value: Json, action: Action) {
    && value.JObject?
    && Dict(value.fields) == map["action" := JString(NameOf(action)), "enforcement" := JString("default")]
  }

  /** The dictionary has exactly the policy's entries. */
  ghost predicate Says(raw: map<string, Json>, p: Policy) {
    && raw.Keys == p.floors.Keys + p.defaults.Keys
    && (forall k :: k in p.floors ==> SaysFloor(raw[k], p.floors[k]))
    && (forall k :: k in p.defaults ==> SaysDefault(raw[k], p.defaults[k]))
  }

  lemma FloorEntryIff(value: Json, action: Action)
    ensures IsFloorEntry(value) && ActionNamed(value.text) == Some(action) <==> SaysFloor(value, action) && action != Allow
  {
    if value.JString? {
      NamesAreExact(value.text, action);
      NamesAreExact(value.text, Warn);
      NamesAreExact(value.text, Block);
    }
    NamesRoundTrip(action);
  }

  lemma DefaultEntryIff(value: Json, action: Action)
    ensures IsDefaultEntry(value) && DefaultAction(value) == action <==> SaysDefault(value, action)
  {
    hide ActionNamed, NameOf;
    NamesRoundTrip(action);
    if value.JObject? {
      var entry := Dict(value.fields);
      if entry.Keys == {"action", "enforcement"} && entry["action"].JString? {
        NamesAreExact(entry["action"].text, action);
      }
      TwoEntries(entry, action);
    }
  }

  lemma TwoEntries(entry: map<string, Json>, action: Action)
    ensures entry == map["action" := JString(NameOf(action)), "enforcement" := JString("default")] <==>
      && entry.Keys == {"action", "enforcement"}
      && entry["action"] == JString(NameOf(action)) && entry["enforcement"] == JString("default")
  {
    hide NameOf;
    assert "action" != "enforcement" by {
      assert "action"[0] != "enforcement"[0];
    }
  }

  /** A document parses to a policy if and only if the policy is valid and the document says exactly that. */
  lemma ParsesIff(document: Json, p: Policy)
    ensures ParseDocument(document) == Ok(p) <==> document.JObject? && ValidPolicy(p) && Says(Dict(document.fields), p)
  {
    hide IsFloorEntry, IsDefaultEntry, ActionNamed, NameOf, DefaultAction, Known, Dict, ValidPolicy, AllValid, Says, SaysFloor, SaysDefault;
    if document.JObject? {
      var raw := Dict(document.fields);
      ParsedIsValid(document);
      if AllValid(raw) && Split(raw) == p {
        SplitSays(raw);
      }
      if ValidPolicy(p) && Says(raw, p) {
        SaysSplits(raw, p);
      }
    }
  }

  lemma SplitSays(raw: map<string, Json>)
    requires AllValid(raw)
    ensures Says(raw, Split(raw))
  {
    hide IsFloorEntry, IsDefaultEntry, ActionNamed, NameOf, DefaultAction, Known, SaysFloor, SaysDefault;
    var p := Split(raw);
    forall k | k in raw
      ensures k in p.floors ==> SaysFloor(raw[k], p.floors[k])
      ensures k in p.defaults ==> SaysDefault(raw[k], p.defaults[k])
      ensures k in p.floors || k in p.defaults
    {
      EntryIsOne(k, raw[k]);
      if raw[k].JString? {
        FloorEntryIff(raw[k], p.floors[k]);
      } else {
        DefaultEntryIff(raw[k], p.defaults[k]);
      }
    }
  }

  lemma EntryIsOne(key: string, value: Json)
    requires ValidEntry(key, value)
    ensures value.JString? || value.JObject?
    ensures value.JString? ==> IsFloorEntry(value) && ActionNamed(value.text).Some?
    ensures value.JObject? ==> IsDefaultEntry(value)
  {
  }

  lemma SaysSplits(raw: map<string, Json>, p: Policy)
    requires ValidPolicy(p) && Says(raw, p)
    ensures AllValid(raw) && Split(raw) == p
  {
    hide IsFloorEntry, IsDefaultEntry, ActionNamed, NameOf, DefaultAction, Known, SaysFloor, SaysDefault;
    forall k | k in raw
      ensures ValidEntry(k, raw[k])
      ensures k in p.floors ==> raw[k].JString? && ActionNamed(raw[k].text) == Some(p.floors[k])
      ensures k in p.defaults ==> raw[k].JObject? && IsDefaultEntry(raw[k]) && DefaultAction(raw[k]) == p.defaults[k]
    {
      if k in p.floors {
        FloorEntryIff(raw[k], p.floors[k]);
        SaysShape(raw[k], p.floors[k]);
      } else {
        DefaultEntryIff(raw[k], p.defaults[k]);
        SaysShape(raw[k], p.defaults[k]);
      }
    }
    assert Split(raw).floors == p.floors;
    assert Split(raw).defaults == p.defaults;
  }

  lemma SaysShape(value: Json, action: Action)
    ensures SaysFloor(value, action) ==> value.JString?
    ensures SaysDefault(value, action) ==> value.JObject?
  {
  }
}
