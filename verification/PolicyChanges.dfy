/** Differences between two policies, and which of them weaken enforcement. */
module PolicyChanges {
  import opened Wrappers
  import opened Decision
  import opened Json
  import opened PolicyDocuments

  datatype Enforcement = Mandatory | Default

  datatype Change = Change(
    policyId: string,
    before: Option<Action>,
    after: Option<Action>,
    weakening: bool,
    enforcement: Enforcement)

  function Get(actions: map<string, Action>, key: string): Option<Action> {
    if key in actions then Some(actions[key]) else None
  }

  function Builtin(key: string): Action
    requires Known(key)
  {
    DEFAULT_POLICIES[key]
  }

  // ---------------------------------------------------------------- policy_changes

  predicate FloorWeakens(before: Option<Action>, after: Option<Action>) {
    before.Some? && (after.None? || Rank(after.value) < Rank(before.value))
  }

  predicate DefaultWeakens(before: Option<Action>, after: Option<Action>, builtin: Action) {
    Rank(after.GetOr(builtin)) < Rank(before.GetOr(builtin))
  }

  function FloorChange(prev: Policy, next: Policy, key: string): Change {
    var before, after := Get(prev.floors, key), Get(next.floors, key);
    Change(key, before, after, FloorWeakens(before, after), Mandatory)
  }

  function DefaultChange(prev: Policy, next: Policy, key: string): Change
    requires Known(key)
  {
    var before, after := Get(prev.defaults, key), Get(next.defaults, key);
    Change(key, before, after, DefaultWeakens(before, after, Builtin(key)), Default)
  }

  function FloorChanges(prev: Policy, next: Policy, keys: seq<string>): seq<Change> {
    if keys == [] then []
    else
      var key := keys[|keys| - 1];
      FloorChanges(prev, next, keys[..|keys| - 1])
      + if Get(prev.floors, key) == Get(next.floors, key) then [] else [FloorChange(prev, next, key)]
  }

  function DefaultChanges(prev: Policy, next: Policy, keys: seq<string>): seq<Change>
    requires forall i :: 0 <= i < |keys| ==> Known(keys[i])
  {
    if keys == [] then []
    else
      var key := keys[|keys| - 1];
      DefaultChanges(prev, next, keys[..|keys| - 1])
      + if Get(prev.defaults, key) == Get(next.defaults, key) then [] else [DefaultChange(prev, next, key)]
  }

  ghost function FloorKeys(prev: Policy, next: Policy): seq<string> {
    SortedKeys(prev.floors.Keys + next.floors.Keys)
  }

  ghost function DefaultKeys(prev: Policy, next: Policy): (keys: seq<string>)
    requires KnownDefaults(prev) && KnownDefaults(next)
    ensures forall i :: 0 <= i < |keys| ==> Known(keys[i])
  {
    KeysAreKnown(prev, next);
    SortedKeys(prev.defaults.Keys + next.defaults.Keys)
  }

  lemma KeysAreKnown(prev: Policy, next: Policy)
    requires KnownDefaults(prev) && KnownDefaults(next)
    ensures forall i :: 0 <= i < |SortedKeys(prev.defaults.Keys + next.defaults.Keys)| ==>
      Known(SortedKeys(prev.defaults.Keys + next.defaults.Keys)[i])
  {
    hide Known, SortedKeys, AtMost;
    var keys := SortedKeys(prev.defaults.Keys + next.defaults.Keys);
    forall i | 0 <= i < |keys|
      ensures Known(keys[i])
    {
      assert keys[i] in keys;
    }
  }

  ghost predicate KnownDefaults(p: Policy) {
    forall k :: k in p.defaults ==> Known(k)
  }

  ghost function Changes(prev: Policy, next: Policy): seq<Change>
    requires KnownDefaults(prev) && KnownDefaults(next)
  {
    FloorChanges(prev, next, FloorKeys(prev, next)) + DefaultChanges(prev, next, DefaultKeys(prev, next))
  }

  lemma FloorStep(prev: Policy, next: Policy, keys: seq<string>, i: nat)
    requires i < |keys|
    ensures FloorChanges(prev, next, keys[..i + 1])
            == FloorChanges(prev, next, keys[..i])
               + if Get(prev.floors, keys[i]) == Get(next.floors, keys[i]) then [] else [FloorChange(prev, next, keys[i])]
  {
    assert keys[..i + 1][..i] == keys[..i];
  }

  lemma DefaultStep(prev: Policy, next: Policy, keys: seq<string>, i: nat)
    requires i < |keys| && forall k :: 0 <= k < |keys| ==> Known(keys[k])
    ensures DefaultChanges(prev, next, keys[..i + 1])
            == DefaultChanges(prev, next, keys[..i])
               + if Get(prev.defaults, keys[i]) == Get(next.defaults, keys[i]) then [] else [DefaultChange(prev, next, keys[i])]
  {
    assert keys[..i + 1][..i] == keys[..i];
  }

  /** The first loop of `policy_changes`. */
  method ListFloorChanges(prev: Policy, next: Policy) returns (changes: seq<Change>)
    ensures changes == FloorChanges(prev, next, FloorKeys(prev, next))
  {
    hide Get, Rank, SortedKeys;
    changes := [];
    var keys := SortKeys(prev.floors.Keys + next.floors.Keys);
    assert keys[..0] == [];
    for i := 0 to |keys|
      invariant changes == FloorChanges(prev, next, keys[..i])
    {
      FloorStep(prev, next, keys, i);
      var before, after := Get(prev.floors, keys[i]), Get(next.floors, keys[i]);
      if before != after {
        var weakening := before.Some? && (after.None? || Rank(after.value) < Rank(before.value));
        changes := changes + [Change(keys[i], before, after, weakening, Mandatory)];
      }
    }
    assert keys[..|keys|] == keys;
  }

  /** Its second loop. */
  method ListDefaultChanges(prev: Policy, next: Policy) returns (changes: seq<Change>)
    requires KnownDefaults(prev) && KnownDefaults(next)
    ensures changes == DefaultChanges(prev, next, DefaultKeys(prev, next))
  {
    hide Get, Rank, SortedKeys, Known, Builtin;
    changes := [];
    var keys := SortKeys(prev.defaults.Keys + next.defaults.Keys);
    assert keys == DefaultKeys(prev, next);
    assert keys[..0] == [];
    for i := 0 to |keys|
      invariant changes == DefaultChanges(prev, next, keys[..i])
    {
      DefaultStep(prev, next, keys, i);
      var before, after := Get(prev.defaults, keys[i]), Get(next.defaults, keys[i]);
      if before != after {
        var builtin := Builtin(keys[i]);
        var weakening := Rank(after.GetOr(builtin)) < Rank(before.GetOr(builtin));
        changes := changes + [Change(keys[i], before, after, weakening, Default)];
      }
    }
    assert keys[..|keys|] == keys;
  }

  /** `policy_changes` */
  method ListChanges(prev: Policy, next: Policy) returns (changes: seq<Change>)
    requires KnownDefaults(prev) && KnownDefaults(next)
    ensures changes == Changes(prev, next)
  {
    var floorChanges := ListFloorChanges(prev, next);
    var defaultChanges := ListDefaultChanges(prev, next);
    return floorChanges + defaultChanges;
  }

  // ---------------------------------------------------------------- what the list contains

  lemma {:induction false} FloorChangesListed(prev: Policy, next: Policy, keys: seq<string>, c: Change)
    ensures c in FloorChanges(prev, next, keys) <==>
            c.policyId in keys && c.before != c.after && c == FloorChange(prev, next, c.policyId)
  {
    if keys != [] {
      FloorChangesListed(prev, next, keys[..|keys| - 1], c);
      assert keys == keys[..|keys| - 1] + [keys[|keys| - 1]];
    }
  }

  lemma {:induction false} DefaultChangesListed(prev: Policy, next: Policy, keys: seq<string>, c: Change)
    requires forall i :: 0 <= i < |keys| ==> Known(keys[i])
    ensures c in DefaultChanges(prev, next, keys) <==>
            c.policyId in keys && c.before != c.after && c == DefaultChange(prev, next, c.policyId)
  {
    if keys != [] {
      DefaultChangesListed(prev, next, keys[..|keys| - 1], c);
      assert keys == keys[..|keys| - 1] + [keys[|keys| - 1]];
    }
  }

  /** A change is listed exactly when the two policies differ in that entry, with its weakening verdict. */
  lemma ChangesListed(prev: Policy, next: Policy, c: Change)
    requires KnownDefaults(prev) && KnownDefaults(next)
    ensures c in Changes(prev, next) <==>
      && c.before != c.after
      && match c.enforcement
         case Mandatory => c == FloorChange(prev, next, c.policyId)
         case Default => Known(c.policyId) && c == DefaultChange(prev, next, c.policyId)
  {
    FloorChangesListed(prev, next, FloorKeys(prev, next), c);
    DefaultChangesListed(prev, next, DefaultKeys(prev, next), c);
  }

  lemma NoChangesIffSame(prev: Policy, next: Policy)
    requires KnownDefaults(prev) && KnownDefaults(next)
    ensures Changes(prev, next) == [] <==> prev == next
  {
    var changes := Changes(prev, next);
    if changes != [] {
      ChangesListed(prev, next, changes[0]);
    } else {
      forall k
        ensures Get(prev.floors, k) == Get(next.floors, k)
        ensures Get(prev.defaults, k) == Get(next.defaults, k)
      {
        ChangesListed(prev, next, FloorChange(prev, next, k));
        if Known(k) {
          ChangesListed(prev, next, DefaultChange(prev, next, k));
        }
      }
      SameEntries(prev.floors, next.floors);
      SameEntries(prev.defaults, next.defaults);
    }
  }

  lemma SameEntries(a: map<string, Action>, b: map<string, Action>)
    requires forall k :: Get(a, k) == Get(b, k)
    ensures a == b
  {
    forall k
      ensures k in a <==> k in b
      ensures k in a ==> a[k] == b[k]
    {
      assert Get(a, k) == Get(b, k);
    }
  }

  // ---------------------------------------------------------------- applying the changes

  function Put(actions: map<string, Action>, key: string, action: Option<Action>): map<string, Action> {
    if action.Some? then actions[key := action.value] else actions - {key}
  }

  function ApplyOne(p: Policy, c: Change): Policy {
    match c.enforcement
    case Mandatory => p.(floors := Put(p.floors, c.policyId, c.after))
    case Default => p.(defaults := Put(p.defaults, c.policyId, c.after))
  }

  function Apply(p: Policy, changes: seq<Change>): Policy {
    if changes == [] then p else ApplyOne(Apply(p, changes[..|changes| - 1]), changes[|changes| - 1])
  }

  lemma {:induction false} ApplyAppend(p: Policy, a: seq<Change>, b: seq<Change>)
    ensures Apply(p, a + b) == Apply(Apply(p, a), b)
  {
    if b == [] {
      assert a + b == a;
    } else {
      assert (a + b)[..|a + b| - 1] == a + b[..|b| - 1];
      ApplyAppend(p, a, b[..|b| - 1]);
    }
  }

  /** The floors after the changes of `keys`: new at those keys, as they were elsewhere. */
  lemma {:induction false} ApplyFloorChanges(prev: Policy, next: Policy, keys: seq<string>, k: string)
    ensures
      var p := Apply(prev, FloorChanges(prev, next, keys));
      && p.defaults == prev.defaults
      && Get(p.floors, k) == if k in keys then Get(next.floors, k) else Get(prev.floors, k)
  {
    if keys != [] {
      var rest, key := keys[..|keys| - 1], keys[|keys| - 1];
      assert keys == rest + [key];
      ApplyFloorChanges(prev, next, rest, k);
      var changes := FloorChanges(prev, next, rest);
      if Get(prev.floors, key) == Get(next.floors, key) {
        assert FloorChanges(prev, next, keys) == changes;
      } else {
        ApplyAppend(prev, changes, [FloorChange(prev, next, key)]);
        ApplySingle(Apply(prev, changes), FloorChange(prev, next, key));
      }
    }
  }

  lemma ApplySingle(p: Policy, c: Change)
    ensures Apply(p, [c]) == ApplyOne(p, c)
  {
    assert [c][..0] == [];
    assert Apply(p, []) == p;
  }

  lemma PutDefault(p: Policy, c: Change, k: string)
    requires c.enforcement == Default
    ensures ApplyOne(p, c).floors == p.floors
    ensures Get(ApplyOne(p, c).defaults, k) == if k == c.policyId then c.after else Get(p.defaults, k)
  {
  }

  lemma {:induction false} ApplyDefaultChanges(start: Policy, prev: Policy, next: Policy, keys: seq<string>, k: string)
    requires forall i :: 0 <= i < |keys| ==> Known(keys[i])
    requires start.defaults == prev.defaults
    ensures Apply(start, DefaultChanges(prev, next, keys)).floors == start.floors
    ensures Get(Apply(start, DefaultChanges(prev, next, keys)).defaults, k)
            == if k in keys then Get(next.defaults, k) else Get(prev.defaults, k)
  {
    if keys != [] {
      var rest, key := keys[..|keys| - 1], keys[|keys| - 1];
      assert keys == rest + [key];
      ApplyDefaultChanges(start, prev, next, rest, k);
      var changes := DefaultChanges(prev, next, rest);
      if Get(prev.defaults, key) == Get(next.defaults, key) {
        assert DefaultChanges(prev, next, keys) == changes;
      } else {
        var c := DefaultChange(prev, next, key);
        ApplyAppend(start, changes, [c]);
        ApplySingle(Apply(start, changes), c);
        PutDefault(Apply(start, changes), c, k);
      }
    }
  }

  /** Applying the changes to the old policy gives the new one. */
  lemma ApplyChanges(prev: Policy, next: Policy)
    requires KnownDefaults(prev) && KnownDefaults(next)
    ensures Apply(prev, Changes(prev, next)) == next
  {
    var floorChanges := FloorChanges(prev, next, FloorKeys(prev, next));
    var middle, end := Apply(prev, floorChanges), Apply(prev, Changes(prev, next));
    ApplyAppend(prev, floorChanges, DefaultChanges(prev, next, DefaultKeys(prev, next)));
    forall k
      ensures Get(end.floors, k) == Get(next.floors, k)
      ensures Get(end.defaults, k) == Get(next.defaults, k)
    {
      ApplyFloorChanges(prev, next, FloorKeys(prev, next), k);
      ApplyDefaultChanges(middle, prev, next, DefaultKeys(prev, next), k);
    }
    SameEntries(end.floors, next.floors);
    SameEntries(end.defaults, next.defaults);
  }

  // ---------------------------------------------------------------- policy_diff

  datatype Diff = Diff(added: seq<Change>, changed: seq<Change>, removed: seq<Change>, weakening: bool)

  function Select(changes: seq<Change>, p: Change -> bool): seq<Change> {
    if changes == [] then []
    else Select(changes[..|changes| - 1], p) + if p(changes[|changes| - 1]) then [changes[|changes| - 1]] else []
  }

  function IsAdded(): Change -> bool {
    (c: Change) => c.before.None?
  }

  function IsRemoved(): Change -> bool {
    (c: Change) => c.before.Some? && c.after.None?
  }

  function IsChanged(): Change -> bool {
    (c: Change) => c.before.Some? && c.after.Some?
  }

  predicate Weakens(changes: seq<Change>) {
    exists i :: 0 <= i < |changes| && changes[i].weakening
  }

  lemma NothingSelected(changes: seq<Change>)
    ensures forall p :: Select(changes[..0], p) == []
    ensures !Weakens(changes[..0])
  {
  }

  lemma SelectStep(changes: seq<Change>, i: nat, p: Change -> bool)
    requires i < |changes|
    ensures Select(changes[..i + 1], p) == Select(changes[..i], p) + if p(changes[i]) then [changes[i]] else []
  {
    assert changes[..i + 1][..i] == changes[..i];
  }

  /** `policy_diff`: each change becomes an entry with its own verdict, in one of three lists. */
  method DiffPolicies(prev: Policy, next: Policy) returns (diff: Diff)
    requires KnownDefaults(prev) && KnownDefaults(next)
    ensures diff.added == Select(Changes(prev, next), IsAdded())
    ensures diff.changed == Select(Changes(prev, next), IsChanged())
    ensures diff.removed == Select(Changes(prev, next), IsRemoved())
    ensures diff.weakening == Weakens(Changes(prev, next))
  {
    hide Changes, Select, Weakens;
    var changes := ListChanges(prev, next);
    var added, changed, removed := [], [], [];
    var weakening := false;
    NothingSelected(changes);
    for i := 0 to |changes|
      invariant added == Select(changes[..i], IsAdded())
      invariant changed == Select(changes[..i], IsChanged())
      invariant removed == Select(changes[..i], IsRemoved())
      invariant weakening == Weakens(changes[..i])
    {
      var change := changes[i];
      SelectStep(changes, i, IsAdded());
      SelectStep(changes, i, IsChanged());
      SelectStep(changes, i, IsRemoved());
      EntryKeepsVerdict(prev, next, change);
      var entry := change.(weakening := if change.before.Some? || change.enforcement == Default then change.weakening else false);
      if change.before.None? {
        added := added + [entry];
      } else if change.after.None? {
        if change.enforcement == Mandatory {
          entry := entry.(weakening := true);
        }
        removed := removed + [entry];
      } else {
        changed := changed + [entry];
      }
      WeakensAppend(changes[..i], change);
      assert changes[..i] + [change] == changes[..i + 1];
      weakening := weakening || entry.weakening;
    }
    assert changes[..|changes|] == changes;
    return Diff(added, changed, removed, weakening);
  }

  lemma WeakensAppend(changes: seq<Change>, c: Change)
    ensures Weakens(changes + [c]) == (Weakens(changes) || c.weakening)
  {
    var all := changes + [c];
    assert all[|changes|] == c;
    if Weakens(changes) {
      var i :| 0 <= i < |changes| && changes[i].weakening;
      assert all[i].weakening;
    }
  }

  /** The two special cases of `policy_diff` agree with the verdict of `policy_changes`. */
  lemma EntryKeepsVerdict(prev: Policy, next: Policy, c: Change)
    requires KnownDefaults(prev) && KnownDefaults(next) && c in Changes(prev, next)
    ensures c.before.None? && c.enforcement == Mandatory ==> !c.weakening
    ensures c.before.Some? && c.after.None? && c.enforcement == Mandatory ==> c.weakening
  {
    ChangesListed(prev, next, c);
  }

  lemma SelectLast(changes: seq<Change>, p: Change -> bool)
    requires changes != []
    ensures
      var rest, last := changes[..|changes| - 1], changes[|changes| - 1];
      multiset(Select(changes, p)) == if p(last) then multiset(Select(rest, p)) + multiset{last} else multiset(Select(rest, p))
  {
  }

  function AllParts(changes: seq<Change>): multiset<Change> {
    multiset(Select(changes, IsAdded())) + multiset(Select(changes, IsChanged())) + multiset(Select(changes, IsRemoved()))
  }

  lemma LastIsInOnePart(changes: seq<Change>)
    requires changes != []
    ensures AllParts(changes) == AllParts(changes[..|changes| - 1]) + multiset{changes[|changes| - 1]}
  {
    SelectLast(changes, IsAdded());
    SelectLast(changes, IsChanged());
    SelectLast(changes, IsRemoved());
  }

  /** The three lists hold every change exactly once. */
  lemma {:induction false} DiffPartitions(changes: seq<Change>)
    ensures AllParts(changes) == multiset(changes)
  {
    if changes == [] {
      assert AllParts(changes) == multiset{};
    } else {
      DiffPartitions(changes[..|changes| - 1]);
      LastIsInOnePart(changes);
      LastOfMultiset(changes);
    }
  }

  /** So there is nothing in any of them exactly when there are no changes. */
  lemma NothingDiffers(changes: seq<Change>)
    ensures Select(changes, IsAdded()) == [] && Select(changes, IsChanged()) == [] && Select(changes, IsRemoved()) == [] <==> changes == []
  {
    DiffPartitions(changes);
    if changes != [] {
      assert changes[0] in multiset(changes);
    }
  }

  lemma LastOfMultiset(changes: seq<Change>)
    requires changes != []
    ensures multiset(changes) == multiset(changes[..|changes| - 1]) + multiset{changes[|changes| - 1]}
  {
    assert changes == changes[..|changes| - 1] + [changes[|changes| - 1]];
  }

  // ---------------------------------------------------------------- effective enforcement

  /** The action a rule is evaluated at: never below the floor, otherwise the first choice there is. */
  function Effective(p: Policy, key: string, choice: Option<Action>): Action
    requires Known(key)
  {
    MostRestrictive([Get(p.floors, key).GetOr(Allow), choice.GetOr(Get(p.defaults, key).GetOr(Builtin(key)))])
  }

  ghost predicate Drops(prev: Policy, next: Policy, key: string)
    requires Known(key)
  {
    exists choice :: Rank(Effective(next, key, choice)) < Rank(Effective(prev, key, choice))
  }

  ghost predicate Flagged(prev: Policy, next: Policy, key: string)
    requires KnownDefaults(prev) && KnownDefaults(next)
  {
    exists c :: c in Changes(prev, next) && c.policyId == key && c.weakening
  }

  function Floor(p: Policy, key: string): nat {
    Rank(Get(p.floors, key).GetOr(Allow))
  }

  function Baseline(p: Policy, key: string): nat
    requires Known(key)
  {
    Rank(Get(p.defaults, key).GetOr(Builtin(key)))
  }

  lemma EffectiveRank(p: Policy, key: string, choice: Option<Action>)
    requires Known(key)
    ensures
      var chosen := if choice.Some? then Rank(choice.value) else Baseline(p, key);
      Rank(Effective(p, key, choice)) == if Floor(p, key) >= chosen then Floor(p, key) else chosen
  {
    var floor, chosen := Get(p.floors, key).GetOr(Allow), choice.GetOr(Get(p.defaults, key).GetOr(Builtin(key)));
    assert floor in [floor, chosen] && chosen in [floor, chosen];
  }

  /** Enforcement of a rule drops for some repository exactly when its floor, or its uncovered baseline, does. */
  lemma DropsIff(prev: Policy, next: Policy, key: string)
    requires Known(key)
    ensures Drops(prev, next, key) <==>
            Floor(next, key) < Floor(prev, key) || (Baseline(next, key) < Baseline(prev, key) && Floor(next, key) < Baseline(prev, key))
  {
    hide Effective, Floor, Baseline;
    forall choice: Option<Action>
      ensures Rank(Effective(next, key, choice)) < Rank(Effective(prev, key, choice)) ==>
        Floor(next, key) < Floor(prev, key) || (Baseline(next, key) < Baseline(prev, key) && Floor(next, key) < Baseline(prev, key))
    {
      EffectiveRank(prev, key, choice);
      EffectiveRank(next, key, choice);
    }
    EffectiveRank(prev, key, Some(Allow));
    EffectiveRank(next, key, Some(Allow));
    EffectiveRank(prev, key, None);
    EffectiveRank(next, key, None);
  }

  /** A rule is flagged exactly when its floor or its baseline is lowered. */
  lemma FlaggedIff(prev: Policy, next: Policy, key: string)
    requires ValidPolicy(prev) && ValidPolicy(next) && Known(key)
    ensures Flagged(prev, next, key) <==>
            Floor(next, key) < Floor(prev, key) || Baseline(next, key) < Baseline(prev, key)
  {
    var floor, default := FloorChange(prev, next, key), DefaultChange(prev, next, key);
    ChangesListed(prev, next, floor);
    ChangesListed(prev, next, default);
    if Flagged(prev, next, key) {
      var c :| c in Changes(prev, next) && c.policyId == key && c.weakening;
      ChangesListed(prev, next, c);
    }
  }

  /**
   Weakening detection is sound: when no change of a rule is flagged, no choice a
   repository makes is enforced less than before.
   */
  lemma UnflaggedNeverDrops(prev: Policy, next: Policy, key: string, choice: Option<Action>)
    requires ValidPolicy(prev) && ValidPolicy(next) && Known(key) && !Flagged(prev, next, key)
    ensures Rank(Effective(prev, key, choice)) <= Rank(Effective(next, key, choice))
  {
    FlaggedIff(prev, next, key);
    EffectiveRank(prev, key, choice);
    EffectiveRank(next, key, choice);
  }

  /**
   It is complete up to one case: a flagged rule really drops for some choice,
   except when only its baseline is lowered and the new floor covers it.
   */
  lemma FlagIsExact(prev: Policy, next: Policy, key: string)
    requires ValidPolicy(prev) && ValidPolicy(next) && Known(key)
    ensures Drops(prev, next, key) <==>
      && Flagged(prev, next, key)
      && !(Floor(prev, key) <= Floor(next, key) && Baseline(prev, key) <= Floor(next, key))
  {
    FlaggedIff(prev, next, key);
    DropsIff(prev, next, key);
  }

  /** The false alarm: turning a stricter default into a floor of the same action. */
  lemma PromotedDefaultIsFlagged()
    ensures
      var prev, next := Policy(map[], map["bot_identity" := Block]), Policy(map["bot_identity" := Block], map[]);
      && ValidPolicy(prev) && ValidPolicy(next)
      && Flagged(prev, next, "bot_identity") && !Drops(prev, next, "bot_identity")
  {
    var prev, next := Policy(map[], map["bot_identity" := Block]), Policy(map["bot_identity" := Block], map[]);
    var key := "bot_identity";
    assert Known(key) && Builtin(key) == Warn;
    FlaggedIff(prev, next, key);
    DropsIff(prev, next, key);
  }
}
