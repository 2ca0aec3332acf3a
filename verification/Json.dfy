/** JSON values as `json.loads` and `json.dumps` exchange them: objects keep the order of their keys. */
module Json {
  datatype Json =
    | JNull
    | JBool(truth: bool)
    | JNumber(number: int)
    | JString(text: string)
    | JArray(items: seq<Json>)
    | JObject(fields: seq<Field>)

  datatype Field = Field(key: string, value: Json)

  /** An object read as a dictionary; of a repeated key the last value counts. */
  function Dict(fields: seq<Field>): map<string, Json> {
    if fields == [] then map[]
    else Dict(fields[..|fields| - 1])[fields[|fields| - 1].key := fields[|fields| - 1].value]
  }

  predicate DistinctKeys(fields: seq<Field>) {
    forall i, j :: 0 <= i < j < |fields| ==> fields[i].key != fields[j].key
  }

  lemma {:induction false} DictHolds(fields: seq<Field>)
    requires DistinctKeys(fields)
    ensures forall i :: 0 <= i < |fields| ==> fields[i].key in Dict(fields) && Dict(fields)[fields[i].key] == fields[i].value
    ensures forall k :: k in Dict(fields) ==> exists i :: 0 <= i < |fields| && fields[i].key == k
  {
    if fields != [] {
      DictHolds(fields[..|fields| - 1]);
    }
  }

  // ---------------------------------------------------------------- key order

  /** Strings in the order `sorted` puts them: by code point, a prefix first. */
  predicate AtMost(a: string, b: string) {
    a == [] || (b != [] && (a[0] < b[0] || (a[0] == b[0] && AtMost(a[1..], b[1..]))))
  }

  lemma {:induction false} AtMostIsTotal(a: string, b: string)
    ensures AtMost(a, b) || AtMost(b, a)
    ensures AtMost(a, b) && AtMost(b, a) ==> a == b
  {
    if a != [] && b != [] && a[0] == b[0] {
      AtMostIsTotal(a[1..], b[1..]);
      assert a == [a[0]] + a[1..] && b == [b[0]] + b[1..];
    }
  }

  lemma {:induction false} AtMostIsTransitive(a: string, b: string, c: string)
    requires AtMost(a, b) && AtMost(b, c)
    ensures AtMost(a, c)
  {
    if a != [] && a[0] == b[0] == c[0] {
      AtMostIsTransitive(a[1..], b[1..], c[1..]);
    }
  }

  /** The first `k` characters agree, and the next one of `a` comes before the one of `b`. */
  predicate FirstDiffer(a: string, b: string, k: nat) {
    k < |a| && k < |b| && a[..k] == b[..k] && a[k] < b[k]
  }

  /** A text comes before another if it is a prefix of it or smaller where they first differ. */
  lemma {:induction false} AtMostMeans(a: string, b: string)
    ensures AtMost(a, b) <==> a <= b || exists k: nat :: FirstDiffer(a, b, k)
  {
    if a != [] && b != [] && a[0] == b[0] {
      AtMostMeans(a[1..], b[1..]);
      assert a == [a[0]] + a[1..] && b == [b[0]] + b[1..];
      if k: nat :| FirstDiffer(a[1..], b[1..], k) {
        assert a[..k + 1] == [a[0]] + a[1..][..k] && b[..k + 1] == [b[0]] + b[1..][..k];
        assert FirstDiffer(a, b, k + 1);
      }
      if k: nat :| FirstDiffer(a, b, k) {
        assert a[1..][..k - 1] == a[..k][1..] && b[1..][..k - 1] == b[..k][1..];
        assert FirstDiffer(a[1..], b[1..], k - 1);
      }
    } else {
      forall k: nat | FirstDiffer(a, b, k)
        ensures k == 0 || a[0] == b[0]
      {
        DifferLater(a, b, k);
      }
      assert a != [] && b != [] && a[0] < b[0] ==> FirstDiffer(a, b, 0);
    }
  }

  lemma DifferLater(a: string, b: string, k: nat)
    requires FirstDiffer(a, b, k)
    ensures k == 0 || a[0] == b[0]
  {
    assert k > 0 ==> a[..k][0] == b[..k][0];
  }

  ghost predicate IsLeast(k: string, keys: set<string>) {
    k in keys && forall other :: other in keys ==> AtMost(k, other)
  }

  lemma {:induction false} LeastExists(keys: set<string>)
    requires keys != {}
    ensures exists k :: IsLeast(k, keys)
    decreases |keys|
  {
    var one :| one in keys;
    AtMostIsTotal(one, one);
    var rest := keys - {one};
    if rest == {} {
      assert keys == {one};
      assert IsLeast(one, keys);
    } else {
      LeastExists(rest);
      var least :| IsLeast(least, rest);
      AtMostIsTotal(one, least);
      if AtMost(one, least) {
        forall other | other in keys
          ensures AtMost(one, other)
        {
          if other != one {
            AtMostIsTransitive(one, least, other);
          }
        }
        assert IsLeast(one, keys);
      } else {
        forall other | other in keys
          ensures AtMost(least, other)
        {
          assert other == one || other in rest;
        }
        assert IsLeast(least, keys);
      }
    }
  }

  /** `sorted(keys)`: every key once, in order. */
  ghost function SortedKeys(keys: set<string>): (r: seq<string>)
    ensures forall k :: k in r <==> k in keys
    ensures forall i, j :: 0 <= i < j < |r| ==> r[i] != r[j] && AtMost(r[i], r[j])
    decreases |keys|
  {
    if keys == {} then []
    else
      LeastExists(keys);
      var least :| IsLeast(least, keys);
      [least] + SortedKeys(keys - {least})
  }

  lemma FirstIsMember(a: seq<string>)
    ensures a != [] ==> exists k :: k in a
  {
    assert a != [] ==> a[0] in a;
  }

  lemma RestOfDistinct(a: seq<string>, k: string)
    requires a != [] && forall i, j :: 0 <= i < j < |a| ==> a[i] != a[j]
    ensures k in a[1..] <==> k in a && k != a[0]
  {
    assert a == [a[0]] + a[1..];
  }

  /** There is only one way to sort. */
  lemma {:induction false} SortingIsUnique(a: seq<string>, b: seq<string>)
    requires forall k :: k in a <==> k in b
    requires forall i, j :: 0 <= i < j < |a| ==> a[i] != a[j] && AtMost(a[i], a[j])
    requires forall i, j :: 0 <= i < j < |b| ==> b[i] != b[j] && AtMost(b[i], b[j])
    ensures a == b
  {
    if a == [] || b == [] {
      FirstIsMember(a);
      FirstIsMember(b);
    } else {
      assert a[0] in b && b[0] in a;
      AtMostIsTotal(a[0], b[0]);
      assert a[0] == b[0];
      forall k
        ensures k in a[1..] <==> k in b[1..]
      {
        RestOfDistinct(a, k);
        RestOfDistinct(b, k);
      }
      SortingIsUnique(a[1..], b[1..]);
    }
  }

  /** Python's `sorted` on the keys of a dictionary, taking the least key again and again. */
  method SortKeys(keys: set<string>) returns (r: seq<string>)
    ensures r == SortedKeys(keys)
  {
    var left := keys;
    r := [];
    while left != {}
      invariant forall k :: k in keys <==> k in r || k in left
      invariant forall k :: k in r ==> k !in left
      invariant forall i, j :: 0 <= i < j < |r| ==> r[i] != r[j] && AtMost(r[i], r[j])
      invariant forall i, k :: 0 <= i < |r| && k in left ==> AtMost(r[i], k)
      decreases |left|
    {
      LeastExists(left);
      var least :| least in left && forall other :: other in left ==> AtMost(least, other);
      r, left := r + [least], left - {least};
    }
    SortingIsUnique(r, SortedKeys(keys));
  }
}
