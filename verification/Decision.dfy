/** Policy actions, ordered from least to most restrictive. */
module Decision {
  datatype Action = Allow | Warn | Block

  function Rank(action: Action): nat {
    match action
    case Allow => 0
    case Warn => 1
    case Block => 2
  }

  /** `max` by rank with ALLOW as the default: the first of the greatest actions. */
  function MostRestrictive(actions: seq<Action>): (r: Action)
    ensures forall a :: a in actions ==> Rank(a) <= Rank(r)
    ensures r in actions || (actions == [] && r == Allow)
  {
    if actions == [] then Allow
    else if |actions| == 1 then actions[0]
    else
      var rest := MostRestrictive(actions[..|actions| - 1]);
      var last := actions[|actions| - 1];
      if Rank(last) > Rank(rest) then last else rest
  }

  /** One BLOCK outweighs everything, one WARN all but a BLOCK. */
  lemma MostRestrictiveIs(actions: seq<Action>)
    ensures MostRestrictive(actions) == if Block in actions then Block else if Warn in actions then Warn else Allow
  {
    var most := MostRestrictive(actions);
    assert Block in actions ==> Rank(Block) <= Rank(most);
    assert Warn in actions ==> Rank(Warn) <= Rank(most);
  }
}
