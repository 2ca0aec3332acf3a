/** What the audit trail of one violation says, independently of the tables. */
module AuditTrail {
  import opened Wrappers
  import opened Violations

  /** `acknowledged` is when the standing acknowledgement was recorded. */
  datatype Life = Unseen | Seen(status: Status, acknowledged: Option<int>)

  /** The only transitions a trail may record. */
  function NextLife(life: Life, e: Event): Option<Life> {
    match (life, e.kind)
    case (Unseen, Opened) => Some(Seen(Open, None))
    case (Seen(Open, ack), ResolvedEvent) => Some(Seen(Resolved, ack))
    case (Seen(Resolved, _), Reopened) => Some(Seen(Open, None))
    case (Seen(Open, _), Acknowledged) => Some(Seen(Open, Some(e.at)))
    case (Seen(status, Some(_)), AcknowledgementRemoved) => Some(Seen(status, None))
    case _ => None
  }

  /** Replay a trail from the beginning; None if it records an impossible transition. */
  function Replay(trail: seq<Event>): Option<Life> {
    if trail == [] then Some(Unseen)
    else
      var before := Replay(trail[..|trail| - 1]);
      if before.None? then None else NextLife(before.value, trail[|trail| - 1])
  }

  lemma ReplayAppend(trail: seq<Event>, e: Event)
    ensures Replay(trail + [e]) == if Replay(trail).None? then None else NextLife(Replay(trail).value, e)
  {
    assert (trail + [e])[..|trail|] == trail;
  }

  predicate IsStatusEvent(e: Event) {
    e.kind == Opened || e.kind == ResolvedEvent || e.kind == Reopened
  }

  function StatusEvents(trail: seq<Event>): seq<Event> {
    if trail == [] then []
    else
      var last := trail[|trail| - 1];
      StatusEvents(trail[..|trail| - 1]) + if IsStatusEvent(last) then [last] else []
  }

  /** OPENED (RESOLVED REOPENED)* RESOLVED? */
  predicate Alternates(events: seq<Event>) {
    forall i :: 0 <= i < |events| ==>
      events[i].kind == if i == 0 then Opened else if i % 2 == 1 then ResolvedEvent else Reopened
  }

  /** A replayable trail has the lifecycle's grammar, and its length tells the status. */
  lemma {:induction false} TrailGrammar(trail: seq<Event>)
    requires Replay(trail).Some?
    ensures Alternates(StatusEvents(trail))
    ensures Replay(trail).value == Unseen <==> StatusEvents(trail) == []
    ensures Replay(trail).value.Seen? ==>
      (Replay(trail).value.status == Open <==> |StatusEvents(trail)| % 2 == 1)
  {
    if trail != [] {
      var rest, last := trail[..|trail| - 1], trail[|trail| - 1];
      TrailGrammar(rest);
      if IsStatusEvent(last) {
        assert StatusEvents(trail) == StatusEvents(rest) + [last];
      } else {
        assert StatusEvents(trail) == StatusEvents(rest);
      }
    }
  }

  predicate InOrder(trail: seq<Event>) {
    forall i, j :: 0 <= i < j < |trail| ==> trail[i].at <= trail[j].at
  }

  /** A standing acknowledgement was recorded after every reopening and never removed. */
  lemma {:induction false} AcknowledgementIsNewest(trail: seq<Event>) returns (k: nat)
    requires InOrder(trail)
    requires Replay(trail).Some? && Replay(trail).value.Seen? && Replay(trail).value.acknowledged.Some?
    ensures k < |trail| && trail[k] == Event(Acknowledged, Replay(trail).value.acknowledged.value)
    ensures forall i :: k < i < |trail| ==> trail[i].kind == ResolvedEvent
    ensures forall i :: 0 <= i < |trail| && trail[i].kind == Reopened ==>
      i < k && trail[i].at <= trail[k].at
  {
    var n := |trail| - 1;
    if trail[n].kind == Acknowledged {
      k := n;
    } else {
      k := AcknowledgementIsNewest(trail[..n]);
    }
  }
}
