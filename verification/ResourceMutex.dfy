/** The promise-chain mutex of apps/engine/src/memory/orchestrator-session-memory.ts, line 568. */
module ResourceMutex {
  import opened Wrappers

  type Resource = string

  /** The position of a call among all calls ever made; it stands for the identity of its promise. */
  type Ticket = nat

  datatype Ending = Returned | Threw

  datatype Phase = Waiting | Running | Settled(ending: Ending)

  /** One `run`: the promise it found at the end of the chain, and how far it got. */
  datatype Call = Call(resource: Resource, previous: Option<Ticket>, phase: Phase)

  predicate Outstanding(call: Call) {
    !call.phase.Settled?
  }

  /** The specification: the outstanding calls on a resource, in the order they arrived. */
  function Queue(calls: seq<Call>, resource: Resource): seq<Ticket> {
    if calls == [] then []
    else
      var last := |calls| - 1;
      Queue(calls[..last], resource)
        + if calls[last].resource == resource && Outstanding(calls[last]) then [last] else []
  }

  /** `await previous` lets the call go on. */
  predicate MayStart(calls: seq<Call>, ticket: Ticket) {
    && ticket < |calls|
    && calls[ticket].phase == Waiting
    && match calls[ticket].previous
       case None => true
       case Some(p) => p < |calls| && calls[p].phase.Settled?
  }

  /** Calls on a resource leave the waiting phase one at a time, in the order they arrived. */
  ghost predicate InTurn(calls: seq<Call>) {
    forall i, j :: 0 <= i < j < |calls| && calls[i].resource == calls[j].resource && calls[j].phase != Waiting ==>
      calls[i].phase.Settled?
  }

  /** What a call awaits: the latest earlier call on the resource, or nothing if all had settled. */
  ghost predicate WellLinked(calls: seq<Call>, j: Ticket)
    requires j < |calls|
  {
    match calls[j].previous
    case None => forall i :: 0 <= i < j && calls[i].resource == calls[j].resource ==> calls[i].phase.Settled?
    case Some(p) =>
      && p < j && calls[p].resource == calls[j].resource
      && forall i :: p < i < j ==> calls[i].resource != calls[j].resource
  }

  /** The map holds the latest outstanding call of each resource that has one. */
  ghost predicate TailsMatch(tails: map<Resource, Ticket>, calls: seq<Call>) {
    && (forall r :: r in tails ==>
          && tails[r] < |calls| && calls[tails[r]].resource == r && Outstanding(calls[tails[r]])
          && forall i :: tails[r] < i < |calls| ==> calls[i].resource != r)
    && (forall i :: 0 <= i < |calls| && Outstanding(calls[i]) ==> calls[i].resource in tails)
  }

  ghost predicate Consistent(tails: map<Resource, Ticket>, calls: seq<Call>) {
    && InTurn(calls)
    && (forall j :: 0 <= j < |calls| ==> WellLinked(calls, j))
    && TailsMatch(tails, calls)
  }

  // ---------------------------------------------------------------- about the queue

  lemma {:induction false} QueueMembers(calls: seq<Call>, resource: Resource)
    ensures var queue := Queue(calls, resource);
      && (forall t :: t in queue <==> 0 <= t < |calls| && calls[t].resource == resource && Outstanding(calls[t]))
      && (forall k, m :: 0 <= k < m < |queue| ==> queue[k] < queue[m])
  {
    if calls != [] {
      var last := |calls| - 1;
      QueueMembers(calls[..last], resource);
      var shorter := Queue(calls[..last], resource);
      assert forall k :: 0 <= k < |shorter| ==> shorter[k] in shorter;
    }
  }

  lemma {:induction false} QueueSeesOnlyWhoIsOutstanding(before: seq<Call>, after: seq<Call>, resource: Resource)
    requires |before| == |after|
    requires forall i :: 0 <= i < |before| && (before[i].resource == resource || after[i].resource == resource) ==>
      after[i].resource == before[i].resource && (Outstanding(after[i]) <==> Outstanding(before[i]))
    ensures Queue(after, resource) == Queue(before, resource)
  {
    if before != [] {
      var last := |before| - 1;
      QueueSeesOnlyWhoIsOutstanding(before[..last], after[..last], resource);
    }
  }

  lemma {:induction false} NobodyOutstandingNoQueue(calls: seq<Call>, resource: Resource)
    requires forall i :: 0 <= i < |calls| && calls[i].resource == resource ==> calls[i].phase.Settled?
    ensures Queue(calls, resource) == []
  {
    if calls != [] {
      NobodyOutstandingNoQueue(calls[..|calls| - 1], resource);
    }
  }

  lemma {:induction false} SettlingTheHeadLeavesTheRest(calls: seq<Call>, ticket: Ticket, ending: Ending)
    requires ticket < |calls| && Outstanding(calls[ticket])
    requires forall i :: 0 <= i < ticket && calls[i].resource == calls[ticket].resource ==> calls[i].phase.Settled?
    ensures Queue(calls, calls[ticket].resource)
         == [ticket] + Queue(calls[ticket := calls[ticket].(phase := Settled(ending))], calls[ticket].resource)
  {
    var resource, last := calls[ticket].resource, |calls| - 1;
    var after := calls[ticket := calls[ticket].(phase := Settled(ending))];
    if ticket == last {
      NobodyOutstandingNoQueue(calls[..last], resource);
      assert after[..last] == calls[..last];
    } else {
      assert after[..last] == calls[..last][ticket := after[ticket]];
      SettlingTheHeadLeavesTheRest(calls[..last], ticket, ending);
    }
  }

  // The map has an entry exactly while some call on the resource is outstanding, and it is the
  // last one in the queue.
  lemma {:induction false} TailsHoldTheLastInQueue(tails: map<Resource, Ticket>, calls: seq<Call>, resource: Resource)
    requires Consistent(tails, calls)
    ensures var queue := Queue(calls, resource);
      && (resource in tails <==> queue != [])
      && (resource in tails ==> tails[resource] == queue[|queue| - 1])
  {
    QueueMembers(calls, resource);
    var queue := Queue(calls, resource);
    if queue != [] {
      assert queue[0] in queue && queue[|queue| - 1] in queue;
    }
    if resource in tails {
      assert tails[resource] in queue;
      var k :| 0 <= k < |queue| && queue[k] == tails[resource];
    }
  }

  // Arrival order: a waiting call goes on exactly when it is the first in the queue.
  lemma {:induction false} OnlyTheHeadMayStart(tails: map<Resource, Ticket>, calls: seq<Call>, ticket: Ticket)
    requires Consistent(tails, calls)
    requires ticket < |calls| && calls[ticket].phase == Waiting
    ensures Queue(calls, calls[ticket].resource) != []
    ensures MayStart(calls, ticket) <==> Queue(calls, calls[ticket].resource)[0] == ticket
  {
    var resource := calls[ticket].resource;
    var queue := Queue(calls, resource);
    QueueMembers(calls, resource);
    assert ticket in queue;
    assert queue[0] in queue;
    assert WellLinked(calls, ticket);
    if calls[ticket].previous.Some? {
      var p := calls[ticket].previous.value;
      if Outstanding(calls[p]) {
        assert p in queue;
      }
    }
  }

  // One at a time: a running call is the first in the queue, so it is the only running call.
  lemma {:induction false} RunningIsTheHead(tails: map<Resource, Ticket>, calls: seq<Call>, ticket: Ticket)
    requires Consistent(tails, calls)
    requires ticket < |calls| && calls[ticket].phase == Running
    ensures Queue(calls, calls[ticket].resource) != [] && Queue(calls, calls[ticket].resource)[0] == ticket
    ensures forall other ::
      0 <= other < |calls| && other != ticket && calls[other].resource == calls[ticket].resource ==>
      calls[other].phase != Running
  {
    var queue := Queue(calls, calls[ticket].resource);
    QueueMembers(calls, calls[ticket].resource);
    assert ticket in queue;
    assert queue[0] in queue;
  }

  // No call is left behind: while calls are outstanding, the first is running or may start.
  lemma {:induction false} SomeoneCanProceed(tails: map<Resource, Ticket>, calls: seq<Call>, resource: Resource)
    requires Consistent(tails, calls) && resource in tails
    ensures Queue(calls, resource) != []
    ensures var head := Queue(calls, resource)[0];
      head < |calls| && (calls[head].phase == Running || MayStart(calls, head))
  {
    TailsHoldTheLastInQueue(tails, calls, resource);
    QueueMembers(calls, resource);
    var head := Queue(calls, resource)[0];
    assert head in Queue(calls, resource);
    if calls[head].phase == Waiting {
      OnlyTheHeadMayStart(tails, calls, head);
    }
  }

  // ---------------------------------------------------------------- the mutex

  class Mutex {
    var tails: map<Resource, Ticket>
    var calls: seq<Call>

    ghost predicate Valid()
      reads this
    {
      Consistent(tails, calls)
    }

    constructor ()
      ensures Valid() && tails == map[] && calls == []
    {
      tails, calls := map[], [];
    }

    /** Up to `await previous`. */
    method Enter(resource: Resource) returns (ticket: Ticket)
      requires Valid()
      modifies this
      ensures Valid()
      ensures ticket == |old(calls)| && |calls| == ticket + 1 && calls[..ticket] == old(calls)
      ensures calls[ticket].resource == resource && calls[ticket].phase == Waiting
      ensures Queue(calls, resource) == Queue(old(calls), resource) + [ticket]
      ensures forall other :: other != resource ==> Queue(calls, other) == Queue(old(calls), other)
    {
      var previous := if resource in tails then Some(tails[resource]) else None;
      ticket := |calls|;
      ArrivalIsConsistent(tails, calls, resource, previous);
      calls := calls + [Call(resource, previous, Waiting)];
      tails := tails[resource := ticket];
      assert calls[..ticket] == old(calls);
    }

    /** The awaited promise has settled: the operation begins. */
    method Start(ticket: Ticket)
      requires Valid() && MayStart(calls, ticket)
      modifies this
      ensures Valid() && tails == old(tails)
      ensures calls == old(calls)[ticket := old(calls)[ticket].(phase := Running)]
      ensures forall r :: Queue(calls, r) == Queue(old(calls), r)
    {
      ghost var before := calls;
      OnlyTheHeadMayStart(tails, calls, ticket);
      QueueMembers(calls, calls[ticket].resource);
      calls := calls[ticket := calls[ticket].(phase := Running)];
      PhaseKeepsLinks(before, calls, ticket);
      forall r ensures Queue(calls, r) == Queue(before, r) {
        QueueSeesOnlyWhoIsOutstanding(before, calls, r);
      }
      HeadLeavesWaitingInTurn(before, calls, ticket);
    }

    /** The `finally` block, entered whether the operation returned or threw. */
    method Settle(ticket: Ticket, ending: Ending)
      requires Valid() && ticket < |calls| && calls[ticket].phase == Running
      modifies this
      ensures Valid()
      ensures calls == old(calls)[ticket := old(calls)[ticket].(phase := Settled(ending))]
      ensures Queue(old(calls), calls[ticket].resource) == [ticket] + Queue(calls, calls[ticket].resource)
      ensures forall r :: r != calls[ticket].resource ==> Queue(calls, r) == Queue(old(calls), r)
    {
      ghost var before := calls;
      SettlingTheHeadLeavesTheRest(calls, ticket, ending);
      calls := calls[ticket := calls[ticket].(phase := Settled(ending))];
      SettlingIsConsistent(tails, before, ticket, ending);
      forall r | r != calls[ticket].resource ensures Queue(calls, r) == Queue(before, r) {
        QueueSeesOnlyWhoIsOutstanding(before, calls, r);
      }
      var resource := calls[ticket].resource;
      if resource in tails && tails[resource] == ticket {
        tails := tails - {resource};
      }
    }
  }

  lemma ArrivalIsConsistent(tails: map<Resource, Ticket>, calls: seq<Call>, resource: Resource,
                            previous: Option<Ticket>)
    requires Consistent(tails, calls)
    requires previous == if resource in tails then Some(tails[resource]) else None
    ensures Consistent(tails[resource := |calls|], calls + [Call(resource, previous, Waiting)])
  {
    var after := calls + [Call(resource, previous, Waiting)];
    forall j | 0 <= j < |after| ensures WellLinked(after, j) {
      if j < |calls| {
        assert WellLinked(calls, j);
      }
    }
  }

  lemma PhaseKeepsLinks(before: seq<Call>, after: seq<Call>, ticket: Ticket)
    requires ticket < |before| == |after| && after == before[ticket := before[ticket].(phase := after[ticket].phase)]
    requires Outstanding(before[ticket])
    requires forall j :: 0 <= j < |before| ==> WellLinked(before, j)
    ensures forall j :: 0 <= j < |after| ==> WellLinked(after, j)
  {
    forall j | 0 <= j < |after| ensures WellLinked(after, j) {
      assert WellLinked(before, j);
    }
  }

  lemma SettlingIsConsistent(tails: map<Resource, Ticket>, calls: seq<Call>, ticket: Ticket, ending: Ending)
    requires Consistent(tails, calls) && ticket < |calls| && calls[ticket].phase == Running
    ensures calls[ticket].resource in tails
    ensures var resource := calls[ticket].resource;
      Consistent(if tails[resource] == ticket then tails - {resource} else tails,
                 calls[ticket := calls[ticket].(phase := Settled(ending))])
  {
    var after := calls[ticket := calls[ticket].(phase := Settled(ending))];
    PhaseKeepsLinks(calls, after, ticket);
  }

  lemma {:induction false} HeadLeavesWaitingInTurn(before: seq<Call>, after: seq<Call>, ticket: Ticket)
    requires InTurn(before) && ticket < |before| && after == before[ticket := before[ticket].(phase := Running)]
    requires before[ticket].phase == Waiting
    requires Queue(before, before[ticket].resource) != [] && Queue(before, before[ticket].resource)[0] == ticket
    ensures InTurn(after)
  {
    var queue := Queue(before, before[ticket].resource);
    QueueMembers(before, before[ticket].resource);
    assert forall i :: 0 <= i < ticket && before[i].resource == before[ticket].resource ==> i !in queue;
  }
}
