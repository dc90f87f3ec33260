/** The loops that drain one round of node results, in whatever order the
    results arrive, tied to the set of successes the protocol counts. */
module LeaseRounds {
  import opened LeaseProtocol

  /** `order` lists every called node once, in the order the results arrived. */
  ghost predicate Arrival(order: seq<NodeId>, calls: map<NodeId, Call>) {
    && AllReturned(calls)
    && (forall i :: 0 <= i < |order| ==> order[i] in calls)
    && (forall i, j :: 0 <= i < j < |order| ==> order[i] != order[j])
    && (forall n :: n in calls ==> n in order)
  }

  /** The successes among the results received so far. */
  ghost function Arrived(received: seq<NodeId>, calls: map<NodeId, Call>): set<NodeId> {
    set n | n in received && n in calls && calls[n] == Returned(Replied(true))
  }

  lemma NextArrival(order: seq<NodeId>, calls: map<NodeId, Call>, i: nat)
    requires Arrival(order, calls) && i < |order|
    ensures |Arrived(order[..i + 1], calls)| ==
            |Arrived(order[..i], calls)| + if calls[order[i]] == Returned(Replied(true)) then 1 else 0
  {
    assert order[..i + 1] == order[..i] + [order[i]];
    if calls[order[i]] == Returned(Replied(true)) {
      assert Arrived(order[..i + 1], calls) == Arrived(order[..i], calls) + {order[i]};
    } else {
      assert Arrived(order[..i + 1], calls) == Arrived(order[..i], calls);
    }
  }

  /** The drain of an acquire round: reports at most once, as soon as and only
      if a quorum of successes has arrived. */
  method AwaitQuorum(order: seq<NodeId>, calls: map<NodeId, Call>, quorum: nat)
    returns (reported: bool, at: nat, successes: nat)
    requires Arrival(order, calls) && 0 < quorum
    ensures successes == |Successes(calls)|
    ensures reported <==> quorum <= |Successes(calls)|
    ensures reported ==> at < |order| && |Arrived(order[..at], calls)| == quorum - 1
                         && |Arrived(order[..at + 1], calls)| == quorum
  {
    reported, at, successes := false, 0, 0;
    assert order[..0] == [];
    for i := 0 to |order|
      invariant successes == |Arrived(order[..i], calls)|
      invariant !reported ==> successes < quorum
      invariant reported ==> at < i && quorum <= successes && |Arrived(order[..at], calls)| == quorum - 1
                             && |Arrived(order[..at + 1], calls)| == quorum
    {
      NextArrival(order, calls, i);
      if calls[order[i]].answer == Replied(true) {
        successes := successes + 1;
      }
      if !reported && quorum <= successes {
        reported, at := true, i;
      }
    }
    assert order[..|order|] == order;
    assert Arrived(order, calls) == Successes(calls);
  }

  /** The drain of a renew or release round. */
  method CollectNodeResults(order: seq<NodeId>, calls: map<NodeId, Call>)
    returns (successes: nat, failed: set<NodeId>)
    requires Arrival(order, calls)
    ensures successes == |Successes(calls)|
    ensures failed == set n | n in calls && calls[n] == Returned(Unknown)
  {
    successes, failed := 0, {};
    assert order[..0] == [];
    for i := 0 to |order|
      invariant successes == |Arrived(order[..i], calls)|
      invariant failed == set n | n in order[..i] && n in calls && calls[n] == Returned(Unknown)
    {
      NextArrival(order, calls, i);
      assert order[..i + 1] == order[..i] + [order[i]];
      if calls[order[i]].answer == Unknown {
        failed := failed + {order[i]};
      } else if calls[order[i]].answer.success {
        successes := successes + 1;
      }
    }
    assert order[..|order|] == order;
    assert Arrived(order, calls) == Successes(calls);
  }
}
