/** Cleanup of the lease protocol: once a release has taken effect on a node, the
    token stays away from that node, for as long as no acquire of the attempt that
    its caller gave up lands where the resource is free. */
module LeaseCleanup {
  import opened LeaseStore
  import opened LeaseProtocol
  import opened LeaseSafety

  ghost predicate Without(node: Node, resource: string, a: Token) {
    resource in node.leases ==> node.leases[resource].token != a
  }

  /** The token is gone and no call of a round is left that could bring it back. */
  ghost predicate Cleaned(s: State, a: Token, n: NodeId) {
    && a in s.leases && n in s.nodes
    && s.leases[a].phase.Ended?
    && Without(s.nodes[n], s.leases[a].resource, a)
    && (s.leases[a].op.Round? && s.leases[a].op.kind.AcquireOp? && n in s.leases[a].op.calls ==>
          s.leases[a].op.calls[n].NotInvoked? || s.leases[a].op.calls[n].Returned?)
  }

  /** The step is no late acquire of the attempt on the node, or one that finds the resource taken. */
  ghost predicate Harmless(s: State, act: Action, a: Token, n: NodeId) {
    act == Late(a, AcquireOp, n) && a in s.leases && n in s.nodes ==>
      Live(s.nodes[n].leases, s.leases[a].resource, s.nodes[n].clock)
  }

  // ---- What each step does to a cleaned node ----

  /** No call puts back a token that is not on the node, except an acquire of
      that very attempt that finds the resource free. */
  lemma EffectKeepsWithout(w: World, node: Node, kind: OpKind, a: Token, la: Lease, b: Token, r: string)
    requires la.locker in w.configs && Without(node, r, b)
    requires a == b && kind.AcquireOp? ==> la.resource == r && Live(node.leases, r, node.clock)
    ensures Without(node.(leases := Effect(w, kind, a, la, node).0), r, b)
  {
  }

  /** A cancelled lease sends out no acquire call. */
  lemma ActKeepsCleaned(w: World, v: real, clock: real, l: Lease, act: LeaseAction, l': Lease, n: NodeId)
    requires LeaseControl(l, clock, v) && LeaseStep(w, v, clock, l, act, l') && l.phase.Ended?
    requires l.op.Round? && l.op.kind.AcquireOp? && n in l.op.calls ==>
               l.op.calls[n].NotInvoked? || l.op.calls[n].Returned?
    ensures l'.phase.Ended? && l'.resource == l.resource
    ensures l'.op.Round? && l'.op.kind.AcquireOp? && n in l'.op.calls ==>
              l'.op.calls[n].NotInvoked? || l'.op.calls[n].Returned?
  {
  }

  lemma CleanedStays(w: World, s: State, act: Action, s': State, a: Token, n: NodeId)
    requires Inv(w, s) && Next(w, s, act, s') && Cleaned(s, a, n) && Harmless(s, act, a, n)
    ensures Cleaned(s', a, n)
  {
    var l := s.leases[a];
    assert LeaseInv(w, s.nodes, s.clocks[l.locker], a, l);
    match act
    case Begin(_, _, _) =>
    case Tick(_, _) =>
    case Act(b, la) =>
      if a == b {
        ActKeepsCleaned(w, Validity(w.configs[l.locker]), s.clocks[l.locker], l, la, s'.leases[a], n);
      }
    case TakeEffect(b, m) =>
      if m == n {
        EffectKeepsWithout(w, s.nodes[n], s.leases[b].op.kind, b, s.leases[b], a, l.resource);
      }
    case Late(b, kind, m) =>
      if m == n {
        EffectKeepsWithout(w, s.nodes[n], kind, b, s.leases[b], a, l.resource);
      }
  }

  /** In a reachable state a cleaned node has the token under no resource. */
  lemma CleanedIsAbsent(w: World, s: State, a: Token, n: NodeId)
    requires Inv(w, s) && a in s.leases && n in s.nodes
    ensures Without(s.nodes[n], s.leases[a].resource, a) <==> Absent(s.nodes[n].leases, a)
  {
  }

  /** A late acquire that finds the resource free brings the token back. */
  lemma HarmfulBringsBack(w: World, s: State, act: Action, s': State, a: Token, n: NodeId)
    requires Inv(w, s) && Next(w, s, act, s') && !Harmless(s, act, a, n)
    ensures n in s'.nodes && !Absent(s'.nodes[n].leases, a)
  {
    assert s'.nodes[n].leases[s.leases[a].resource].token == a;
  }

  // ---- Whole runs ----

  /** At step g a release of the attempt takes effect on the node. */
  ghost predicate ReleaseTook(r: Run, g: nat, a: Token, n: NodeId) {
    && g < |r.actions| && g < |r.states| && r.actions[g] == TakeEffect(a, n)
    && a in r.states[g].leases && r.states[g].leases[a].op.Round? && r.states[g].leases[a].op.kind.ReleaseOp?
  }

  lemma TookIsCleaned(w: World, s: State, act: Action, s': State, a: Token, n: NodeId)
    requires Inv(w, s) && Next(w, s, act, s') && act == TakeEffect(a, n) && s.leases[a].op.kind.ReleaseOp?
    ensures Cleaned(s', a, n)
  {
    assert LeaseInv(w, s.nodes, s.clocks[s.leases[a].locker], a, s.leases[a]);
  }

  lemma TookThenCleaned(w: World, r: Run, g: nat, a: Token, n: NodeId)
    requires ValidWorld(w) && IsRun(w, r) && ReleaseTook(r, g, a, n)
    ensures Cleaned(r.states[g + 1], a, n)
  {
    RunInv(w, r, g);
    TookIsCleaned(w, r.states[g], r.actions[g], r.states[g + 1], a, n);
  }

  lemma {:induction false} StaysCleaned(w: World, r: Run, g: nat, j: nat, a: Token, n: NodeId)
    requires ValidWorld(w) && IsRun(w, r) && g < j < |r.states| && ReleaseTook(r, g, a, n)
    requires forall k :: g < k < j ==> Harmless(r.states[k], r.actions[k], a, n)
    ensures Cleaned(r.states[j], a, n)
  {
    if g + 1 == j {
      TookThenCleaned(w, r, g, a, n);
    } else {
      RunInv(w, r, j - 1);
      StaysCleaned(w, r, g, j - 1, a, n);
      CleanedStays(w, r.states[j - 1], r.actions[j - 1], r.states[j], a, n);
    }
  }

  /** The node lists no lease of the token. */
  ghost predicate Gone(s: State, a: Token, n: NodeId) {
    n in s.nodes && Absent(s.nodes[n].leases, a)
  }

  /** The exact condition: after a release took effect on a node, the token stays
      away from it if and only if no late acquire of the attempt lands there while
      the resource is free. */
  lemma GoneWhileHarmless(w: World, r: Run, g: nat, j: nat, a: Token, n: NodeId)
    requires ValidWorld(w) && IsRun(w, r) && g < j < |r.states| && ReleaseTook(r, g, a, n)
    ensures (forall k :: g < k <= j ==> Gone(r.states[k], a, n))
            <==> (forall k :: g < k < j ==> Harmless(r.states[k], r.actions[k], a, n))
  {
    if forall k :: g < k < j ==> Harmless(r.states[k], r.actions[k], a, n) {
      forall k | g < k <= j
        ensures Gone(r.states[k], a, n)
      {
        StaysCleaned(w, r, g, k, a, n);
        RunInv(w, r, k);
        CleanedIsAbsent(w, r.states[k], a, n);
      }
    } else {
      var k :| g < k < j && !Harmless(r.states[k], r.actions[k], a, n);
      RunInv(w, r, k);
      HarmfulBringsBack(w, r.states[k], r.actions[k], r.states[k + 1], a, n);
      assert !Gone(r.states[k + 1], a, n);
    }
  }

  // ---- From the answer ----

  /** A release call of the current round took effect on the node. */
  ghost predicate RoundTook(l: Lease, n: NodeId) {
    l.op.Round? && l.op.kind.ReleaseOp? && n in l.op.calls && TookEffect(l.op.calls[n])
  }

  ghost predicate TookRelease(s: State, a: Token, n: NodeId) {
    a in s.leases && RoundTook(s.leases[a], n)
  }

  ghost predicate TookEffect(c: Call) {
    c.Applied? || (c.Returned? && c.answer.Replied?)
  }

  /** The node has answered this attempt's release without an error. */
  ghost predicate ReleaseAnswered(s: State, a: Token, n: NodeId) {
    TookRelease(s, a, n) && s.leases[a].op.calls[n].Returned?
  }

  lemma OnlyEffectTakes(w: World, s: State, act: Action, s': State, a: Token, n: NodeId)
    requires Next(w, s, act, s') && TookRelease(s', a, n) && !TookRelease(s, a, n)
    ensures act == TakeEffect(a, n) && a in s.leases && s.leases[a].op.Round? && s.leases[a].op.kind.ReleaseOp?
  {
    if act.Act? && act.token == a {
      var l := s.leases[a];
      ActTakesNothing(w, Validity(w.configs[l.locker]), s.clocks[l.locker], l, act.act, s'.leases[a], n);
    }
  }

  lemma ActTakesNothing(w: World, v: real, clock: real, l: Lease, act: LeaseAction, l': Lease, n: NodeId)
    requires LeaseStep(w, v, clock, l, act, l')
    ensures RoundTook(l', n) ==> RoundTook(l, n)
  {
  }

  /** An answer is preceded by the effect it tells of. */
  lemma {:induction false} AnswerHasEffect(w: World, r: Run, i: nat, a: Token, n: NodeId) returns (g: nat)
    requires IsRun(w, r) && i < |r.states| && TookRelease(r.states[i], a, n)
    ensures g < i && ReleaseTook(r, g, a, n)
  {
    if TookRelease(r.states[i - 1], a, n) {
      g := AnswerHasEffect(w, r, i - 1, a, n);
    } else {
      g := i - 1;
      OnlyEffectTakes(w, r.states[g], r.actions[g], r.states[i], a, n);
    }
  }

  /** No resurrection: once a node has answered an attempt's release, no later
      state of the run has the attempt's token on that node, under any resource,
      provided that acquire calls which their caller gave up do not land there late
      while the resource is free. */
  lemma NoResurrection(w: World, r: Run, i: nat, j: nat, a: Token, n: NodeId)
    requires ValidWorld(w) && IsRun(w, r) && i <= j < |r.states|
    requires ReleaseAnswered(r.states[i], a, n)
    requires forall k :: 0 <= k < j ==> Harmless(r.states[k], r.actions[k], a, n)
    ensures n in r.states[j].nodes && Absent(r.states[j].nodes[n].leases, a)
    ensures Cleaned(r.states[j], a, n)
  {
    var g := AnswerHasEffect(w, r, i, a, n);
    StaysCleaned(w, r, g, j, a, n);
    RunInv(w, r, j);
    CleanedIsAbsent(w, r.states[j], a, n);
  }
}
