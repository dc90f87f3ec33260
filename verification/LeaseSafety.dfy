/** Safety of the lease protocol over whole runs: cover, mutual exclusion and
    monotone validity, wherever and whenever calls land. */
module LeaseSafety {
  import opened Collections
  import opened LeaseStore
  import opened LeaseProtocol

  // ---- Clock arithmetic ----

  /** The reserved drift is enough: validity never exceeds (1-f) of the duration,
      and gives up less than one nanosecond more than that. */
  lemma ValidityBound(c: Config)
    requires ValidConfig(c)
    ensures Validity(c) <= (1.0 - c.clockDriftFactor) * c.leaseDuration as real
    ensures (1.0 - c.clockDriftFactor) * c.leaseDuration as real - 1.0 < Validity(c)
    ensures 0.0 <= Validity(c) < c.leaseDuration as real
  {
    var d, f := c.leaseDuration as real, c.clockDriftFactor;
    assert (1.0 - f) * d == d - d * f;
    assert 0.0 < d * f;
    assert d * f < d by {
      assert d * (1.0 - f) > 0.0;
    }
    assert ClockDrift(c) <= c.leaseDuration;
  }

  /** The node's entry outlives `until` on the locker's clock, whatever rates the clocks run at. */
  ghost predicate Covers(node: Node, resource: string, a: Token, until: real, clock: real, f: real) {
    && resource in node.leases && node.leases[resource].token == a
    && until - clock <= (1.0 - f) * (node.leases[resource].expiresAt - node.clock)
  }

  lemma ScaledSign(g: real, x: real)
    requires 0.0 < g
    ensures 0.0 < g * x <==> 0.0 < x
  {
  }

  lemma CoverIsLive(node: Node, resource: string, a: Token, until: real, clock: real, f: real)
    requires Covers(node, resource, a, until, clock, f) && clock < until && 0.0 < f < 1.0
    ensures Live(node.leases, resource, node.clock)
  {
    var rest := node.leases[resource].expiresAt - node.clock;
    assert 0.0 < until - clock <= (1.0 - f) * rest;
    ScaledSign(1.0 - f, rest);
    assert 0.0 < rest;
  }

  lemma CoverSurvivesTick(node: Node, resource: string, a: Token, until: real, clock: real, f: real, dl: real, dn: real)
    requires Covers(node, resource, a, until, clock, f) && (1.0 - f) * dn <= dl
    ensures Covers(node.(clock := node.clock + dn), resource, a, until, clock + dl, f)
  {
    var rest := node.leases[resource].expiresAt - node.clock;
    assert (1.0 - f) * (rest - dn) == (1.0 - f) * rest - (1.0 - f) * dn;
  }

  // ---- Quorums ----

  /** Two quorums share a node. */
  lemma QuorumsMeet(w: World, a: set<NodeId>, b: set<NodeId>) returns (n: NodeId)
    requires a <= w.nodes && b <= w.nodes && Quorum(w) <= |a| && Quorum(w) <= |b|
    ensures n in a && n in b
  {
    if a * b == {} {
      assert |a + b| == |a| + |b|;
      SubsetSize(a + b, w.nodes);
      assert false;
    }
    n :| n in a * b;
  }

  ghost function CoverSet(w: World, nodes: map<NodeId, Node>, resource: string, a: Token,
                          until: real, clock: real, f: real): set<NodeId>
  {
    set n | n in w.nodes && n in nodes && Covers(nodes[n], resource, a, until, clock, f)
  }

  /** While the clock is before `until`, a quorum of nodes covers the lease. */
  ghost predicate QuorumCovers(w: World, nodes: map<NodeId, Node>, resource: string, a: Token,
                               until: real, clock: real, f: real)
  {
    clock < until ==> Quorum(w) <= |CoverSet(w, nodes, resource, a, until, clock, f)|
  }

  // ---- The invariant ----

  /** Every node that took the current acquire or renew call covers the lease
      for the validity counted from the start of the round. */
  ghost predicate RoundCovers(w: World, nodes: map<NodeId, Node>, clock: real, a: Token, l: Lease, v: real, f: real)
    requires l.op.Round?
  {
    clock < l.op.startedAt + v ==>
      Takers(l.op.calls) <= CoverSet(w, nodes, l.resource, a, l.op.startedAt + v, clock, f)
  }

  /** The lease is relied on, or will be once a pending result is picked up. */
  ghost predicate ReliedOn(l: Lease) {
    l.phase.Holding? || l.phase.Renewing? || (l.phase.Acquiring? && l.reported)
  }

  ghost predicate LeaseControl(l: Lease, clock: real, v: real) {
    && l.startedAt <= clock && l.validUntil <= clock + v
    && (l.phase.Acquiring? ==> l.validUntil == l.startedAt + v)
    && (l.phase.Ended? ==> l.cancelled)
    && (l.phase == Renewing(Running) ==> l.op.Round? && l.op.kind.RenewOp?)
    && (l.phase.Renewing? && l.phase.stage.Renewed? ==> l.validUntil <= l.phase.stage.until <= clock + v)
    && (l.op.Round? ==>
          && l.op.startedAt <= clock
          && (l.op.kind.AcquireOp? ==> l.op.startedAt == l.startedAt)
          && (l.op.kind.RenewOp? ==>
                (l.phase == Renewing(Running) && l.validUntil <= l.op.startedAt + v) || l.phase.Ended?)
          && (l.op.kind.ReleaseOp? ==> l.phase.Ended?))
  }

  ghost predicate LeaseCover(w: World, nodes: map<NodeId, Node>, clock: real, a: Token, l: Lease, v: real, f: real) {
    && (ReliedOn(l) ==> QuorumCovers(w, nodes, l.resource, a, l.validUntil, clock, f))
    && (l.phase.Renewing? && l.phase.stage.Renewed? ==>
          QuorumCovers(w, nodes, l.resource, a, l.phase.stage.until, clock, f))
    && (l.op.Round? && !l.op.kind.ReleaseOp? ==> RoundCovers(w, nodes, clock, a, l, v, f))
  }

  ghost predicate LeaseInv(w: World, nodes: map<NodeId, Node>, clock: real, a: Token, l: Lease)
    requires l.locker in w.configs
  {
    var c := w.configs[l.locker];
    LeaseControl(l, clock, Validity(c))
    && (!l.phase.Ended? ==> LeaseCover(w, nodes, clock, a, l, Validity(c), c.clockDriftFactor))
  }

  /** Nodes only hold tokens of attempts that have begun, under the attempt's resource. */
  ghost predicate TokensKnown(s: State) {
    forall n, key :: n in s.nodes && key in s.nodes[n].leases ==>
      var a := s.nodes[n].leases[key].token; a in s.leases && s.leases[a].resource == key
  }

  ghost predicate Inv(w: World, s: State) {
    && ValidWorld(w) && WellFormed(w, s) && TokensKnown(s)
    && forall a :: a in s.leases ==> LeaseInv(w, s.nodes, s.clocks[s.leases[a].locker], a, s.leases[a])
  }

  // ---- Every step keeps the invariant ----

  lemma InitInv(w: World, s: State)
    requires ValidWorld(w) && Init(w, s)
    ensures Inv(w, s)
  {
  }

  lemma BeginInv(w: World, s: State, a: Token, k: LockerId, r: string, s': State)
    requires Inv(w, s) && BeginStep(w, s, a, k, r, s')
    ensures Inv(w, s')
  {
    ValidityBound(w.configs[k]);
  }

  /** A lease's own steps keep its control state sound and never move its validity back. */
  lemma ActKeepsControl(w: World, v: real, clock: real, l: Lease, act: LeaseAction, l': Lease)
    requires LeaseControl(l, clock, v) && LeaseStep(w, v, clock, l, act, l')
    ensures LeaseControl(l', clock, v) && l.validUntil <= l'.validUntil && (l.phase.Ended? ==> l'.phase.Ended?)
  {
  }

  lemma ActKeepsShape(w: World, v: real, clock: real, l: Lease, act: LeaseAction, l': Lease)
    requires LeaseStep(w, v, clock, l, act, l')
    ensures l'.locker == l.locker && l'.resource == l.resource
    ensures (l.op.Round? ==> l.op.calls.Keys == w.nodes) && l'.op.Round? ==> l'.op.calls.Keys == w.nodes
  {
  }

  /** A quorum of answers turns into a quorum of covering nodes. */
  lemma ActKeepsCover(w: World, nodes: map<NodeId, Node>, v: real, f: real, clock: real, a: Token,
                      l: Lease, act: LeaseAction, l': Lease)
    requires LeaseControl(l, clock, v) && LeaseCover(w, nodes, clock, a, l, v, f)
    requires LeaseStep(w, v, clock, l, act, l')
    ensures LeaseCover(w, nodes, clock, a, l', v, f)
  {
    if act.Invoke? || act.Answered? || act.CallFails? {
      CallStepKeepsCover(w, nodes, v, f, clock, a, l, act, l');
    } else if act.ReportQuorum? || act.RenewSucceeds? {
      QuorumStepKeepsCover(w, nodes, v, f, clock, a, l, act, l');
    } else if l'.op.Round? && l'.op != l.op {
      assert Takers(l'.op.calls) == {};
    }
  }

  /** Sending a call out, receiving its answer or losing it adds no taker. */
  lemma CallStepKeepsCover(w: World, nodes: map<NodeId, Node>, v: real, f: real, clock: real, a: Token,
                           l: Lease, act: LeaseAction, l': Lease)
    requires LeaseCover(w, nodes, clock, a, l, v, f) && LeaseStep(w, v, clock, l, act, l')
    requires act.Invoke? || act.Answered? || act.CallFails?
    ensures LeaseCover(w, nodes, clock, a, l', v, f)
  {
    assert Takers(l'.op.calls) <= Takers(l.op.calls);
  }

  lemma QuorumStepKeepsCover(w: World, nodes: map<NodeId, Node>, v: real, f: real, clock: real, a: Token,
                             l: Lease, act: LeaseAction, l': Lease)
    requires LeaseControl(l, clock, v) && LeaseCover(w, nodes, clock, a, l, v, f)
    requires LeaseStep(w, v, clock, l, act, l') && (act.ReportQuorum? || act.RenewSucceeds?)
    ensures LeaseCover(w, nodes, clock, a, l', v, f)
  {
    SuccessesCover(w, nodes, v, f, clock, a, l);
  }

  lemma SuccessesCover(w: World, nodes: map<NodeId, Node>, v: real, f: real, clock: real, a: Token, l: Lease)
    requires l.op.Round? && RoundCovers(w, nodes, clock, a, l, v, f) && Quorum(w) <= |Successes(l.op.calls)|
    ensures QuorumCovers(w, nodes, l.resource, a, l.op.startedAt + v, clock, f)
  {
    if clock < l.op.startedAt + v {
      var cover := CoverSet(w, nodes, l.resource, a, l.op.startedAt + v, clock, f);
      assert Successes(l.op.calls) <= Takers(l.op.calls) <= cover;
      SubsetSize(Successes(l.op.calls), cover);
    }
  }

  lemma ActInv(w: World, s: State, a: Token, act: LeaseAction, s': State)
    requires Inv(w, s) && ActStep(w, s, a, act, s')
    ensures Inv(w, s')
  {
    var l, l' := s.leases[a], s'.leases[a];
    var c := w.configs[l.locker];
    assert LeaseInv(w, s.nodes, s.clocks[l.locker], a, l);
    ActKeepsControl(w, Validity(c), s.clocks[l.locker], l, act, l');
    ActKeepsShape(w, Validity(c), s.clocks[l.locker], l, act, l');
    if !l'.phase.Ended? {
      ActKeepsCover(w, s.nodes, Validity(c), c.clockDriftFactor, s.clocks[l.locker], a, l, act, l');
    }
  }

  /** Every node that covered the lease still does, for each deadline that is not yet past. */
  ghost predicate CoverGrows(w: World, nodes: map<NodeId, Node>, nodes': map<NodeId, Node>, r: string, a: Token,
                             v: real, clock: real, clock': real, f: real)
  {
    forall until: real :: clock' < until <= clock + v ==>
      CoverSet(w, nodes, r, a, until, clock, f) <= CoverSet(w, nodes', r, a, until, clock', f)
  }

  /** A growing cover keeps everything the invariant says about the lease. */
  lemma GrowthKeepsCover(w: World, nodes: map<NodeId, Node>, nodes': map<NodeId, Node>, a: Token, l: Lease,
                         v: real, clock: real, clock': real, f: real)
    requires LeaseControl(l, clock, v) && LeaseCover(w, nodes, clock, a, l, v, f) && clock <= clock'
    requires CoverGrows(w, nodes, nodes', l.resource, a, v, clock, clock', f)
    ensures LeaseCover(w, nodes', clock', a, l, v, f)
  {
    if clock' < l.validUntil {
      SubsetSize(CoverSet(w, nodes, l.resource, a, l.validUntil, clock, f),
                 CoverSet(w, nodes', l.resource, a, l.validUntil, clock', f));
    }
    if l.phase.Renewing? && l.phase.stage.Renewed? && clock' < l.phase.stage.until {
      SubsetSize(CoverSet(w, nodes, l.resource, a, l.phase.stage.until, clock, f),
                 CoverSet(w, nodes', l.resource, a, l.phase.stage.until, clock', f));
    }
  }

  lemma TickGrowsCover(w: World, nodes: map<NodeId, Node>, nodes': map<NodeId, Node>, r: string, a: Token,
                       v: real, clock: real, dl: real, f: real, dn: map<NodeId, real>)
    requires nodes.Keys == w.nodes == dn.Keys
    requires nodes' == AdvanceNodes(nodes, dn)
    requires RatesBounded(f, dl, dn)
    ensures CoverGrows(w, nodes, nodes', r, a, v, clock, clock + dl, f)
  {
    forall until: real
      ensures CoverSet(w, nodes, r, a, until, clock, f) <= CoverSet(w, nodes', r, a, until, clock + dl, f)
    {
      TickGrowsOne(w, nodes, nodes', r, a, until, clock, dl, f, dn);
    }
  }

  lemma TickGrowsOne(w: World, nodes: map<NodeId, Node>, nodes': map<NodeId, Node>, r: string, a: Token,
                     until: real, clock: real, dl: real, f: real, dn: map<NodeId, real>)
    requires nodes.Keys == w.nodes == dn.Keys
    requires nodes' == AdvanceNodes(nodes, dn)
    requires RatesBounded(f, dl, dn)
    ensures CoverSet(w, nodes, r, a, until, clock, f) <= CoverSet(w, nodes', r, a, until, clock + dl, f)
  {
    forall n | n in CoverSet(w, nodes, r, a, until, clock, f)
      ensures n in CoverSet(w, nodes', r, a, until, clock + dl, f)
    {
      CoverSurvivesTick(nodes[n], r, a, until, clock, f, dl, dn[n]);
    }
  }

  lemma TickKeepsLease(w: World, nodes: map<NodeId, Node>, nodes': map<NodeId, Node>, a: Token, l: Lease,
                       clock: real, clock': real, dl: real, dn: map<NodeId, real>)
    requires l.locker in w.configs && nodes.Keys == w.nodes == dn.Keys && 0.0 <= dl && clock' == clock + dl
    requires nodes' == AdvanceNodes(nodes, dn)
    requires RatesBounded(w.configs[l.locker].clockDriftFactor, dl, dn)
    requires LeaseInv(w, nodes, clock, a, l)
    ensures LeaseInv(w, nodes', clock', a, l)
  {
    var c := w.configs[l.locker];
    if !l.phase.Ended? {
      TickGrowsCover(w, nodes, nodes', l.resource, a, Validity(c), clock, dl, c.clockDriftFactor, dn);
      GrowthKeepsCover(w, nodes, nodes', a, l, Validity(c), clock, clock', c.clockDriftFactor);
    }
  }

  /** What a tick means for one locker. */
  lemma TickOfLocker(w: World, s: State, dl: map<LockerId, real>, dn: map<NodeId, real>, s': State, k: LockerId)
    requires WellFormed(w, s) && TickStep(w, s, dl, dn, s') && k in w.configs
    ensures k in dl && 0.0 <= dl[k] && s'.clocks[k] == s.clocks[k] + dl[k]
    ensures s.nodes.Keys == w.nodes == dn.Keys && s'.nodes == AdvanceNodes(s.nodes, dn)
    ensures RatesBounded(w.configs[k].clockDriftFactor, dl[k], dn)
  {
  }

  lemma TickOne(w: World, s: State, dl: map<LockerId, real>, dn: map<NodeId, real>, s': State, a: Token)
    requires WellFormed(w, s) && TickStep(w, s, dl, dn, s') && a in s.leases
    requires LeaseInv(w, s.nodes, s.clocks[s.leases[a].locker], a, s.leases[a])
    ensures LeaseInv(w, s'.nodes, s'.clocks[s.leases[a].locker], a, s.leases[a])
  {
    var k := s.leases[a].locker;
    TickOfLocker(w, s, dl, dn, s', k);
    TickKeepsLease(w, s.nodes, s'.nodes, a, s.leases[a], s.clocks[k], s'.clocks[k], dl[k], dn);
  }

  lemma TickInv(w: World, s: State, dl: map<LockerId, real>, dn: map<NodeId, real>, s': State)
    requires Inv(w, s) && TickStep(w, s, dl, dn, s')
    ensures Inv(w, s')
  {
    TickTokens(w, s, dl, dn, s');
    forall a | a in s'.leases
      ensures LeaseInv(w, s'.nodes, s'.clocks[s'.leases[a].locker], a, s'.leases[a])
    {
      TickOne(w, s, dl, dn, s', a);
    }
  }

  lemma TickTokens(w: World, s: State, dl: map<LockerId, real>, dn: map<NodeId, real>, s': State)
    requires WellFormed(w, s) && TokensKnown(s) && TickStep(w, s, dl, dn, s')
    ensures TokensKnown(s') && WellFormed(w, s')
  {
    assert forall n :: n in s'.nodes ==> s'.nodes[n].leases == s.nodes[n].leases;
  }

  /** A call of one attempt leaves the live cover of every other attempt alone,
      and its own cover too unless it is a release. */
  lemma EffectKeepsCovers(node: Node, kind: OpKind, ra: string, a: Token, ttl: real, rb: string, b: Token,
                          until: real, clock: real, f: real)
    requires Covers(node, rb, b, until, clock, f) && clock < until && 0.0 < f < 1.0
    requires a == b ==> !kind.ReleaseOp? && until - clock <= (1.0 - f) * ttl
    ensures Covers(node.(leases := CallOn(kind, node.leases, ra, a, ttl, node.clock).0), rb, b, until, clock, f)
  {
    CoverIsLive(node, rb, b, until, clock, f);
    if a == b && ra == rb && kind.RenewOp? {
      FreshCovers(node.(leases := RenewOn(node.leases, ra, a, ttl, node.clock).0), ra, a, ttl, until, clock, f);
    } else {
      LiveIsKept(kind, node.leases, ra, a, ttl, node.clock, rb);
    }
  }

  /** A live lease changes only by a renewal or a release with its own token. */
  lemma LiveIsKept(kind: OpKind, m: Leases, ra: string, a: Token, ttl: real, now: real, rb: string)
    requires Live(m, rb, now) && (ra == rb && a == m[rb].token ==> kind.AcquireOp?)
    ensures var m' := CallOn(kind, m, ra, a, ttl, now).0; rb in m' && m'[rb] == m[rb]
  {
  }

  /** An entry that was just given `ttl` covers that much of the locker's time, less the drift. */
  lemma FreshCovers(node: Node, r: string, a: Token, ttl: real, until: real, clock: real, f: real)
    requires FreshLease(node.leases, r, a, ttl, node.clock) && until - clock <= (1.0 - f) * ttl
    ensures Covers(node, r, a, until, clock, f)
  {
    assert node.leases[r].expiresAt - node.clock == ttl;
  }

  /** What a granted acquire or renew puts in place covers a full validity. */
  lemma EffectCovers(node: Node, kind: OpKind, r: string, a: Token, c: Config, until: real, clock: real)
    requires ValidConfig(c) && !kind.ReleaseOp? && until - clock <= Validity(c)
    requires CallOn(kind, node.leases, r, a, c.leaseDuration as real, node.clock).1
    ensures Covers(node.(leases := CallOn(kind, node.leases, r, a, c.leaseDuration as real, node.clock).0),
                   r, a, until, clock, c.clockDriftFactor)
  {
    ValidityBound(c);
    var ttl := c.leaseDuration as real;
    var node' := node.(leases := CallOn(kind, node.leases, r, a, ttl, node.clock).0);
    FreshCovers(node', r, a, ttl, until, clock, c.clockDriftFactor);
  }

  /** A call of attempt `a` on one node, seen by attempt `b`. */
  lemma EffectGrowsCover(w: World, nodes: map<NodeId, Node>, n: NodeId, kind: OpKind, a: Token, la: Lease,
                         b: Token, lb: Lease, clock: real)
    requires n in nodes && la.locker in w.configs && lb.locker in w.configs && ValidWorld(w)
    requires a == b ==> la == lb && !kind.ReleaseOp?
    ensures CoverGrows(w, nodes, Affected(w, nodes, n, kind, a, la), lb.resource, b,
                       Validity(w.configs[lb.locker]), clock, clock, w.configs[lb.locker].clockDriftFactor)
  {
    var c := w.configs[lb.locker];
    var f := c.clockDriftFactor;
    ValidityBound(c);
    var node' := nodes[n].(leases := Effect(w, kind, a, la, nodes[n]).0);
    forall until: real | clock < until <= clock + Validity(c) && Covers(nodes[n], lb.resource, b, until, clock, f)
      ensures Covers(node', lb.resource, b, until, clock, f)
    {
      EffectKeepsCovers(nodes[n], kind, la.resource, a, w.configs[la.locker].leaseDuration as real,
                        lb.resource, b, until, clock, f);
    }
  }

  /** Whenever a call lands, in time or late, once or again, every attempt keeps its cover. */
  lemma EffectKeepsLease(w: World, nodes: map<NodeId, Node>, n: NodeId, kind: OpKind, a: Token, la: Lease,
                         b: Token, lb: Lease, clock: real)
    requires n in nodes && la.locker in w.configs && lb.locker in w.configs && ValidWorld(w)
    requires LeaseInv(w, nodes, clock, b, lb)
    requires a == b ==> la == lb && (kind.ReleaseOp? ==> lb.phase.Ended?)
    ensures LeaseInv(w, Affected(w, nodes, n, kind, a, la), clock, b, lb)
  {
    if !lb.phase.Ended? {
      var c := w.configs[lb.locker];
      EffectGrowsCover(w, nodes, n, kind, a, la, b, lb, clock);
      GrowthKeepsCover(w, nodes, Affected(w, nodes, n, kind, a, la), b, lb,
                       Validity(c), clock, clock, c.clockDriftFactor);
    }
  }

  lemma GrantEffect(w: World, nodes: map<NodeId, Node>, n: NodeId, a: Token, l: Lease, clock: real)
    requires ValidWorld(w) && l.op.Round? && nodes.Keys == w.nodes == l.op.calls.Keys
             && n in nodes && l.locker in w.configs
    requires LeaseInv(w, nodes, clock, a, l) && !l.phase.Ended? && l.op.calls[n].Pending?
    ensures var ok := Effect(w, l.op.kind, a, l, nodes[n]).1;
            LeaseCover(w, Affected(w, nodes, n, l.op.kind, a, l), clock, a, SetCall(l, n, Applied(ok)),
                       Validity(w.configs[l.locker]), w.configs[l.locker].clockDriftFactor)
  {
    var c := w.configs[l.locker];
    var ok := Effect(w, l.op.kind, a, l, nodes[n]).1;
    var l' := SetCall(l, n, Applied(ok));
    EffectKeepsLease(w, nodes, n, l.op.kind, a, l, a, l, clock);
    if ok {
      EffectCovers(nodes[n], l.op.kind, l.resource, a, c, l.op.startedAt + Validity(c), clock);
    }
    assert Takers(l'.op.calls) <= Takers(l.op.calls) + (if ok then {n} else {});
  }

  lemma EffectInv(w: World, s: State, a: Token, n: NodeId, s': State)
    requires Inv(w, s) && EffectStep(w, s, a, n, s')
    ensures Inv(w, s')
  {
    forall b | b in s'.leases
      ensures LeaseInv(w, s'.nodes, s'.clocks[s'.leases[b].locker], b, s'.leases[b])
    {
      EffectOne(w, s, a, n, s', b);
    }
    EffectShape(w, s, a, n, s');
  }

  lemma EffectShape(w: World, s: State, a: Token, n: NodeId, s': State)
    requires WellFormed(w, s) && TokensKnown(s) && EffectStep(w, s, a, n, s')
    ensures WellFormed(w, s') && TokensKnown(s')
  {
    EffectTokens(w, s, s.leases[a].op.kind, a, n, s');
  }

  lemma EffectOne(w: World, s: State, a: Token, n: NodeId, s': State, b: Token)
    requires WellFormed(w, s) && ValidWorld(w) && EffectStep(w, s, a, n, s') && b in s.leases
    requires LeaseInv(w, s.nodes, s.clocks[s.leases[b].locker], b, s.leases[b])
    ensures s'.leases[b].locker == s.leases[b].locker && s'.clocks == s.clocks
    ensures LeaseInv(w, s'.nodes, s'.clocks[s'.leases[b].locker], b, s'.leases[b])
  {
    var la, clock := s.leases[a], s.clocks[s.leases[b].locker];
    if a != b {
      EffectKeepsLease(w, s.nodes, n, la.op.kind, a, la, b, s.leases[b], clock);
    } else if !la.phase.Ended? {
      GrantEffect(w, s.nodes, n, a, la, clock);
    }
  }

  lemma LateInv(w: World, s: State, a: Token, kind: OpKind, n: NodeId, s': State)
    requires Inv(w, s) && LateStep(w, s, a, kind, n, s')
    ensures Inv(w, s')
  {
    forall b | b in s'.leases
      ensures LeaseInv(w, s'.nodes, s'.clocks[s'.leases[b].locker], b, s'.leases[b])
    {
      var clock := s.clocks[s.leases[b].locker];
      assert LeaseInv(w, s.nodes, clock, b, s.leases[b]);
      EffectKeepsLease(w, s.nodes, n, kind, a, s.leases[a], b, s.leases[b], clock);
    }
    EffectTokens(w, s, kind, a, n, s');
  }

  lemma EffectTokens(w: World, s: State, kind: OpKind, a: Token, n: NodeId, s': State)
    requires WellFormed(w, s) && TokensKnown(s) && a in s.leases && n in s.nodes
    requires s'.nodes == Affected(w, s.nodes, n, kind, a, s.leases[a])
    requires forall b :: b in s.leases ==> b in s'.leases && s'.leases[b].resource == s.leases[b].resource
    ensures TokensKnown(s')
  {
    var l := s.leases[a];
    CallTokens(kind, s.nodes[n].leases, l.resource, a, w.configs[l.locker].leaseDuration as real, s.nodes[n].clock);
    forall m, key | m in s'.nodes && key in s'.nodes[m].leases
      ensures var b := s'.nodes[m].leases[key].token; b in s'.leases && s'.leases[b].resource == key
    {
      assert m != n ==> s'.nodes[m] == s.nodes[m];
    }
  }

  /** After a call, an entry carries the token it carried before, or it is the caller's. */
  lemma CallTokens(kind: OpKind, m: Leases, r: string, a: Token, ttl: real, now: real)
    ensures forall key :: key in CallOn(kind, m, r, a, ttl, now).0 ==>
              var t := CallOn(kind, m, r, a, ttl, now).0[key].token;
              (key in m && t == m[key].token) || (key == r && t == a)
  {
  }

  lemma StepInv(w: World, s: State, act: Action, s': State)
    requires Inv(w, s) && Next(w, s, act, s')
    ensures Inv(w, s')
  {
    match act
    case Begin(a, k, r) => BeginInv(w, s, a, k, r, s');
    case Act(a, la) => ActInv(w, s, a, la, s');
    case TakeEffect(a, n) => EffectInv(w, s, a, n, s');
    case Late(a, kind, n) => LateInv(w, s, a, kind, n, s');
    case Tick(dl, dn) => TickInv(w, s, dl, dn, s');
  }

  lemma {:induction false} RunInv(w: World, r: Run, i: nat)
    requires ValidWorld(w) && IsRun(w, r) && i < |r.states|
    ensures Inv(w, r.states[i])
  {
    if i == 0 {
      InitInv(w, r.states[0]);
    } else {
      RunInv(w, r, i - 1);
      StepInv(w, r.states[i - 1], r.actions[i - 1], r.states[i]);
    }
  }

  // ---- Main results ----

  /** While a lease is held, a quorum of nodes carries its token, and each of
      those entries still runs for at least the remaining validity scaled by 1/(1-f). */
  lemma HeldLeaseIsCovered(w: World, r: Run, i: nat, a: Token)
    requires ValidWorld(w) && IsRun(w, r) && i < |r.states| && Held(r.states[i], a)
    ensures var s := r.states[i]; var l := s.leases[a];
            l.locker in w.configs
            && var cover := CoverSet(w, s.nodes, l.resource, a, l.validUntil, s.clocks[l.locker],
                                     w.configs[l.locker].clockDriftFactor);
            Quorum(w) <= |cover| && forall n :: n in cover ==> Live(s.nodes[n].leases, l.resource, s.nodes[n].clock)
  {
    RunInv(w, r, i);
    var s := r.states[i];
    var l := s.leases[a];
    var f := w.configs[l.locker].clockDriftFactor;
    assert LeaseInv(w, s.nodes, s.clocks[l.locker], a, l);
    forall n | n in CoverSet(w, s.nodes, l.resource, a, l.validUntil, s.clocks[l.locker], f)
      ensures Live(s.nodes[n].leases, l.resource, s.nodes[n].clock)
    {
      CoverIsLive(s.nodes[n], l.resource, a, l.validUntil, s.clocks[l.locker], f);
    }
  }

  /** Mutual exclusion: in every state of every run, at most one attempt holds a resource. */
  lemma MutualExclusion(w: World, r: Run, i: nat, a: Token, b: Token)
    requires ValidWorld(w) && IsRun(w, r) && i < |r.states|
    requires Held(r.states[i], a) && Held(r.states[i], b)
    requires r.states[i].leases[a].resource == r.states[i].leases[b].resource
    ensures a == b
  {
    HeldLeaseIsCovered(w, r, i, a);
    HeldLeaseIsCovered(w, r, i, b);
    var s := r.states[i];
    var la, lb := s.leases[a], s.leases[b];
    var n := QuorumsMeet(w,
      CoverSet(w, s.nodes, la.resource, a, la.validUntil, s.clocks[la.locker], w.configs[la.locker].clockDriftFactor),
      CoverSet(w, s.nodes, lb.resource, b, lb.validUntil, s.clocks[lb.locker], w.configs[lb.locker].clockDriftFactor));
  }

  lemma StepKeepsValidity(w: World, s: State, act: Action, s': State, a: Token)
    requires Inv(w, s) && Next(w, s, act, s') && a in s.leases
    ensures a in s'.leases && s.leases[a].validUntil <= s'.leases[a].validUntil
  {
    if act.Act? && act.token == a {
      var l := s.leases[a];
      assert LeaseInv(w, s.nodes, s.clocks[l.locker], a, l);
      ActKeepsControl(w, Validity(w.configs[l.locker]), s.clocks[l.locker], l, act.act, s'.leases[a]);
    }
  }

  /** The validity of an attempt never moves back. */
  lemma {:induction false} ValidityNeverDecreases(w: World, r: Run, i: nat, j: nat, a: Token)
    requires ValidWorld(w) && IsRun(w, r) && i <= j < |r.states| && a in r.states[i].leases
    ensures a in r.states[j].leases && r.states[i].leases[a].validUntil <= r.states[j].leases[a].validUntil
  {
    if i < j {
      ValidityNeverDecreases(w, r, i, j - 1, a);
      RunInv(w, r, j - 1);
      StepKeepsValidity(w, r.states[j - 1], r.actions[j - 1], r.states[j], a);
    }
  }
}
