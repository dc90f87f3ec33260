/** The life of a lease, to show that the safety theorems are about something: in
    every world, with any majority of the nodes answering and the others silent, a
    lease is obtained as soon as the majority has granted it, renewed to a later
    validity, and released again. */
module LeaseWitness {
  import opened LeaseStore
  import opened LeaseProtocol

  /** One attempt `a` of locker `k`; the nodes `q` answer. */
  datatype Setup = Setup(w: World, k: LockerId, resource: string, a: Token, q: set<NodeId>)

  ghost predicate Ready(u: Setup) {
    && ValidWorld(u.w) && u.k in u.w.configs && 0.0 < Validity(u.w.configs[u.k])
    && u.resource != "" && u.a != [] && u.q <= u.w.nodes && |u.w.nodes| < 2 * |u.q|
  }

  /** Any majority of the nodes is a quorum, and nothing less is. */
  lemma MajorityIsQuorum(w: World, q: set<NodeId>)
    ensures Quorum(w) <= |q| <==> |w.nodes| < 2 * |q|
  {
  }

  /** The state in which the nodes `held` have the lease, with all node clocks at
      0 and all locker clocks at `t`. */
  ghost function Stage(u: Setup, held: set<NodeId>, t: real, l: Lease): State
    requires Ready(u)
  {
    State(map n | n in u.w.nodes :: NodeAt(u, n in held), map x | x in u.w.configs :: t, map[u.a := l])
  }

  ghost function NodeAt(u: Setup, has: bool): Node
    requires Ready(u)
  {
    Node(0.0, if has then map[u.resource := Entry(u.a, u.w.configs[u.k].leaseDuration as real)] else map[])
  }

  ghost predicate Fitting(u: Setup, l: Lease) {
    l.locker == u.k && l.resource == u.resource && (l.op.Round? ==> l.op.calls.Keys == u.w.nodes)
  }

  lemma Extend(w: World, r: Run, act: Action, s: State) returns (r': Run)
    requires IsRun(w, r) && Next(w, r.states[|r.states| - 1], act, s)
    ensures IsRun(w, r') && r'.states[|r'.states| - 1] == s && r.states <= r'.states
  {
    r' := Run(r.states + [s], r.actions + [act]);
  }

  /** The run is at the given stage. */
  ghost predicate IsAt(u: Setup, r: Run, held: set<NodeId>, t: real, l: Lease)
    requires Ready(u)
  {
    IsRun(u.w, r) && r.states[|r.states| - 1] == Stage(u, held, t, l)
  }

  // ---- Single steps ----

  lemma StageIsWellFormed(u: Setup, held: set<NodeId>, t: real, l: Lease)
    requires Ready(u) && Fitting(u, l)
    ensures WellFormed(u.w, Stage(u, held, t, l))
  {
  }

  lemma Move(u: Setup, r: Run, held: set<NodeId>, t: real, l: Lease, act: LeaseAction, l': Lease) returns (r': Run)
    requires Ready(u) && IsAt(u, r, held, t, l) && Fitting(u, l)
    requires LeaseStep(u.w, Validity(u.w.configs[u.k]), t, l, act, l')
    ensures IsAt(u, r', held, t, l') && r.states <= r'.states
  {
    var s, s' := Stage(u, held, t, l), Stage(u, held, t, l');
    StageIsWellFormed(u, held, t, l);
    assert s'.leases == s.leases[u.a := l'];
    r' := Extend(u.w, r, Act(u.a, act), s');
  }

  /** Who has the lease after node `n` granted a call. */
  function After(kind: OpKind, held: set<NodeId>, n: NodeId): set<NodeId> {
    if kind.ReleaseOp? then held - {n} else held + {n}
  }

  lemma EffectAt(u: Setup, kind: OpKind, l: Lease, has: bool)
    requires Ready(u) && Fitting(u, l) && (has <==> !kind.AcquireOp?)
    ensures Effect(u.w, kind, u.a, l, NodeAt(u, has)) == (NodeAt(u, !kind.ReleaseOp?).leases, true)
  {
    var d := u.w.configs[u.k].leaseDuration as real;
    var none: Leases := map[];
    assert none[u.resource := Entry(u.a, 0.0 + d)] == map[u.resource := Entry(u.a, d)];
    var one: Leases := map[u.resource := Entry(u.a, d)];
    assert one[u.resource := Entry(u.a, 0.0 + d)] == one && one - {u.resource} == none;
  }

  lemma TakesEffect(u: Setup, r: Run, held: set<NodeId>, t: real, l: Lease, n: NodeId) returns (r': Run)
    requires Ready(u) && IsAt(u, r, held, t, l) && Fitting(u, l)
    requires l.op.Round? && n in u.w.nodes && l.op.calls[n].Pending? && (n in held <==> !l.op.kind.AcquireOp?)
    ensures IsAt(u, r', After(l.op.kind, held, n), t, SetCall(l, n, Applied(true))) && r.states <= r'.states
  {
    var l' := SetCall(l, n, Applied(true));
    var s, s' := Stage(u, held, t, l), Stage(u, After(l.op.kind, held, n), t, l');
    StageIsWellFormed(u, held, t, l);
    EffectAt(u, l.op.kind, l, n in held);
    assert s'.leases == s.leases[u.a := l'];
    assert s'.nodes == Affected(u.w, s.nodes, n, l.op.kind, u.a, l);
    r' := Extend(u.w, r, TakeEffect(u.a, n), s');
  }

  // ---- Rounds ----

  function Answer(l: Lease, q: set<NodeId>, c: Call): Lease
    requires l.op.Round?
  {
    l.(op := l.op.(calls := map n | n in l.op.calls :: if n in q then c else l.op.calls[n]))
  }

  lemma AnswerOneMore(l: Lease, q: set<NodeId>, n: NodeId, c: Call)
    requires l.op.Round? && n in l.op.calls
    ensures Answer(SetCall(l, n, c), q, c) == Answer(l, q + {n}, c)
    ensures Answer(l, {}, c) == l
  {
    assert Answer(SetCall(l, n, c), q, c).op.calls == Answer(l, q + {n}, c).op.calls;
    assert Answer(l, {}, c).op.calls == l.op.calls;
  }

  /** One node is called, grants the call and answers. */
  lemma CallOne(u: Setup, r: Run, held: set<NodeId>, t: real, l: Lease, n: NodeId) returns (r': Run)
    requires Ready(u) && IsAt(u, r, held, t, l) && Fitting(u, l)
    requires l.op.Round? && n in u.w.nodes && l.op.calls[n].NotInvoked? && (n in held <==> !l.op.kind.AcquireOp?)
    requires l.op.kind.ReleaseOp? || ContextLive(l, t)
    ensures IsAt(u, r', After(l.op.kind, held, n), t, SetCall(l, n, Returned(Replied(true)))) && r.states <= r'.states
  {
    var out := SetCall(l, n, Pending);
    r' := Move(u, r, held, t, l, Invoke(n), out);
    r' := TakesEffect(u, r', held, t, out, n);
    var applied, answered := SetCall(out, n, Applied(true)), SetCall(l, n, Returned(Replied(true)));
    assert SetCall(applied, n, Returned(Replied(true))).op.calls == answered.op.calls;
    r' := Move(u, r', After(l.op.kind, held, n), t, applied, Answered(n), answered);
  }

  function AfterAll(kind: OpKind, held: set<NodeId>, q: set<NodeId>): set<NodeId> {
    if kind.ReleaseOp? then held - q else held + q
  }

  /** The nodes `q` have not been called and are in a state to grant the call. */
  ghost predicate Callable(l: Lease, held: set<NodeId>, q: set<NodeId>) {
    && l.op.Round? && q <= l.op.calls.Keys
    && forall n :: n in q ==> l.op.calls[n].NotInvoked? && (n in held <==> !l.op.kind.AcquireOp?)
  }

  lemma CallableRest(l: Lease, held: set<NodeId>, q: set<NodeId>, n: NodeId, c: Call)
    requires Callable(l, held, q) && n in q
    ensures Callable(SetCall(l, n, c), After(l.op.kind, held, n), q - {n})
  {
  }

  lemma AfterOneMore(kind: OpKind, held: set<NodeId>, q: set<NodeId>, n: NodeId)
    requires n in q
    ensures AfterAll(kind, After(kind, held, n), q - {n}) == AfterAll(kind, held, q) && q - {n} + {n} == q
    ensures AfterAll(kind, held, {}) == held
  {
  }

  /** All of `q` are called, grant the call and answer. */
  lemma {:induction false} CallMany(u: Setup, r: Run, held: set<NodeId>, t: real, l: Lease, q: set<NodeId>)
    returns (r': Run)
    requires Ready(u) && IsAt(u, r, held, t, l) && Fitting(u, l) && Callable(l, held, q)
    requires l.op.kind.ReleaseOp? || ContextLive(l, t)
    ensures IsAt(u, r', AfterAll(l.op.kind, held, q), t, Answer(l, q, Returned(Replied(true))))
    ensures r.states <= r'.states
    decreases q
  {
    if q == {} {
      r' := r;
      assert AfterAll(l.op.kind, held, q) == held;
      assert Answer(l, q, Returned(Replied(true))).op.calls == l.op.calls;
    } else {
      var n :| n in q;
      var c := Returned(Replied(true));
      r' := CallOne(u, r, held, t, l, n);
      CallableRest(l, held, q, n, c);
      r' := CallMany(u, r', After(l.op.kind, held, n), t, SetCall(l, n, c), q - {n});
      AnswerOneMore(l, q - {n}, n, c);
      AfterOneMore(l.op.kind, held, q, n);
    }
  }

  /** None of `q` answers. */
  lemma {:induction false} FailMany(u: Setup, r: Run, held: set<NodeId>, t: real, l: Lease, q: set<NodeId>)
    returns (r': Run)
    requires Ready(u) && IsAt(u, r, held, t, l) && Fitting(u, l) && l.op.Round? && q <= u.w.nodes
    requires forall n :: n in q ==> l.op.calls[n].NotInvoked?
    ensures IsAt(u, r', held, t, Answer(l, q, Returned(Unknown))) && r.states <= r'.states
    decreases q
  {
    if q == {} {
      r' := r;
      assert Answer(l, q, Returned(Unknown)).op.calls == l.op.calls;
    } else {
      var n :| n in q;
      var rest := q - {n};
      r' := Move(u, r, held, t, l, CallFails(n), SetCall(l, n, Returned(Unknown)));
      r' := FailMany(u, r', held, t, SetCall(l, n, Returned(Unknown)), rest);
      AnswerOneMore(l, rest, n, Returned(Unknown));
      assert rest + {n} == q;
    }
  }

  /** A round in which exactly the nodes `q` succeed is a quorum of successes. */
  lemma RoundSucceeds(u: Setup, l: Lease)
    requires Ready(u) && l.op.Round? && l.op.calls == AllNotInvoked(u.w)
    ensures var l' := Answer(l, u.q, Returned(Replied(true)));
            && Successes(l'.op.calls) == u.q && Quorum(u.w) <= |u.q|
            && var l'' := Answer(l', u.w.nodes - u.q, Returned(Unknown));
               AllReturned(l''.op.calls) && Successes(l''.op.calls) == u.q
  {
    MajorityIsQuorum(u.w, u.q);
  }

  // ---- The life of a lease ----

  function Begun(u: Setup): Lease
    requires u.k in u.w.configs
  {
    NewLease(u.w.configs[u.k], u.k, u.resource, 0.0)
  }

  function InRound(u: Setup, l: Lease, kind: OpKind, t: real): Lease {
    l.(op := Round(kind, t, AllNotInvoked(u.w)))
  }

  lemma Starts(u: Setup) returns (r: Run)
    requires Ready(u)
    ensures IsAt(u, r, {}, 0.0, Begun(u))
  {
    var s0 := Stage(u, {}, 0.0, Begun(u)).(leases := map[]);
    assert NodeAt(u, false).leases == map[];
    var s1 := Stage(u, {}, 0.0, Begun(u));
    assert s1.leases == s0.leases[u.a := Begun(u)];
    r := Extend(u.w, Run([s0], []), Begin(u.a, u.k, u.resource), s1);
  }

  /** The lease just after it was obtained: the majority has answered, the others have not been heard of. */
  function Obtained(u: Setup): Lease
    requires u.k in u.w.configs
  {
    var l := InRound(u, Begun(u).(acquireStarted := true), AcquireOp, 0.0);
    Answer(l, u.q, Returned(Replied(true))).(reported := true, phase := Holding)
  }

  /** Obtained, as soon as a majority has granted it, whatever the other nodes do. */
  lemma Obtains(u: Setup) returns (r: Run)
    requires Ready(u)
    ensures IsAt(u, r, u.q, 0.0, Obtained(u))
  {
    r := Starts(u);
    var l := InRound(u, Begun(u).(acquireStarted := true), AcquireOp, 0.0);
    r := Move(u, r, {}, 0.0, Begun(u), LockForAcquire, l);
    r := CallMany(u, r, {}, 0.0, l, u.q);
    assert AfterAll(AcquireOp, {}, u.q) == u.q;
    var answered := Answer(l, u.q, Returned(Replied(true)));
    RoundSucceeds(u, l);
    r := Move(u, r, u.q, 0.0, answered, ReportQuorum, answered.(reported := true));
    r := Move(u, r, u.q, 0.0, answered.(reported := true), Obtain, Obtained(u));
  }

  /** The lease at rest, with the given validity. */
  function Resting(u: Setup, until: real): Lease
    requires u.k in u.w.configs
  {
    Begun(u).(acquireStarted := true, reported := true, phase := Holding, validUntil := until)
  }

  lemma Settles(u: Setup, r0: Run) returns (r: Run)
    requires Ready(u) && IsAt(u, r0, u.q, 0.0, Obtained(u))
    ensures IsAt(u, r, u.q, 0.0, Resting(u, Validity(u.w.configs[u.k]))) && r0.states <= r.states
  {
    var l := Obtained(u);
    RoundSucceeds(u, InRound(u, Begun(u).(acquireStarted := true), AcquireOp, 0.0));
    r := FailMany(u, r0, u.q, 0.0, l, u.w.nodes - u.q);
    var done := Answer(l, u.w.nodes - u.q, Returned(Unknown));
    r := Move(u, r, u.q, 0.0, done, FinishAcquire, done.(op := Idle));
    assert done.(op := Idle) == Resting(u, Validity(u.w.configs[u.k]));
  }

  /** Time passes for the lockers. */
  lemma Waits(u: Setup, r0: Run, t: real, l: Lease) returns (r: Run)
    requires Ready(u) && IsAt(u, r0, u.q, 0.0, l) && Fitting(u, l) && 0.0 <= t
    ensures IsAt(u, r, u.q, t, l) && r0.states <= r.states
  {
    var dl, dn := map x | x in u.w.configs :: t, map n | n in u.w.nodes :: 0.0;
    var s, s' := Stage(u, u.q, 0.0, l), Stage(u, u.q, t, l);
    StageIsWellFormed(u, u.q, 0.0, l);
    assert s'.clocks == (map x | x in s.clocks :: s.clocks[x] + dl[x]);
    assert s'.nodes == AdvanceNodes(s.nodes, dn);
    r := Extend(u.w, r0, Tick(dl, dn), s');
  }

  /** A round in which the nodes `q` grant the call and the others stay silent. */
  lemma WholeRound(u: Setup, r0: Run, held: set<NodeId>, t: real, l: Lease) returns (r: Run, done: Lease)
    requires Ready(u) && IsAt(u, r0, held, t, l) && Fitting(u, l) && l.op.Round? && l.op.calls == AllNotInvoked(u.w)
    requires held == (if l.op.kind.AcquireOp? then {} else u.q) && (l.op.kind.ReleaseOp? || ContextLive(l, t))
    ensures IsAt(u, r, if l.op.kind.ReleaseOp? then {} else u.q, t, done) && r0.states <= r.states
    ensures done.op.Round? && done == l.(op := l.op.(calls := done.op.calls)) && done.op.calls.Keys == u.w.nodes
    ensures AllReturned(done.op.calls) && Quorum(u.w) <= |Successes(done.op.calls)|
  {
    r := CallMany(u, r0, held, t, l, u.q);
    assert AfterAll(l.op.kind, held, u.q) == if l.op.kind.ReleaseOp? then {} else u.q;
    RoundSucceeds(u, l);
    var answered := Answer(l, u.q, Returned(Replied(true)));
    r := FailMany(u, r, if l.op.kind.ReleaseOp? then {} else u.q, t, answered, u.w.nodes - u.q);
    done := Answer(answered, u.w.nodes - u.q, Returned(Unknown));
  }

  lemma RenewRound(u: Setup, r0: Run, t: real, l: Lease) returns (r: Run)
    requires Ready(u) && IsAt(u, r0, u.q, t, l) && Fitting(u, l) && l.phase == Renewing(WaitLock) && l.op.Idle?
    requires ContextLive(l, t)
    ensures IsAt(u, r, u.q, t, l.(phase := Renewing(Renewed(t + Validity(u.w.configs[u.k])))))
    ensures r0.states <= r.states
  {
    var running := InRound(u, l.(phase := Renewing(Running)), RenewOp, t);
    r := Move(u, r0, u.q, t, l, LockForRenew, running);
    var done: Lease;
    r, done := WholeRound(u, r, u.q, t, running);
    r := Move(u, r, u.q, t, done, RenewSucceeds, l.(phase := Renewing(Renewed(t + Validity(u.w.configs[u.k])))));
  }

  lemma Renews(u: Setup, r0: Run, t: real, until: real) returns (r: Run)
    requires Ready(u) && IsAt(u, r0, u.q, t, Resting(u, until)) && t < until
    ensures IsAt(u, r, u.q, t, Resting(u, t + Validity(u.w.configs[u.k]))) && r0.states <= r.states
  {
    var l, v := Resting(u, until), Validity(u.w.configs[u.k]);
    r := Move(u, r0, u.q, t, l, TimerFires, l.(phase := Renewing(WaitLock)));
    r := RenewRound(u, r, t, l.(phase := Renewing(WaitLock)));
    r := Move(u, r, u.q, t, l.(phase := Renewing(Renewed(t + v))), Adopt, Resting(u, t + v));
  }

  lemma Releases(u: Setup, r0: Run, t: real, until: real) returns (r: Run, l: Lease)
    requires Ready(u) && IsAt(u, r0, u.q, t, Resting(u, until))
    ensures IsAt(u, r, {}, t, l) && l.op.Idle? && l.phase.Ended? && r0.states <= r.states
  {
    l := Resting(u, until);
    r := Move(u, r0, u.q, t, l, Cancel, l.(cancelled := true));
    var ended := l.(cancelled := true, phase := Ended);
    r := Move(u, r, u.q, t, l.(cancelled := true), StopRenewing, ended);
    var round := InRound(u, ended, ReleaseOp, t);
    r := Move(u, r, u.q, t, ended, LockForRelease, round);
    var done: Lease;
    r, done := WholeRound(u, r, u.q, t, round);
    r := Move(u, r, {}, t, done, FinishRelease, ended);
    l := ended;
  }

  // ---- Main results ----

  lemma RestingIsHeld(u: Setup, t: real, until: real)
    requires Ready(u) && t < until
    ensures Held(Stage(u, u.q, t, Resting(u, until)), u.a)
  {
  }

  /** The node has not been called by the current round. */
  ghost predicate Unheard(l: Lease, n: NodeId) {
    l.op.Round? && n in l.op.calls && l.op.calls[n].NotInvoked?
  }

  ghost predicate EmptyNodes(s: State) {
    forall n :: n in s.nodes ==> s.nodes[n].leases == map[]
  }

  /** A lease can be held when any majority of the nodes grants it, and no other node is ever heard of. */
  lemma LeaseCanBeHeld(u: Setup) returns (r: Run)
    requires Ready(u)
    ensures IsRun(u.w, r) && Held(r.states[|r.states| - 1], u.a)
    ensures forall n :: n in u.w.nodes - u.q ==> Unheard(r.states[|r.states| - 1].leases[u.a], n)
  {
    r := Obtains(u);
  }

  /** A held lease can be renewed at any time of its validity: it is held before
      and after, and its validity then counts from the renewal. */
  lemma LeaseCanBeRenewed(u: Setup, t: real) returns (r: Run, i: nat)
    requires Ready(u) && 0.0 < t < Validity(u.w.configs[u.k])
    ensures IsRun(u.w, r) && i < |r.states| - 1
    ensures Held(r.states[i], u.a) && Held(r.states[|r.states| - 1], u.a)
    ensures r.states[|r.states| - 1].leases[u.a].validUntil == r.states[i].leases[u.a].validUntil + t
  {
    var v := Validity(u.w.configs[u.k]);
    var r0 := Obtains(u);
    r0 := Settles(u, r0);
    i := |r0.states| - 1;
    RestingIsHeld(u, 0.0, v);
    r := Waits(u, r0, t, Resting(u, v));
    r := Renews(u, r, t, v);
    RestingIsHeld(u, t, t + v);
    assert r.states[i] == r0.states[i];
    assert r.states[|r.states| - 1] != r.states[i];
  }

  /** A held lease can be given up, and then no node has it. */
  lemma LeaseCanBeReleased(u: Setup) returns (r: Run, i: nat)
    requires Ready(u)
    ensures IsRun(u.w, r) && i < |r.states| && Held(r.states[i], u.a)
    ensures EmptyNodes(r.states[|r.states| - 1])
  {
    var v := Validity(u.w.configs[u.k]);
    var r0 := Obtains(u);
    r0 := Settles(u, r0);
    i := |r0.states| - 1;
    RestingIsHeld(u, 0.0, v);
    var l: Lease;
    r, l := Releases(u, r0, 0.0, v);
    assert r.states[i] == r0.states[i];
  }
}
