/** The quorum lease protocol as a transition system.

    Every node has a clock and a lease table; every locker has a clock; every
    lease attempt has a token of its own. A run interleaves, in any order, the
    steps of all attempts, the moments at which pending calls take effect on
    nodes, in time or long after their caller gave them up, and the passing of time.
 */
module LeaseProtocol {
  import opened LeaseStore

  type NodeId = nat
  type LockerId = nat

  datatype Config = Config(leaseDuration: int, clockDriftFactor: real)

  predicate ValidConfig(c: Config) {
    0 < c.leaseDuration && 0.0 < c.clockDriftFactor < 1.0
  }

  function Ceil(x: real): (r: int)
    ensures r as real - 1.0 < x <= r as real
  {
    -((-x).Floor)
  }

  /** The part of a lease's duration given up to differing clock rates. */
  function ClockDrift(c: Config): int {
    Ceil(c.leaseDuration as real * c.clockDriftFactor)
  }

  /** How long, on the locker's clock, a lease may be relied on. */
  function Validity(c: Config): real {
    (c.leaseDuration - ClockDrift(c)) as real
  }

  /** The nodes of the lock group and the configuration of each locker. */
  datatype World = World(nodes: set<NodeId>, configs: map<LockerId, Config>)

  ghost predicate ValidWorld(w: World) {
    w.nodes != {} && forall k :: k in w.configs ==> ValidConfig(w.configs[k])
  }

  function Quorum(w: World): nat {
    |w.nodes| / 2 + 1
  }

  /** One call to one node. `Applied` is a call that took effect and whose answer
      is still on its way. `Returned(Unknown)` is an error: the call may have taken
      effect or not, and it may still land later. */
  datatype Call = NotInvoked | Pending | Applied(success: bool) | Returned(answer: Answer)
  datatype Answer = Unknown | Replied(success: bool)

  datatype OpKind = AcquireOp | RenewOp | ReleaseOp

  /** What the holder of the lease's operation mutex is doing. */
  datatype Operation = Idle | Round(kind: OpKind, startedAt: real, calls: map<NodeId, Call>)

  datatype RenewStage = WaitLock | Running | Renewed(until: real) | RenewFailed

  /** Control state of the goroutine that owns the lease: inside acquire, in
      the renewal loop, inside renew, or finished. */
  datatype Phase = Acquiring | Holding | Renewing(stage: RenewStage) | Ended

  datatype Lease = Lease(
    locker: LockerId,
    resource: string,
    startedAt: real,
    validUntil: real,
    phase: Phase,
    cancelled: bool,
    acquireStarted: bool,
    reported: bool,
    op: Operation)

  datatype Node = Node(clock: real, leases: Leases)

  datatype State = State(nodes: map<NodeId, Node>, clocks: map<LockerId, real>, leases: map<Token, Lease>)

  datatype LeaseAction =
    | LockForAcquire
    | Invoke(n: NodeId)
    | Answered(n: NodeId)
    | CallFails(n: NodeId)
    | ReportQuorum
    | FinishAcquire
    | Obtain
    | GiveUp
    | TimerFires
    | LockForRenew
    | RetryRenew
    | RenewSucceeds
    | RenewStops
    | Adopt
    | LoseLease
    | StopRenewing
    | Cancel
    | LockForRelease
    | FinishRelease

  datatype Action =
    | Begin(token: Token, locker: LockerId, resource: string)
    | Act(token: Token, act: LeaseAction)
    | TakeEffect(token: Token, n: NodeId)
    | Late(token: Token, kind: OpKind, n: NodeId)
    | Tick(lockers: map<LockerId, real>, nodes: map<NodeId, real>)

  function AllNotInvoked(w: World): map<NodeId, Call> {
    map n | n in w.nodes :: NotInvoked
  }

  ghost predicate AllReturned(calls: map<NodeId, Call>) {
    forall n :: n in calls ==> calls[n].Returned?
  }

  /** The nodes that took the call, whether or not the answer has arrived. */
  ghost function Takers(calls: map<NodeId, Call>): set<NodeId> {
    set n | n in calls && (calls[n] == Applied(true) || calls[n] == Returned(Replied(true)))
  }

  /** The nodes counted as successes. */
  ghost function Successes(calls: map<NodeId, Call>): set<NodeId> {
    set n | n in calls && calls[n] == Returned(Replied(true))
  }

  /** The context of acquire and renew calls: the lease's own, with the current
      validity as deadline. */
  predicate ContextLive(l: Lease, clock: real) {
    !l.cancelled && clock < l.validUntil
  }

  function SetCall(l: Lease, n: NodeId, c: Call): Lease
    requires l.op.Round?
  {
    l.(op := l.op.(calls := l.op.calls[n := c]))
  }

  /** A step of one lease that touches no node. `v` is the locker's validity. */
  ghost predicate LeaseStep(w: World, v: real, clock: real, l: Lease, act: LeaseAction, l': Lease) {
    match act
    // The acquiring goroutine takes the mutex, however late: a release may have had it before.
    case LockForAcquire =>
      l.op.Idle? && !l.acquireStarted
      && l' == l.(acquireStarted := true, op := Round(AcquireOp, l.startedAt, AllNotInvoked(w)))
    // A call goes out only while its context is live; the context of a release is the caller's.
    case Invoke(n) =>
      l.op.Round? && n in l.op.calls && l.op.calls[n].NotInvoked?
      && (l.op.kind.ReleaseOp? || ContextLive(l, clock))
      && l' == SetCall(l, n, Pending)
    case Answered(n) =>
      l.op.Round? && n in l.op.calls && l.op.calls[n].Applied?
      && l' == SetCall(l, n, Returned(Replied(l.op.calls[n].success)))
    // Timeout, cancellation or a lost answer, before or after the call took effect.
    case CallFails(n) =>
      l.op.Round? && n in l.op.calls && !l.op.calls[n].Returned?
      && l' == SetCall(l, n, Returned(Unknown))
    case ReportQuorum =>
      l.op.Round? && l.op.kind.AcquireOp? && Quorum(w) <= |Successes(l.op.calls)|
      && l' == l.(reported := true)
    case FinishAcquire =>
      l.op.Round? && l.op.kind.AcquireOp? && AllReturned(l.op.calls)
      && (Quorum(w) <= |Successes(l.op.calls)| ==> l.reported)
      && l' == l.(op := Idle)
    case Obtain =>
      l.phase.Acquiring? && l.reported && clock < l.validUntil
      && l' == l.(phase := Holding)
    case GiveUp =>
      l.phase.Acquiring? && l' == l.(phase := Ended, cancelled := true)
    case TimerFires =>
      l.phase.Holding? && l' == l.(phase := Renewing(WaitLock))
    case LockForRenew =>
      l.phase == Renewing(WaitLock) && l.op.Idle?
      && l' == (if ContextLive(l, clock)
                then l.(phase := Renewing(Running), op := Round(RenewOp, clock, AllNotInvoked(w)))
                else l.(phase := Renewing(RenewFailed)))
    case RetryRenew =>
      l.op.Round? && l.op.kind.RenewOp? && AllReturned(l.op.calls) && ContextLive(l, clock)
      && |Successes(l.op.calls)| < Quorum(w)
      && l' == l.(op := Round(RenewOp, clock, AllNotInvoked(w)))
    case RenewSucceeds =>
      l.op.Round? && l.op.kind.RenewOp? && AllReturned(l.op.calls) && ContextLive(l, clock)
      && Quorum(w) <= |Successes(l.op.calls)| && l.phase == Renewing(Running)
      && l' == l.(op := Idle, phase := Renewing(Renewed(l.op.startedAt + v)))
    case RenewStops =>
      l.op.Round? && l.op.kind.RenewOp? && AllReturned(l.op.calls)
      && (|Successes(l.op.calls)| < Quorum(w) || !ContextLive(l, clock))
      && l' == l.(op := Idle, phase := if l.phase == Renewing(Running) then Renewing(RenewFailed) else l.phase)
    // The result may be picked up late, even after the old validity has passed.
    case Adopt =>
      l.phase.Renewing? && l.phase.stage.Renewed?
      && l' == l.(validUntil := l.phase.stage.until, phase := Holding)
    case LoseLease =>
      ((l.phase.Holding? && l.validUntil <= clock)
       || l.phase == Renewing(RenewFailed) || (l.phase.Renewing? && !ContextLive(l, clock)))
      && l' == l.(phase := Ended, cancelled := true)
    case StopRenewing =>
      (l.phase.Holding? || l.phase.Renewing?) && l.cancelled && l' == l.(phase := Ended)
    // The caller's Release cancels first and removes the lease from the nodes later.
    case Cancel =>
      !l.phase.Acquiring? && l' == l.(cancelled := true)
    case LockForRelease =>
      l.phase.Ended? && l.op.Idle?
      && l' == l.(op := Round(ReleaseOp, clock, AllNotInvoked(w)))
    case FinishRelease =>
      l.op.Round? && l.op.kind.ReleaseOp? && AllReturned(l.op.calls) && l' == l.(op := Idle)
  }

  /** What a pending call of the lease does to one node. */
  function CallOn(kind: OpKind, m: Leases, resource: string, token: Token, ttl: real, now: real): (Leases, bool) {
    match kind
    case AcquireOp => AcquireOn(m, resource, token, ttl, now)
    case RenewOp => RenewOn(m, resource, token, ttl, now)
    case ReleaseOp => ReleaseOn(m, resource, token, now)
  }

  function NewLease(c: Config, locker: LockerId, resource: string, now: real): Lease {
    Lease(locker, resource, now, now + Validity(c), Acquiring, false, false, false, Idle)
  }

  /** Every clock moves forward, and no node's clock runs more than 1/(1-f)
      times as fast as the clock of a locker whose drift factor is f. */
  ghost predicate ClocksAdvance(w: World, lockers: map<LockerId, real>, nodes: map<NodeId, real>) {
    && lockers.Keys == w.configs.Keys && nodes.Keys == w.nodes
    && (forall k :: k in lockers ==> 0.0 <= lockers[k])
    && (forall n :: n in nodes ==> 0.0 <= nodes[n])
    && (forall k :: k in lockers ==> RatesBounded(w.configs[k].clockDriftFactor, lockers[k], nodes))
  }

  /** While the locker's clock advances by `dl`, no node's clock advances by more than dl/(1-f). */
  ghost predicate RatesBounded(f: real, dl: real, dn: map<NodeId, real>) {
    forall n :: n in dn ==> (1.0 - f) * dn[n] <= dl
  }

  /** State maps have the shape the world prescribes. */
  ghost predicate WellFormed(w: World, s: State) {
    && s.nodes.Keys == w.nodes && s.clocks.Keys == w.configs.Keys
    && (forall a :: a in s.leases ==> s.leases[a].locker in w.configs)
    && (forall a :: a in s.leases && s.leases[a].op.Round? ==> s.leases[a].op.calls.Keys == w.nodes)
  }

  ghost predicate BeginStep(w: World, s: State, a: Token, k: LockerId, r: string, s': State)
    requires WellFormed(w, s)
  {
    // Tokens are unique per attempt.
    a !in s.leases && a != [] && r != "" && k in w.configs
    && s' == s.(leases := s.leases[a := NewLease(w.configs[k], k, r, s.clocks[k])])
  }

  ghost predicate ActStep(w: World, s: State, a: Token, act: LeaseAction, s': State)
    requires WellFormed(w, s)
  {
    a in s.leases && s'.nodes == s.nodes && s'.clocks == s.clocks
    && a in s'.leases && s'.leases == s.leases[a := s'.leases[a]]
    && LeaseStep(w, Validity(w.configs[s.leases[a].locker]), s.clocks[s.leases[a].locker],
                 s.leases[a], act, s'.leases[a])
  }

  /** What a call of `l`, whose token is `a`, does to the node. */
  function Effect(w: World, kind: OpKind, a: Token, l: Lease, node: Node): (Leases, bool)
    requires l.locker in w.configs
  {
    CallOn(kind, node.leases, l.resource, a, w.configs[l.locker].leaseDuration as real, node.clock)
  }

  /** The nodes after such a call took effect on one of them. */
  function Affected(w: World, nodes: map<NodeId, Node>, n: NodeId, kind: OpKind, a: Token, l: Lease): map<NodeId, Node>
    requires n in nodes && l.locker in w.configs
  {
    nodes[n := nodes[n].(leases := Effect(w, kind, a, l, nodes[n]).0)]
  }

  ghost predicate EffectStep(w: World, s: State, a: Token, n: NodeId, s': State)
    requires WellFormed(w, s)
  {
    a in s.leases && s.leases[a].op.Round? && n in w.nodes && s.leases[a].op.calls[n].Pending?
    && var l := s.leases[a];
       s' == s.(nodes := Affected(w, s.nodes, n, l.op.kind, a, l),
                leases := s.leases[a := SetCall(l, n, Applied(Effect(w, l.op.kind, a, l, s.nodes[n]).1))])
  }

  /** A call that its caller has given up lands on the node after all. Nothing is
      known of when, or how often: any acquire or renew of an attempt that has
      begun, and any release of one that has ended. */
  ghost predicate LateStep(w: World, s: State, a: Token, kind: OpKind, n: NodeId, s': State)
    requires WellFormed(w, s)
  {
    a in s.leases && n in w.nodes && (kind.ReleaseOp? ==> s.leases[a].phase.Ended?)
    && s' == s.(nodes := Affected(w, s.nodes, n, kind, a, s.leases[a]))
  }

  function AdvanceNodes(nodes: map<NodeId, Node>, dn: map<NodeId, real>): map<NodeId, Node>
    requires nodes.Keys == dn.Keys
  {
    map n | n in nodes :: nodes[n].(clock := nodes[n].clock + dn[n])
  }

  ghost predicate TickStep(w: World, s: State, dl: map<LockerId, real>, dn: map<NodeId, real>, s': State)
    requires WellFormed(w, s)
  {
    ClocksAdvance(w, dl, dn) && s'.leases == s.leases
    && s'.clocks == (map k | k in s.clocks :: s.clocks[k] + dl[k])
    && s'.nodes == AdvanceNodes(s.nodes, dn)
  }

  ghost predicate Next(w: World, s: State, act: Action, s': State) {
    WellFormed(w, s) &&
    match act
    case Begin(a, k, r) => BeginStep(w, s, a, k, r, s')
    case Act(a, la) => ActStep(w, s, a, la, s')
    case TakeEffect(a, n) => EffectStep(w, s, a, n, s')
    case Late(a, kind, n) => LateStep(w, s, a, kind, n, s')
    case Tick(dl, dn) => TickStep(w, s, dl, dn, s')
  }

  ghost predicate Init(w: World, s: State) {
    WellFormed(w, s) && s.leases == map[] && forall n :: n in s.nodes ==> s.nodes[n].leases == map[]
  }

  /** States and the actions between them. */
  datatype Run = Run(states: seq<State>, actions: seq<Action>)

  ghost predicate IsRun(w: World, r: Run) {
    && |r.states| == |r.actions| + 1
    && Init(w, r.states[0])
    && (forall i :: 0 <= i < |r.actions| ==> Next(w, r.states[i], r.actions[i], r.states[i + 1]))
  }

  /** The caller may do protected work: acquire has returned the lease, its
      context is not cancelled, and its validity has not passed. */
  ghost predicate Held(s: State, a: Token) {
    && a in s.leases && s.leases[a].locker in s.clocks
    && (s.leases[a].phase.Holding? || s.leases[a].phase.Renewing?)
    && ContextLive(s.leases[a], s.clocks[s.leases[a].locker])
  }
}
