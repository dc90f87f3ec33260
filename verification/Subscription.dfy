/** A change-stream subscription: the goroutine that checks every change ID
    against the last one and resubscribes from there after any error. */
module Subscription {

  const MODULUS: nat := 0x1_0000_0000_0000_0000

  /** Change IDs are 64-bit. */
  type ChangeId = n: nat | n < 0x1_0000_0000_0000_0000

  datatype Change = Change(id: ChangeId, payload: string)

  /** What one decode gives. */
  datatype Decoded = DecodeError | QueryError | NotAChange | Got(change: Change)

  /** What happens to the goroutine next. `sent` says whether the consumer took
      the change before the context was done. */
  datatype Input = Decode(d: Decoded, sent: bool) | ContextDone | Resubscribe(attempts: seq<Attempt>)

  /** One attempt to resubscribe; a subscription that no longer exists ends the retries. */
  datatype Attempt = Accepted | NotFound | Failed

  datatype Phase = Reading | Resubscribing | Closed(failed: bool)

  /** `requests` is the history of the change IDs resubscribed from; `base` is
      where the current connection started and `received` how many changes it gave. */
  datatype State = State(
    lastChangeID: ChangeId,
    delivered: seq<Change>,
    phase: Phase,
    requests: seq<ChangeId>,
    base: ChangeId,
    received: nat)

  function Next(id: ChangeId): ChangeId {
    (id + 1) % MODULUS
  }

  /** A change is accepted if it follows the last one, or if no last one is known. */
  predicate Follows(last: ChangeId, d: Decoded) {
    d.Got? && (last == 0 || d.change.id == Next(last))
  }

  /** Retrying gives a connection if some attempt is accepted and none before it found the subscription gone. */
  function Retried(attempts: seq<Attempt>): bool {
    attempts != [] && (attempts[0].Accepted? || (attempts[0].Failed? && Retried(attempts[1..])))
  }

  function Step(s: State, canResubscribe: bool, i: Input): State {
    match (s.phase, i)
    case (Reading, ContextDone) => s.(phase := Closed(false))
    case (Reading, Decode(d, sent)) =>
      var t := if d.Got? then s.(received := s.received + 1) else s;
      if Follows(s.lastChangeID, d) then
        if sent then t.(lastChangeID := d.change.id, delivered := s.delivered + [d.change])
        else t.(lastChangeID := d.change.id, phase := Closed(false))
      else if canResubscribe then t.(phase := Resubscribing, requests := s.requests + [s.lastChangeID])
      else t.(phase := Closed(true))
    case (Resubscribing, Resubscribe(attempts)) =>
      if Retried(attempts) then s.(phase := Reading, base := s.lastChangeID, received := 0)
      else s.(phase := Closed(true))
    case _ => s
  }

  function Run(s: State, canResubscribe: bool, inputs: seq<Input>): State {
    if inputs == [] then s
    else Step(Run(s, canResubscribe, inputs[..|inputs| - 1]), canResubscribe, inputs[|inputs| - 1])
  }

  function Start(c: ChangeId): State {
    State(c, [], Reading, [], c, 0)
  }

  // ---- The object ----

  class Subscriber {
    var lastChangeID: ChangeId
    var delivered: seq<Change>
    var phase: Phase
    var requests: seq<ChangeId>
    var base: ChangeId
    var received: nat
    const canResubscribe: bool

    function Model(): State
      reads this
    {
      State(lastChangeID, delivered, phase, requests, base, received)
    }

    /** `c` is the change ID of the consumed snapshot. */
    constructor (c: ChangeId, resubscribe: bool)
      ensures Model() == Start(c) && canResubscribe == resubscribe
    {
      lastChangeID, delivered, phase, requests, base, received := c, [], Reading, [], c, 0;
      canResubscribe := resubscribe;
    }

    method HandleChangeEvents(inputs: seq<Input>)
      modifies this
      ensures Model() == Run(old(Model()), canResubscribe, inputs)
    {
      for i := 0 to |inputs|
        invariant Model() == Run(old(Model()), canResubscribe, inputs[..i])
      {
        assert inputs[..i + 1][..i] == inputs[..i];
        HandleOne(inputs[i]);
      }
      assert inputs[..|inputs|] == inputs;
    }

    method HandleOne(input: Input)
      modifies this
      ensures Model() == Step(old(Model()), canResubscribe, input)
    {
      if phase.Reading? && input.ContextDone? {
        phase := Closed(false);
      } else if phase.Reading? && input.Decode? {
        var d := input.d;
        var failed := false;
        if !d.Got? {
          failed := true;
        } else {
          received := received + 1;
          if lastChangeID != 0 && d.change.id != Next(lastChangeID) {
            failed := true;
          }
        }
        if !failed {
          lastChangeID := d.change.id;
          if input.sent {
            delivered := delivered + [d.change];
          } else {
            phase := Closed(false);
          }
        } else if !canResubscribe {
          phase := Closed(true);
        } else {
          requests := requests + [lastChangeID];
          phase := Resubscribing;
        }
      } else if phase.Resubscribing? && input.Resubscribe? {
        var ok := RetryWithBackoff(input.attempts);
        if ok {
          phase, base, received := Reading, lastChangeID, 0;
        } else {
          phase := Closed(true);
        }
      }
    }

    /** Retries until an attempt is accepted, the subscription is gone, or the attempts run out. */
    method RetryWithBackoff(attempts: seq<Attempt>) returns (ok: bool)
      ensures ok <==> exists i :: 0 <= i < |attempts|
                        && attempts[i].Accepted? && forall j :: 0 <= j < i ==> attempts[j].Failed?
      ensures ok == Retried(attempts)
    {
      assert attempts[0..] == attempts;
      for i := 0 to |attempts|
        invariant forall j :: 0 <= j < i ==> attempts[j].Failed?
        invariant Retried(attempts) == Retried(attempts[i..])
      {
        assert attempts[i..][1..] == attempts[i + 1..];
        if attempts[i].Accepted? {
          return true;
        }
        if attempts[i].NotFound? {
          return false;
        }
      }
      return false;
    }
  }

  // ---- Whole runs ----

  /** The delivered IDs count up from c + 1, up to and including the first that wraps round to 0. */
  ghost predicate Consecutive(c: ChangeId, delivered: seq<Change>) {
    forall i :: 0 <= i < |delivered| && c + i < MODULUS ==> delivered[i].id == Next(c + i)
  }

  /** The ID that was last after the given deliveries. */
  function LastId(c: ChangeId, delivered: seq<Change>): ChangeId {
    if delivered == [] then c else delivered[|delivered| - 1].id
  }

  /** Each delivered ID follows the one before it, unless that one is 0 and so counts as unknown. */
  ghost predicate Linked(c: ChangeId, delivered: seq<Change>) {
    forall i :: 0 <= i < |delivered| ==>
      LastId(c, delivered[..i]) == 0 || delivered[i].id == Next(LastId(c, delivered[..i]))
  }

  /** The ID was last after some of the deliveries. */
  ghost predicate WasLast(c: ChangeId, delivered: seq<Change>, id: ChangeId) {
    exists j :: 0 <= j <= |delivered| && id == LastId(c, delivered[..j])
  }

  /** Each resubscription asked to go on from the last change delivered at the time. */
  ghost predicate Resumed(c: ChangeId, s: State) {
    && (forall k :: 0 <= k < |s.requests| ==> WasLast(c, s.delivered, s.requests[k]))
    && (s.phase.Resubscribing? ==>
          s.requests != [] && s.requests[|s.requests| - 1] == LastId(c, s.delivered))
  }

  ghost predicate Continues(c: ChangeId, s: State) {
    && Linked(c, s.delivered) && Resumed(c, s)
    && (!s.phase.Closed? ==> s.lastChangeID == LastId(c, s.delivered))
  }

  lemma DeliverContinues(c: ChangeId, s: State, x: Change, s': State)
    requires Continues(c, s) && s.phase.Reading? && Follows(s.lastChangeID, Got(x))
    requires s'.delivered == s.delivered + [x] && s'.requests == s.requests
    requires s'.phase.Reading? && s'.lastChangeID == x.id
    ensures Continues(c, s')
  {
    var d, d' := s.delivered, s'.delivered;
    assert forall j :: 0 <= j <= |d| ==> d'[..j] == d[..j];
    assert d[..|d|] == d;
    forall k | 0 <= k < |s.requests|
      ensures WasLast(c, d', s.requests[k])
    {
      StaysLast(c, d, x, s.requests[k]);
    }
  }

  lemma StaysLast(c: ChangeId, d: seq<Change>, x: Change, id: ChangeId)
    requires WasLast(c, d, id)
    ensures WasLast(c, d + [x], id)
  {
    var j :| 0 <= j <= |d| && id == LastId(c, d[..j]);
    assert (d + [x])[..j] == d[..j];
  }

  lemma RefuseContinues(c: ChangeId, s: State, s': State)
    requires Continues(c, s) && s.phase.Reading? && s'.phase.Resubscribing?
    requires s'.delivered == s.delivered && s'.lastChangeID == s.lastChangeID
    requires s'.requests == s.requests + [s.lastChangeID]
    ensures Continues(c, s')
  {
    assert s.delivered[..|s.delivered|] == s.delivered;
    assert WasLast(c, s.delivered, s.lastChangeID);
  }

  lemma StepContinues(c: ChangeId, s: State, canResubscribe: bool, i: Input)
    requires Continues(c, s)
    ensures Continues(c, Step(s, canResubscribe, i))
  {
    var s' := Step(s, canResubscribe, i);
    if s.phase.Reading? && i.Decode? {
      if s'.phase.Reading? {
        DeliverContinues(c, s, i.d.change, s');
      } else if s'.phase.Resubscribing? {
        RefuseContinues(c, s, s');
      }
    }
  }

  /** For every start and every sequence of inputs, each delivered change follows
      the one before it unless that one has ID 0, and every resubscription goes on
      from the last change delivered. */
  lemma {:induction false} EveryChangeFollows(c: ChangeId, canResubscribe: bool, inputs: seq<Input>)
    ensures Continues(c, Run(Start(c), canResubscribe, inputs))
  {
    if inputs != [] {
      var init := inputs[..|inputs| - 1];
      EveryChangeFollows(c, canResubscribe, init);
      StepContinues(c, Run(Start(c), canResubscribe, init), canResubscribe, inputs[|inputs| - 1]);
    }
  }

  /** The exception is real: after the largest ID comes 0, and then any change is accepted. */
  lemma WrapLosesTrack(zero: Change, x: Change)
    requires zero.id == 0
    ensures var inputs := [Decode(Got(zero), true), Decode(Got(x), true)];
            Run(Start(0xFFFF_FFFF_FFFF_FFFF), true, inputs).delivered == [zero, x]
  {
    var first, second := Decode(Got(zero), true), Decode(Got(x), true);
    var start := Start(0xFFFF_FFFF_FFFF_FFFF);
    assert [first, second][..1] == [first] && [first][..0] == [];
    assert Run(start, true, [first]) == Step(start, true, first);
    assert Run(start, true, [first, second]) == Step(Step(start, true, first), true, second);
  }

  ghost predicate Sound(c: ChangeId, s: State) {
    && Consecutive(c, s.delivered)
    && (c + |s.delivered| < MODULUS && !s.phase.Closed? ==> s.lastChangeID == c + |s.delivered|)
    && (c + |s.delivered| < MODULUS ==> forall k :: 0 <= k < |s.requests| ==> c <= s.requests[k] <= c + |s.delivered|)
    && (c + |s.delivered| < MODULUS && s.phase.Resubscribing? ==>
          s.requests != [] && s.requests[|s.requests| - 1] == c + |s.delivered|)
  }

  lemma StepSound(c: ChangeId, s: State, canResubscribe: bool, i: Input)
    requires 0 < c && Sound(c, s)
    ensures Sound(c, Step(s, canResubscribe, i))
  {
  }

  /** Gap-free resumption: starting from a snapshot at c > 0, for every sequence of
      decoded events, errors and resubscriptions, the delivered changes are
      c+1, c+2, ... with no gap, repeat or reordering, up to and including the ID
      that wraps round to 0; beyond it each change follows the one before it unless
      that one has ID 0. Every resubscription goes on from the last change delivered. */
  lemma {:induction false} GapFree(c: ChangeId, canResubscribe: bool, inputs: seq<Input>)
    requires 0 < c
    ensures Sound(c, Run(Start(c), canResubscribe, inputs)) && Continues(c, Run(Start(c), canResubscribe, inputs))
  {
    EveryChangeFollows(c, canResubscribe, inputs);
    if inputs != [] {
      GapFree(c, canResubscribe, inputs[..|inputs| - 1]);
      StepSound(c, Run(Start(c), canResubscribe, inputs[..|inputs| - 1]), canResubscribe, inputs[|inputs| - 1]);
    }
  }

  /** Every change the server sends is the entry of its log with that number. */
  ghost predicate FromLog(log: seq<string>, inputs: seq<Input>) {
    forall k :: 0 <= k < |inputs| && inputs[k].Decode? && inputs[k].d.Got? ==>
      var e := inputs[k].d.change; 0 < e.id <= |log| && e.payload == log[e.id - 1]
  }

  lemma {:induction false} DeliveredIsFromLog(log: seq<string>, s: State, canResubscribe: bool, inputs: seq<Input>)
    requires FromLog(log, inputs) && s.delivered == []
    ensures forall k :: 0 <= k < |Run(s, canResubscribe, inputs).delivered| ==>
              var e := Run(s, canResubscribe, inputs).delivered[k]; 0 < e.id <= |log| && e.payload == log[e.id - 1]
  {
    if inputs != [] {
      DeliveredIsFromLog(log, s, canResubscribe, inputs[..|inputs| - 1]);
    }
  }

  /** What is delivered is a piece of the server's log, starting right after the snapshot. */
  lemma DeliveredIsLogPrefix(c: ChangeId, log: seq<string>, canResubscribe: bool, inputs: seq<Input>)
    requires 0 < c <= |log| < MODULUS && FromLog(log, inputs)
    ensures var d := Run(Start(c), canResubscribe, inputs).delivered;
            c + |d| <= |log| && forall k :: 0 <= k < |d| ==> d[k] == Change(c + k + 1, log[c + k])
  {
    GapFree(c, canResubscribe, inputs);
    DeliveredIsFromLog(log, Start(c), canResubscribe, inputs);
    PieceOfLog(c, log, Run(Start(c), canResubscribe, inputs).delivered);
  }

  /** Consecutive entries of a log that start after c are the log after c. */
  lemma PieceOfLog(c: ChangeId, log: seq<string>, d: seq<Change>)
    requires 0 < c <= |log| < MODULUS && Consecutive(c, d)
    requires forall k :: 0 <= k < |d| ==> 0 < d[k].id <= |log| && d[k].payload == log[d[k].id - 1]
    ensures c + |d| <= |log| && forall k :: 0 <= k < |d| ==> d[k] == Change(c + k + 1, log[c + k])
  {
    if d != [] {
      // Were there more, the change after the end of the log would be among them.
      var k := if |log| - c < |d| then |log| - c else 0;
      assert d[k].id == Next(c + k);
    }
  }

  /** A server that replays its log from k+1 on "from=k": the changes of each
      connection follow on from where it was asked to start. */
  ghost predicate Replays(s: State, i: Input) {
    s.phase.Reading? && i.Decode? && i.d.Got? ==> i.d.change.id == s.base + s.received + 1
  }

  ghost predicate ReplaysAll(s: State, canResubscribe: bool, inputs: seq<Input>) {
    forall k :: 0 <= k < |inputs| ==> Replays(Run(s, canResubscribe, inputs[..k]), inputs[k])
  }

  /** The last change is the last one of the current connection, and it is known. */
  ghost predicate InStep(s: State) {
    && (!s.phase.Closed? ==> 0 < s.lastChangeID)
    && (s.phase.Reading? ==> s.lastChangeID == s.base + s.received)
  }

  lemma StepInStep(s: State, canResubscribe: bool, i: Input)
    requires InStep(s) && Replays(s, i)
    ensures InStep(Step(s, canResubscribe, i))
    ensures s.phase.Reading? && i.Decode? && i.d.Got? ==> Follows(s.lastChangeID, i.d)
  {
  }

  /** Against such a server the gap check never fires: every change that is read is accepted. */
  lemma {:induction false} NothingRefused(c: ChangeId, canResubscribe: bool, inputs: seq<Input>)
    requires 0 < c && ReplaysAll(Start(c), canResubscribe, inputs)
    ensures InStep(Run(Start(c), canResubscribe, inputs))
    ensures inputs != [] ==>
              var s := Run(Start(c), canResubscribe, inputs[..|inputs| - 1]);
              var i := inputs[|inputs| - 1];
              s.phase.Reading? && i.Decode? && i.d.Got? ==> Follows(s.lastChangeID, i.d)
  {
    if inputs != [] {
      var init := inputs[..|inputs| - 1];
      ReplaysInit(Start(c), canResubscribe, inputs);
      NothingRefused(c, canResubscribe, init);
      StepInStep(Run(Start(c), canResubscribe, init), canResubscribe, inputs[|inputs| - 1]);
    }
  }

  // ---- Nothing is held back ----

  /** Some attempt is accepted, and all before it failed in a way that may be retried. */
  ghost predicate Reconnects(attempts: seq<Attempt>) {
    exists i :: 0 <= i < |attempts| && attempts[i].Accepted? && forall j :: 0 <= j < i ==> attempts[j].Failed?
  }

  lemma {:induction false} RetriedMeans(attempts: seq<Attempt>)
    ensures Retried(attempts) <==> Reconnects(attempts)
  {
    if attempts != [] && attempts[0].Failed? {
      var rest := attempts[1..];
      RetriedMeans(rest);
      if Reconnects(rest) {
        var i :| 0 <= i < |rest| && rest[i].Accepted? && forall j :: 0 <= j < i ==> rest[j].Failed?;
        assert attempts[i + 1].Accepted? && forall j :: 0 <= j < i + 1 ==> j == 0 || attempts[j] == rest[j - 1];
      }
      if Reconnects(attempts) {
        var i :| 0 <= i < |attempts| && attempts[i].Accepted? && forall j :: 0 <= j < i ==> attempts[j].Failed?;
        assert rest[i - 1].Accepted? && forall j :: 0 <= j < i - 1 ==> rest[j] == attempts[j + 1];
      }
    } else if attempts != [] && attempts[0].Accepted? {
      assert Reconnects(attempts);
    }
  }

  /** A change that the goroutine reads and that passes the gap check. */
  ghost predicate Accepts(s: State, i: Input) {
    && s.phase.Reading? && i.Decode? && i.d.Got?
    && (s.lastChangeID == 0 || i.d.change.id == (s.lastChangeID + 1) % MODULUS)
  }

  /** The context ended, or ended before the consumer took a change. */
  ghost predicate Abandoned(s: State, i: Input) {
    s.phase.Reading? && (i.ContextDone? || (Accepts(s, i) && !i.sent))
  }

  /** An event that is no acceptable change, without a way to resubscribe or with one that failed for good. */
  ghost predicate Fails(s: State, canResubscribe: bool, i: Input) {
    || (s.phase.Reading? && i.Decode? && !Accepts(s, i) && !canResubscribe)
    || (s.phase.Resubscribing? && i.Resubscribe? && !Reconnects(i.attempts))
  }

  /** What one turn does: an accepted change is delivered and nothing else is, the
      stream ends without an error exactly if it was abandoned and with one exactly
      if it fails, and a resubscription goes on reading exactly if it reconnects. */
  lemma StepExactly(s: State, canResubscribe: bool, i: Input)
    requires !s.phase.Closed?
    ensures var s' := Step(s, canResubscribe, i);
            && s'.delivered == (if Accepts(s, i) && i.sent then s.delivered + [i.d.change] else s.delivered)
            && s'.lastChangeID == (if Accepts(s, i) then i.d.change.id else s.lastChangeID)
            && (s'.phase == Closed(false) <==> Abandoned(s, i))
            && (s'.phase == Closed(true) <==> Fails(s, canResubscribe, i))
            && (s'.phase.Resubscribing? && s.phase.Reading?
                <==> s.phase.Reading? && i.Decode? && !Accepts(s, i) && canResubscribe)
            && (s.phase.Resubscribing? && s'.phase.Reading?
                <==> s.phase.Resubscribing? && i.Resubscribe? && Reconnects(i.attempts))
  {
    if i.Resubscribe? {
      RetriedMeans(i.attempts);
    }
  }

  /** The consumer takes every change, the context lasts, and every resubscription reconnects. */
  ghost predicate Cooperative(inputs: seq<Input>) {
    forall k :: 0 <= k < |inputs| ==>
      match inputs[k]
      case Decode(_, sent) => sent
      case ContextDone => false
      case Resubscribe(attempts) => Reconnects(attempts)
  }

  /** The changes that were read, accepted or not. */
  ghost function ReadBy(s: State, canResubscribe: bool, inputs: seq<Input>): seq<Change> {
    if inputs == [] then []
    else
      var init, i := inputs[..|inputs| - 1], inputs[|inputs| - 1];
      ReadBy(s, canResubscribe, init)
      + if Run(s, canResubscribe, init).phase.Reading? && i.Decode? && i.d.Got? then [i.d.change] else []
  }

  /** However often events go wrong, a stream that can resubscribe never ends. */
  lemma {:induction false} NeverCloses(c: ChangeId, inputs: seq<Input>)
    requires Cooperative(inputs)
    ensures !Run(Start(c), true, inputs).phase.Closed?
  {
    if inputs != [] {
      var init := inputs[..|inputs| - 1];
      assert Cooperative(init);
      NeverCloses(c, init);
      StepExactly(Run(Start(c), true, init), true, inputs[|inputs| - 1]);
    }
  }

  lemma ReplaysInit(s: State, canResubscribe: bool, inputs: seq<Input>)
    requires inputs != [] && ReplaysAll(s, canResubscribe, inputs)
    ensures ReplaysAll(s, canResubscribe, inputs[..|inputs| - 1])
  {
    var init := inputs[..|inputs| - 1];
    forall k | 0 <= k < |init|
      ensures Replays(Run(s, canResubscribe, init[..k]), init[k])
    {
      assert init[..k] == inputs[..k];
    }
  }

  /** Completeness: against a server that replays from the requested change, every
      change that is read is delivered, and the last one delivered is the last one
      the current connection sent. */
  lemma {:induction false} EveryReadIsDelivered(c: ChangeId, inputs: seq<Input>)
    requires 0 < c && ReplaysAll(Start(c), true, inputs) && Cooperative(inputs)
    ensures var s := Run(Start(c), true, inputs);
            && !s.phase.Closed? && s.delivered == ReadBy(Start(c), true, inputs)
            && (s.phase.Reading? ==> LastId(c, s.delivered) == s.base + s.received)
  {
    NeverCloses(c, inputs);
    NothingRefused(c, true, inputs);
    EveryChangeFollows(c, true, inputs);
    if inputs != [] {
      var init := inputs[..|inputs| - 1];
      assert Cooperative(init);
      ReplaysInit(Start(c), true, inputs);
      EveryReadIsDelivered(c, init);
      StepExactly(Run(Start(c), true, init), true, inputs[|inputs| - 1]);
    }
  }
}
