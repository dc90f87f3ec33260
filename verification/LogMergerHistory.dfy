/** What the merger knows of a stream, told by the events so far: when it was last
    heard of, whether it is closed, how far it has been seen, whether its silence
    has been reported. Stall notices are exact in these terms. */
module LogMergerHistory {
  import opened Collections
  import opened LogEntries
  import opened LogMerger
  import opened LogMergerFlow
  import opened LogMergerOrder

  // ---- The history of a stream ----

  /** The event is an entry of the stream or its end. */
  predicate HeardAt(ev: Event, i: nat) {
    (ev.Deliver? || ev.Close?) && ev.i == i
  }

  /** The time of the last event of the stream among the first k, or of the start. */
  ghost function LastHeard(r: Run, k: nat, i: nat): nat
    requires k <= |r.events|
  {
    if k == 0 then r.startedAt
    else if HeardAt(r.events[k - 1], i) then r.events[k - 1].now
    else LastHeard(r, k - 1, i)
  }

  ghost predicate ClosedBefore(r: Run, k: nat, i: nat)
    requires k <= |r.events|
  {
    exists j :: 0 <= j < k && r.events[j].Close? && r.events[j].i == i
  }

  /** Step j reports that the stream stalled. */
  ghost predicate ReportedAt(r: Run, j: nat, i: nat)
    requires j < |r.events| && |r.states| == |r.events| + 1
  {
    NoticeCount(r.states[j].output, i) < NoticeCount(r.states[j + 1].output, i)
  }

  /** The stream's silence has been reported and it has not been heard of since. */
  ghost predicate Reported(r: Run, k: nat, i: nat)
    requires k <= |r.events| && |r.states| == |r.events| + 1
  {
    exists j :: 0 <= j < k && ReportedAt(r, j, i) && forall m :: j < m < k ==> !HeardAt(r.events[m], i)
  }

  /** The metadata of the stream's first event. */
  ghost function FirstMeta(r: Run, k: nat, i: nat): Option<string>
    requires k <= |r.events| && |r.states| == |r.events| + 1
  {
    if k == 0 then None
    else
      var before := FirstMeta(r, k - 1, i);
      if before.Some? || !HeardAt(r.events[k - 1], i) then before
      else Some(EventMeta(r.states[k - 1], r.events[k - 1]))
  }

  /** A closing event carries no metadata. */
  function EventMeta(s: State, ev: Event): string {
    if ev.Deliver? && ev.i < |s.streams| && s.streams[ev.i].pending.Some?
    then s.streams[ev.i].pending.value.meta else ""
  }

  /** An open stream of whose silence nobody has been told, and that was last
      heard of more than the timeout ago. */
  ghost predicate Overdue(r: Run, k: nat, i: nat, now: nat)
    requires k <= |r.events| && |r.states| == |r.events| + 1
  {
    !ClosedBefore(r, k, i) && !Reported(r, k, i) && LastHeard(r, k, i) + r.timeout < now
  }

  // ---- One step ----

  /** What the loop keeps of a stream beside its entries. */
  datatype Memory = Memory(lastActivity: nat, stalled: bool, closed: bool, meta: Option<string>)

  function MemoryOf(x: Stream): Memory {
    Memory(x.lastActivity, x.stalled, x.closed, x.meta)
  }

  function Heard(m: Memory, now: nat, closing: bool, meta: string): Memory {
    Memory(now, false, m.closed || closing, if m.meta.Some? then m.meta else Some(meta))
  }

  predicate TooQuiet(m: Memory, now: nat, timeout: nat) {
    !m.closed && !m.stalled && m.lastActivity + timeout < now
  }

  ghost predicate Remembers(timeout: nat, s: State, ev: Event, s': State, i: nat)
    requires i < |s.streams| == |s'.streams|
  {
    var m, m' := MemoryOf(s.streams[i]), MemoryOf(s'.streams[i]);
    var n, n' := NoticeCount(s.output, i), NoticeCount(s'.output, i);
    if HeardAt(ev, i) then m' == Heard(m, ev.now, ev.Close?, EventMeta(s, ev)) && n' == n
    else if ev.StallCheck? && TooQuiet(m, ev.now, timeout) then m' == m.(stalled := true) && n' == n + 1
    else m' == m && n' == n
  }

  lemma SettleRemembers(s: State, c: Choice, i: nat)
    requires i < |s.streams|
    ensures MemoryOf(Settle(s, c).streams[i]) == MemoryOf(s.streams[i])
    ensures NoticeCount(Settle(s, c).output, i) == NoticeCount(s.output, i)
  {
    ForwardHasNoNotices(s.output, c.emitted, i);
  }

  lemma DeliverRemembers(timeout: nat, s: State, j: nat, now: nat, c: Choice, s': State, i: nat)
    requires Next(timeout, s, Deliver(j, now, c), s') && i < |s.streams| == |s'.streams|
    ensures Remembers(timeout, s, Deliver(j, now, c), s', i)
  {
    var e := s.streams[j].pending.value;
    if Unplaced(e) {
      AppendOut(s.output, Forwarded(Item(j, e, 0 < s.streams[j].marks)), i);
    } else if e.Log? {
      SettleRemembers(Enqueue(s, j, now, e), c, i);
    } else {
      var t := Settle(NoteBeat(s, j, now, e), c);
      SettleRemembers(NoteBeat(s, j, now, e), c, i);
      BeatRemembers(t, j, e, i);
    }
  }

  lemma BeatRemembers(s: State, j: nat, e: Entry, i: nat)
    requires i < |s.streams| && j < |s.streams| && e.Heartbeat?
    ensures MemoryOf(Beat(s, j, e).streams[i]) == MemoryOf(s.streams[i])
    ensures NoticeCount(Beat(s, j, e).output, i) == NoticeCount(s.output, i)
  {
    AppendOut(s.output, OwnHeartbeat(Heartbeat(s.watermark, e.meta)), i);
  }

  lemma StallRemembers(timeout: nat, s: State, now: nat, c: Choice, s': State, i: nat)
    requires Next(timeout, s, StallCheck(now, c), s') && i < |s.streams| == |s'.streams|
    ensures Remembers(timeout, s, StallCheck(now, c), s', i)
  {
    NoticesCount(s.output, s.streams, now, timeout, |s.streams|, i);
    SettleRemembers(Mark(s, now, timeout), c, i);
  }

  lemma StepRemembers(timeout: nat, s: State, ev: Event, s': State, i: nat)
    requires Next(timeout, s, ev, s') && i < |s.streams| == |s'.streams|
    ensures Remembers(timeout, s, ev, s', i)
  {
    match ev
    case Read(_, _) =>
    case Deliver(j, now, c) => DeliverRemembers(timeout, s, j, now, c, s', i);
    case Close(j, now, c) => SettleRemembers(SetStream(s, j, Touch(s.streams[j], now, "").(closed := true)), c, i);
    case StallCheck(now, c) => StallRemembers(timeout, s, now, c, s', i);
    case Flush(emitted) => ForwardHasNoNotices(s.output, emitted, i);
  }

  // ---- Whole runs ----

  /** The loop's memory of a stream is its history. */
  ghost predicate IsHistory(r: Run, k: nat, i: nat, m: Memory)
    requires k <= |r.events| && |r.states| == |r.events| + 1
  {
    && m.lastActivity == LastHeard(r, k, i) && m.meta == FirstMeta(r, k, i)
    && (m.closed <==> ClosedBefore(r, k, i)) && (m.stalled <==> Reported(r, k, i))
  }

  lemma ReportedStep(r: Run, k: nat, i: nat)
    requires 0 < k <= |r.events| && |r.states| == |r.events| + 1
    ensures Reported(r, k, i) <==> ReportedAt(r, k - 1, i) || (Reported(r, k - 1, i) && !HeardAt(r.events[k - 1], i))
  {
    if Reported(r, k - 1, i) && !HeardAt(r.events[k - 1], i) {
      var j :| 0 <= j < k - 1 && ReportedAt(r, j, i) && forall m :: j < m < k - 1 ==> !HeardAt(r.events[m], i);
      assert forall m :: j < m < k ==> !HeardAt(r.events[m], i);
    }
  }

  lemma ClosedStep(r: Run, k: nat, i: nat)
    requires 0 < k <= |r.events|
    ensures ClosedBefore(r, k, i) <==> ClosedBefore(r, k - 1, i) || (r.events[k - 1].Close? && r.events[k - 1].i == i)
  {
  }

  /** In every state of every run the loop's memory of a stream is what the events tell. */
  lemma {:induction false} RunHistory(r: Run, k: nat, i: nat)
    requires IsRun(r) && k < |r.states| && i < r.streams
    ensures |r.states[k].streams| == r.streams && IsHistory(r, k, i, MemoryOf(r.states[k].streams[i]))
  {
    RunFlow(r, k);
    if k > 0 {
      RunFlow(r, k - 1);
      RunHistory(r, k - 1, i);
      StepRemembers(r.timeout, r.states[k - 1], r.events[k - 1], r.states[k], i);
      ReportedStep(r, k, i);
      ClosedStep(r, k, i);
    } else {
      assert r.states[0].streams[i] == NewStream(r.startedAt);
    }
  }

  /** Stall notices are exact: a step adds a notice about a stream if and only if
      it is a stall check and the stream is overdue, and then it adds one. */
  lemma NoticesAreExact(r: Run, k: nat, i: nat)
    requires IsRun(r) && k < |r.events| && i < r.streams
    ensures NoticeCount(r.states[k + 1].output, i)
         == NoticeCount(r.states[k].output, i)
            + if r.events[k].StallCheck? && Overdue(r, k, i, r.events[k].now) then 1 else 0
  {
    RunHistory(r, k, i);
    RunHistory(r, k + 1, i);
    StepRemembers(r.timeout, r.states[k], r.events[k], r.states[k + 1], i);
  }

  /** The time a stream was last heard of is the start if there was no event of
      it, and otherwise the time of the event after which there was none. */
  lemma {:induction false} LastHeardIs(r: Run, k: nat, i: nat)
    requires k <= |r.events|
    ensures (LastHeard(r, k, i) == r.startedAt && forall j :: 0 <= j < k ==> !HeardAt(r.events[j], i))
            || exists j :: 0 <= j < k && HeardAt(r.events[j], i) && LastHeard(r, k, i) == r.events[j].now
                           && forall m :: j < m < k ==> !HeardAt(r.events[m], i)
  {
    if k > 0 && !HeardAt(r.events[k - 1], i) {
      LastHeardIs(r, k - 1, i);
      if j :| 0 <= j < k - 1 && HeardAt(r.events[j], i) && LastHeard(r, k - 1, i) == r.events[j].now
              && forall m :: j < m < k - 1 ==> !HeardAt(r.events[m], i) {
        assert forall m :: j < m < k ==> !HeardAt(r.events[m], i);
      }
    }
  }

  /** The loop's clock does not go back. */
  ghost predicate TimesAdvance(r: Run) {
    && (forall j :: 0 <= j < |r.events| && HasTime(r.events[j]) ==> r.startedAt <= r.events[j].now)
    && (forall j, m :: 0 <= j < m < |r.events| && HasTime(r.events[j]) && HasTime(r.events[m]) ==>
          r.events[j].now <= r.events[m].now)
  }

  predicate HasTime(ev: Event) {
    ev.Deliver? || ev.Close? || ev.StallCheck?
  }

  /** With such a clock an overdue stream is one that is open and unreported, and
      every event of which, like the start, is more than the timeout in the past. */
  lemma OverdueMeansSilent(r: Run, k: nat, i: nat, now: nat)
    requires k <= |r.events| && |r.states| == |r.events| + 1 && TimesAdvance(r)
    ensures Overdue(r, k, i, now)
            <==> !ClosedBefore(r, k, i) && !Reported(r, k, i) && r.startedAt + r.timeout < now
                 && forall j :: 0 <= j < k && HeardAt(r.events[j], i) ==> r.events[j].now + r.timeout < now
  {
    LastHeardIs(r, k, i);
  }

  // ---- What is output when ----

  lemma {:induction false} NoticeIsListed(streams: seq<Stream>, now: nat, timeout: nat, n: nat, i: nat)
    requires i < n <= |streams| && Stalls(streams[i], now, timeout)
    ensures StallNotice(i, streams[i].meta.GetOr("")) in Notices(streams, now, timeout, n)
  {
    if i < n - 1 {
      NoticeIsListed(streams, now, timeout, n - 1, i);
    }
  }

  /** The notice about an overdue stream carries the metadata of its first event. */
  lemma NoticeCarriesMeta(r: Run, k: nat, i: nat)
    requires IsRun(r) && k < |r.events| && i < r.streams
    requires r.events[k].StallCheck? && Overdue(r, k, i, r.events[k].now)
    ensures r.states[k].output <= r.states[k + 1].output
    ensures StallNotice(i, FirstMeta(r, k, i).GetOr("")) in r.states[k + 1].output[|r.states[k].output|..]
  {
    RunHistory(r, k, i);
    var s, now, c := r.states[k], r.events[k].now, r.events[k].choice;
    NoticeIsListed(s.streams, now, r.timeout, |s.streams|, i);
    var notices := Notices(s.streams, now, r.timeout, |s.streams|);
    assert Stalls(s.streams[i], now, r.timeout);
    assert r.states[k + 1].output[|s.output|..] == notices + Forward(c.emitted);
  }

  /** The entry that the event delivers, if it delivers one. */
  function DeliveredBy(s: State, ev: Event): Option<Entry> {
    if ev.Deliver? && ev.i < |s.streams| then s.streams[ev.i].pending else None
  }

  /** Errors and logs without a timestamp are passed on at once, with nothing before or after them. */
  lemma UnplacedPassAtOnce(r: Run, k: nat, e: Entry)
    requires IsRun(r) && k < |r.events| && DeliveredBy(r.states[k], r.events[k]) == Some(e)
    requires Stamp(e) == 0 && !e.Heartbeat?
    ensures Entries(r.states[k + 1].output) == Entries(r.states[k].output) + [e]
  {
  }

  /** A heartbeat is output only when one is delivered, with its metadata and at the watermark. */
  lemma HeartbeatsAnswerHeartbeats(r: Run, k: nat, b: nat)
    requires IsRun(r) && k < |r.events| && |r.states[k].output| <= b < |r.states[k + 1].output|
    requires r.states[k + 1].output[b].OwnHeartbeat?
    ensures var e := DeliveredBy(r.states[k], r.events[k]);
            && e.Some? && e.value.Heartbeat?
            && r.states[k + 1].output[b] == OwnHeartbeat(Heartbeat(r.states[k + 1].watermark, e.value.meta))
  {
    if r.events[k].StallCheck? {
      NoticesAreNotices(r.states[k].streams, r.events[k].now, r.timeout, |r.states[k].streams|);
    }
  }

  // ---- How far a stream has been seen ----

  /** The largest timestamp delivered so far. */
  ghost predicate SeenUpTo(x: Stream) {
    && (forall j :: 0 <= j < Delivered(x) && j < |x.input| ==> Stamp(x.input[j]) <= x.lastSeen)
    && (0 < x.lastSeen ==> exists j :: 0 <= j < Delivered(x) && j < |x.input| && Stamp(x.input[j]) == x.lastSeen)
  }

  ghost predicate AllSeen(x: Stream) {
    forall j :: 0 <= j < Delivered(x) && j < |x.input| ==> Stamp(x.input[j]) <= x.lastSeen
  }

  /** The stream has not delivered more, and has been seen no less. */
  lemma SameSeen(x: Stream, y: Stream)
    requires AllSeen(x) && x.input <= y.input && Delivered(y) <= Delivered(x) && x.lastSeen <= y.lastSeen
    ensures AllSeen(y)
  {
  }

  /** The pending entry has been delivered. */
  lemma MoreSeen(x: Stream, y: Stream)
    requires AllSeen(x) && SeenFromInput(x) && x.pending.Some? && y.pending.None? && y.input == x.input
    requires x.lastSeen <= y.lastSeen && Stamp(x.pending.value) <= y.lastSeen
    ensures AllSeen(y)
  {
  }

  lemma StepSeen(timeout: nat, s: State, ev: Event, s': State, i: nat)
    requires Next(timeout, s, ev, s') && i < |s.streams| == |s'.streams|
    requires AllSeen(s.streams[i]) && SeenFromInput(s.streams[i])
    ensures AllSeen(s'.streams[i])
  {
    if ev.Deliver? {
      DeliverSeen(timeout, s, ev, s', i);
    } else {
      SameSeen(s.streams[i], s'.streams[i]);
    }
  }

  lemma DeliverSeen(timeout: nat, s: State, ev: Event, s': State, i: nat)
    requires Next(timeout, s, ev, s') && ev.Deliver? && i < |s.streams| == |s'.streams|
    requires AllSeen(s.streams[i]) && SeenFromInput(s.streams[i])
    ensures AllSeen(s'.streams[i])
  {
    if ev.i == i {
      MoreSeen(s.streams[i], s'.streams[i]);
    } else {
      SameSeen(s.streams[i], s'.streams[i]);
    }
  }

  /** In every reachable state a stream has been seen exactly up to the largest
      timestamp it delivered, in order or not. */
  lemma {:induction false} SeenIsLargest(r: Run, k: nat, i: nat)
    requires IsRun(r) && k < |r.states| && i < r.streams
    ensures |r.states[k].streams| == r.streams && SeenUpTo(r.states[k].streams[i])
  {
    RunFlow(r, k);
    RunFlow(r, |r.states| - 1);
    RunOrder(r, k, r.streams);
    assert SeenFromInput(r.states[k].streams[i]);
    if k > 0 {
      SeenIsLargest(r, k - 1, i);
      RunOrder(r, k - 1, r.streams);
      assert SeenFromInput(r.states[k - 1].streams[i]);
      StepSeen(r.timeout, r.states[k - 1], r.events[k - 1], r.states[k], i);
    } else {
      assert r.states[0].streams[i] == NewStream(r.startedAt);
    }
  }
}
