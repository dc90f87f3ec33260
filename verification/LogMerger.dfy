/** The k-way log merger: reader goroutines with bounded slots feed one event
    loop that keeps a low watermark, a heap, debounced heartbeats and stall marks. */
module LogMerger {
  import opened Collections
  import opened LogEntries

  const MAX_IN_FLIGHT: int := 100

  /** `input` and `marks` are history: everything read from the stream so far,
      and how often the stream has been marked stalled. */
  datatype Stream = Stream(
    lastSeen: nat,
    lastActivity: nat,
    meta: Option<string>,
    closed: bool,
    stalled: bool,
    slots: int,
    pending: Option<Entry>,
    input: seq<Entry>,
    marks: nat)

  /** A queued entry. `afterStall` is history: its stream had been marked stalled before it arrived. */
  datatype Item = Item(origin: nat, entry: Entry, afterStall: bool)

  datatype Out = Forwarded(item: Item) | OwnHeartbeat(beat: Entry) | StallNotice(origin: nat, meta: string)

  /** `queue` is the heap's slice; nothing is said about its layout. */
  datatype State = State(
    streams: seq<Stream>,
    queue: seq<Item>,
    watermark: nat,
    lastEmitted: nat,
    output: seq<Out>,
    done: bool)

  /** How one call of updateWatermark and emitReadyEntries went: the heap is
      free to order entries with equal timestamps. */
  datatype Choice = Choice(watermark: nat, emitted: seq<Item>, rest: seq<Item>)

  datatype Event =
    | Read(i: nat, entry: Entry)
    | Deliver(i: nat, now: nat, choice: Choice)
    | Close(i: nat, now: nat, choice: Choice)
    | StallCheck(now: nat, choice: Choice)
    | Flush(emitted: seq<Item>)

  function OutEntry(o: Out): Entry {
    match o
    case Forwarded(item) => item.entry
    case OwnHeartbeat(beat) => beat
    case StallNotice(_, meta) => Failure("log stream stopped responding", meta)
  }

  function OutStamp(o: Out): nat {
    Stamp(OutEntry(o))
  }

  /** What a reader of the merged channel receives. */
  function Entries(output: seq<Out>): (r: seq<Entry>)
    ensures |r| == |output|
  {
    seq(|output|, k requires 0 <= k < |output| => OutEntry(output[k]))
  }

  function Forward(items: seq<Item>): (r: seq<Out>)
    ensures |r| == |items|
  {
    seq(|items|, k requires 0 <= k < |items| => Forwarded(items[k]))
  }

  /** The entries of one origin, in order. */
  function OfOrigin(items: seq<Item>, i: nat): seq<Entry> {
    if items == [] then []
    else if items[0].origin == i then [items[0].entry] + OfOrigin(items[1..], i)
    else OfOrigin(items[1..], i)
  }

  function Active(s: Stream): bool {
    !s.closed && !s.stalled
  }

  // ---- Pieces of the event loop ----

  ghost predicate IsWatermark(streams: seq<Stream>, old_: nat, w: nat) {
    && (forall i :: 0 <= i < |streams| && Active(streams[i]) ==> w <= streams[i].lastSeen)
    && (if exists i :: 0 <= i < |streams| && Active(streams[i])
        then exists i :: 0 <= i < |streams| && Active(streams[i]) && w == streams[i].lastSeen
        else w == old_)
  }

  ghost predicate SortedItems(items: seq<Item>) {
    forall a, b :: 0 <= a < b < |items| ==> Stamp(items[a].entry) <= Stamp(items[b].entry)
  }

  /** Popping the heap while its smallest timestamp is at most `w`. */
  ghost predicate Drained(queue: seq<Item>, w: nat, emitted: seq<Item>, rest: seq<Item>) {
    && multiset(queue) == multiset(emitted) + multiset(rest)
    && SortedItems(emitted)
    && (forall k :: 0 <= k < |emitted| ==> Stamp(emitted[k].entry) <= w)
    && (forall k :: 0 <= k < |rest| ==> w < Stamp(rest[k].entry))
  }

  ghost predicate Below(emitted: seq<Item>, queue: seq<Item>) {
    forall a, b :: 0 <= a < |emitted| && 0 <= b < |queue| ==> Stamp(emitted[a].entry) <= Stamp(queue[b].entry)
  }

  /** Moving a smallest entry over keeps the emitted entries sorted and below the queue. */
  lemma StaysBelow(emitted: seq<Item>, queue: seq<Item>, x: Item, rest: seq<Item>)
    requires SortedItems(emitted) && Below(emitted, queue) && x in queue
    requires multiset(queue) == multiset{x} + multiset(rest)
    requires forall y :: y in queue ==> Stamp(x.entry) <= Stamp(y.entry)
    ensures SortedItems(emitted + [x]) && Below(emitted + [x], rest)
  {
    assert forall b :: 0 <= b < |rest| ==> rest[b] in multiset(rest) && rest[b] in multiset(queue);
  }

  function FreeSlots(streams: seq<Stream>, emitted: seq<Item>): (r: seq<Stream>)
    ensures |r| == |streams|
  {
    seq(|streams|, i requires 0 <= i < |streams| =>
      streams[i].(slots := streams[i].slots - |OfOrigin(emitted, i)|))
  }

  ghost predicate CanSettle(s: State, c: Choice) {
    && IsWatermark(s.streams, s.watermark, c.watermark)
    && (if c.watermark == 0 then c.emitted == [] && c.rest == s.queue
        else Drained(s.queue, c.watermark, c.emitted, c.rest))
  }

  /** updateWatermark followed by emitReadyEntries. */
  function Settle(s: State, c: Choice): State {
    s.(watermark := c.watermark,
       queue := c.rest,
       streams := FreeSlots(s.streams, c.emitted),
       lastEmitted := if c.emitted == [] then s.lastEmitted else Stamp(c.emitted[|c.emitted| - 1].entry),
       output := s.output + Forward(c.emitted))
  }

  function SetStream(s: State, i: nat, x: Stream): State
    requires i < |s.streams|
  {
    s.(streams := s.streams[i := x])
  }

  /** Any event of a stream refreshes its activity and clears its stall mark. */
  function Touch(x: Stream, now: nat, meta: string): Stream {
    x.(lastActivity := now, stalled := false, pending := None,
       meta := if x.meta.None? then Some(meta) else x.meta)
  }

  function Seen(x: Stream, ts: nat): Stream {
    x.(lastSeen := if x.lastSeen < ts then ts else x.lastSeen)
  }

  /** Errors and logs without a timestamp are not queued. */
  predicate Unplaced(e: Entry) {
    e.Failure? || (e.Log? && e.ts == 0)
  }

  function PassOn(s: State, i: nat, now: nat, e: Entry): State
    requires i < |s.streams|
  {
    var x := Touch(s.streams[i], now, e.meta);
    SetStream(s, i, x.(slots := x.slots - 1))
      .(output := s.output + [Forwarded(Item(i, e, 0 < x.marks))])
  }

  function Enqueue(s: State, i: nat, now: nat, e: Entry): State
    requires i < |s.streams| && e.Log?
  {
    var x := Seen(Touch(s.streams[i], now, e.meta), e.ts);
    SetStream(s, i, x).(queue := s.queue + [Item(i, e, 0 < x.marks)])
  }

  function NoteBeat(s: State, i: nat, now: nat, e: Entry): State
    requires i < |s.streams| && e.Heartbeat?
  {
    SetStream(s, i, Seen(Touch(s.streams[i], now, e.meta), e.ts))
  }

  /** The merger's own heartbeat, at the watermark, at most one per interval. */
  function Beat(s: State, i: nat, e: Entry): State
    requires i < |s.streams| && e.Heartbeat?
  {
    var t := SetStream(s, i, s.streams[i].(slots := s.streams[i].slots - 1));
    if s.watermark - s.lastEmitted >= HEARTBEAT_INTERVAL
    then t.(output := s.output + [OwnHeartbeat(Heartbeat(s.watermark, e.meta))], lastEmitted := s.watermark)
    else t
  }

  predicate Stalls(x: Stream, now: nat, timeout: nat) {
    !x.closed && !x.stalled && now - x.lastActivity > timeout
  }

  function MarkStalled(streams: seq<Stream>, now: nat, timeout: nat): (r: seq<Stream>)
    ensures |r| == |streams|
  {
    seq(|streams|, i requires 0 <= i < |streams| =>
      if Stalls(streams[i], now, timeout)
      then streams[i].(stalled := true, marks := streams[i].marks + 1) else streams[i])
  }

  /** One notice per newly stalled stream among the first `n`, in stream order. */
  function Notices(streams: seq<Stream>, now: nat, timeout: nat, n: nat): seq<Out>
    requires n <= |streams|
  {
    if n == 0 then []
    else Notices(streams, now, timeout, n - 1)
         + (if Stalls(streams[n - 1], now, timeout)
            then [StallNotice(n - 1, if streams[n - 1].meta.None? then "" else streams[n - 1].meta.value)] else [])
  }

  function Mark(s: State, now: nat, timeout: nat): State {
    s.(streams := MarkStalled(s.streams, now, timeout),
       output := s.output + Notices(s.streams, now, timeout, |s.streams|))
  }

  // ---- One event ----

  ghost predicate Next(timeout: nat, s: State, ev: Event, s': State) {
    !s.done &&
    match ev
    // A reader takes a slot before it hands an entry to the loop.
    case Read(i, e) =>
      i < |s.streams| && !s.streams[i].closed && s.streams[i].pending.None? && s.streams[i].slots < MAX_IN_FLIGHT
      && s' == SetStream(s, i, s.streams[i].(slots := s.streams[i].slots + 1, pending := Some(e),
                                             input := s.streams[i].input + [e]))
    case Deliver(i, now, c) =>
      i < |s.streams| && !s.streams[i].closed && s.streams[i].pending.Some?
      && var e := s.streams[i].pending.value;
         if Unplaced(e) then s' == PassOn(s, i, now, e)
         else if e.Log? then
           CanSettle(Enqueue(s, i, now, e), c) && s' == Settle(Enqueue(s, i, now, e), c)
         else
           CanSettle(NoteBeat(s, i, now, e), c) && s' == Beat(Settle(NoteBeat(s, i, now, e), c), i, e)
    case Close(i, now, c) =>
      i < |s.streams| && !s.streams[i].closed && s.streams[i].pending.None?
      && var t := SetStream(s, i, Touch(s.streams[i], now, "").(closed := true));
         CanSettle(t, c) && s' == Settle(t, c)
    case StallCheck(now, c) =>
      0 < timeout
      && if exists i :: 0 <= i < |s.streams| && Stalls(s.streams[i], now, timeout)
         then CanSettle(Mark(s, now, timeout), c) && s' == Settle(Mark(s, now, timeout), c)
         else s' == s
    case Flush(emitted) =>
      (forall i :: 0 <= i < |s.streams| ==> s.streams[i].closed)
      && SortedItems(emitted) && multiset(emitted) == multiset(s.queue)
      && s' == s.(queue := [], streams := FreeSlots(s.streams, emitted), done := true,
                  output := s.output + Forward(emitted))
  }

  function NewStream(now: nat): Stream {
    Stream(0, now, None, false, false, 0, None, [], 0)
  }

  ghost predicate Init(n: nat, now: nat, s: State) {
    s == State(seq(n, _ => NewStream(now)), [], 0, 0, [], false)
  }

  datatype Run = Run(streams: nat, startedAt: nat, timeout: nat, states: seq<State>, events: seq<Event>)

  ghost predicate IsRun(r: Run) {
    && |r.states| == |r.events| + 1
    && Init(r.streams, r.startedAt, r.states[0])
    && forall k :: 0 <= k < |r.events| ==> Next(r.timeout, r.states[k], r.events[k], r.states[k + 1])
  }

  ghost function Last(r: Run): State
    requires IsRun(r)
  {
    r.states[|r.states| - 1]
  }

  // ---- The object ----

  /** The merger as the event loop runs it. Each method handles one event and
      is a step of the transition system. */
  class Merger {
    var streams: seq<Stream>
    var queue: seq<Item>
    var watermark: nat
    var lastEmitted: nat
    var output: seq<Out>
    var done: bool
    const stallTimeout: nat

    function Model(): State
      reads this
    {
      State(streams, queue, watermark, lastEmitted, output, done)
    }

    constructor (n: nat, now: nat, timeout: nat)
      ensures Init(n, now, Model()) && stallTimeout == timeout
    {
      streams := seq(n, _ => NewStream(now));
      queue, output, watermark, lastEmitted, done := [], [], 0, 0, false;
      stallTimeout := timeout;
    }

    method UpdateWatermark()
      modifies this`watermark
      ensures IsWatermark(streams, old(watermark), watermark)
    {
      var first := true;
      ghost var chosen := 0;
      for i := 0 to |streams|
        invariant first ==> watermark == old(watermark)
        invariant first ==> forall k :: 0 <= k < i ==> !Active(streams[k])
        invariant !first ==> chosen < i && Active(streams[chosen]) && watermark == streams[chosen].lastSeen
        invariant !first ==> forall k :: 0 <= k < i && Active(streams[k]) ==> watermark <= streams[k].lastSeen
      {
        if streams[i].closed || streams[i].stalled {
          continue;
        }
        if first || streams[i].lastSeen < watermark {
          watermark := streams[i].lastSeen;
          first := false;
          chosen := i;
        }
      }
    }

    /** Index of an entry with the smallest timestamp. */
    method Smallest() returns (k: nat)
      requires queue != []
      ensures k < |queue|
      ensures forall j :: 0 <= j < |queue| ==> Stamp(queue[k].entry) <= Stamp(queue[j].entry)
    {
      k := 0;
      for j := 1 to |queue|
        invariant k < |queue|
        invariant forall m :: 0 <= m < j ==> Stamp(queue[k].entry) <= Stamp(queue[m].entry)
      {
        if Stamp(queue[j].entry) < Stamp(queue[k].entry) {
          k := j;
        }
      }
    }

    /** Pops the heap and sends the entry; the slot is freed by the caller's accounting. */
    method Pop() returns (x: Item)
      requires queue != []
      modifies this`queue, this`output
      ensures x in old(queue) && multiset(old(queue)) == multiset{x} + multiset(queue)
      ensures |queue| == |old(queue)| - 1
      ensures forall y :: y in old(queue) ==> Stamp(x.entry) <= Stamp(y.entry)
      ensures output == old(output) + [Forwarded(x)]
    {
      var k := Smallest();
      x := queue[k];
      assert queue == queue[..k] + [x] + queue[k + 1..];
      queue := queue[..k] + queue[k + 1..];
      output := output + [Forwarded(x)];
    }

    /** Pops every entry that is at most `bound`, or every entry if there is no bound. */
    method PopWhile(bound: Option<nat>) returns (emitted: seq<Item>)
      modifies this`queue, this`output
      ensures multiset(old(queue)) == multiset(emitted) + multiset(queue)
      ensures SortedItems(emitted)
      ensures bound.None? ==> queue == []
      ensures bound.Some? ==> Drained(old(queue), bound.value, emitted, queue)
      ensures output == old(output) + Forward(emitted)
    {
      emitted := [];
      assert output == old(output) + Forward(emitted);
      while queue != []
        invariant multiset(old(queue)) == multiset(emitted) + multiset(queue)
        invariant SortedItems(emitted)
        invariant Below(emitted, queue)
        invariant bound.Some? ==> forall a :: 0 <= a < |emitted| ==> Stamp(emitted[a].entry) <= bound.value
        invariant output == old(output) + Forward(emitted)
        decreases |queue|
      {
        var k := Smallest();
        if bound.Some? && bound.value < Stamp(queue[k].entry) {
          return;
        }
        ghost var before := queue;
        assert before[k] in before;
        var x := Pop();
        StaysBelow(emitted, before, x, queue);
        assert Forward(emitted + [x]) == Forward(emitted) + [Forwarded(x)];
        emitted := emitted + [x];
      }
    }

    method EmitReadyEntries() returns (emitted: seq<Item>)
      modifies this`queue, this`output, this`lastEmitted, this`streams
      ensures if watermark == 0 then emitted == [] && queue == old(queue)
              else Drained(old(queue), watermark, emitted, queue)
      ensures output == old(output) + Forward(emitted)
      ensures streams == FreeSlots(old(streams), emitted)
      ensures lastEmitted == if emitted == [] then old(lastEmitted) else Stamp(emitted[|emitted| - 1].entry)
    {
      emitted := [];
      assert output == old(output) + Forward(emitted);
      if watermark != 0 {
        emitted := PopWhile(Some(watermark));
      }
      if emitted != [] {
        lastEmitted := Stamp(emitted[|emitted| - 1].entry);
      }
      streams := FreeSlots(streams, emitted);
    }

    method SettleNow() returns (c: Choice)
      modifies this
      ensures CanSettle(old(Model()), c) && Model() == Settle(old(Model()), c)
    {
      UpdateWatermark();
      var emitted := EmitReadyEntries();
      c := Choice(watermark, emitted, queue);
    }

    method ReadOne(i: nat, e: Entry) returns (ev: Event)
      requires !done && i < |streams| && !streams[i].closed && streams[i].pending.None?
      requires streams[i].slots < MAX_IN_FLIGHT
      modifies this
      ensures Next(stallTimeout, old(Model()), ev, Model())
    {
      streams := streams[i := streams[i].(slots := streams[i].slots + 1, pending := Some(e),
                                          input := streams[i].input + [e])];
      ev := Read(i, e);
    }

    /** The first lines of the loop's event case, common to every entry. */
    method Arrive(i: nat, now: nat, meta: string)
      requires i < |streams|
      modifies this`streams
      ensures Model() == old(SetStream(Model(), i, Touch(streams[i], now, meta)))
    {
      var x := streams[i].(lastActivity := now, pending := None);
      if x.stalled {
        x := x.(stalled := false);
      }
      if x.meta.None? {
        x := x.(meta := Some(meta));
      }
      streams := streams[i := x];
    }

    method DeliverOne(i: nat, now: nat) returns (ev: Event)
      requires !done && i < |streams| && !streams[i].closed && streams[i].pending.Some?
      modifies this
      ensures Next(stallTimeout, old(Model()), ev, Model())
    {
      var e := streams[i].pending.value;
      if e.Failure? || (e.Log? && e.ts == 0) {
        Arrive(i, now, e.meta);
        output := output + [Forwarded(Item(i, e, 0 < streams[i].marks))];
        streams := streams[i := streams[i].(slots := streams[i].slots - 1)];
        assert Model() == PassOn(old(Model()), i, now, e);
        return Deliver(i, now, Choice(0, [], []));
      }
      var c := Place(i, now, e);
      ev := Deliver(i, now, c);
    }

    /** A timestamped log or a heartbeat moves the stream forward and settles the merger. */
    method Place(i: nat, now: nat, e: Entry) returns (c: Choice)
      requires i < |streams| && !Unplaced(e)
      modifies this
      ensures e.Log? ==> var t := Enqueue(old(Model()), i, now, e); CanSettle(t, c) && Model() == Settle(t, c)
      ensures e.Heartbeat? ==>
                var t := NoteBeat(old(Model()), i, now, e); CanSettle(t, c) && Model() == Beat(Settle(t, c), i, e)
    {
      Arrive(i, now, e.meta);
      if streams[i].lastSeen < e.ts {
        streams := streams[i := streams[i].(lastSeen := e.ts)];
      }
      if e.Log? {
        queue := queue + [Item(i, e, 0 < streams[i].marks)];
        assert Model() == Enqueue(old(Model()), i, now, e);
      } else {
        assert Model() == NoteBeat(old(Model()), i, now, e);
      }
      c := SettleNow();
      if e.Heartbeat? {
        BeatNow(i, e);
      }
    }

    method BeatNow(i: nat, e: Entry)
      requires i < |streams| && e.Heartbeat?
      modifies this
      ensures Model() == old(Beat(Model(), i, e))
    {
      if watermark - lastEmitted >= HEARTBEAT_INTERVAL {
        output := output + [OwnHeartbeat(Heartbeat(watermark, e.meta))];
        lastEmitted := watermark;
      }
      streams := streams[i := streams[i].(slots := streams[i].slots - 1)];
    }

    method CloseOne(i: nat, now: nat) returns (ev: Event)
      requires !done && i < |streams| && !streams[i].closed && streams[i].pending.None?
      modifies this
      ensures Next(stallTimeout, old(Model()), ev, Model())
    {
      streams := streams[i := Touch(streams[i], now, "").(closed := true)];
      var c := SettleNow();
      ev := Close(i, now, c);
    }

    /** Marks the streams that have been silent for too long and says how many. */
    method CheckStalledStreams(now: nat) returns (stalled: nat)
      modifies this`streams, this`output
      ensures Model() == Mark(old(Model()), now, stallTimeout)
      ensures stalled == 0 <==> !exists i :: 0 <= i < |old(streams)| && Stalls(old(streams)[i], now, stallTimeout)
      // Exactly the open, unmarked streams that were silent for longer than the timeout are marked.
      ensures |streams| == |old(streams)|
      ensures forall i :: 0 <= i < |streams| ==>
                var x := old(streams)[i];
                streams[i].stalled <==> x.stalled || (!x.closed && x.lastActivity + stallTimeout < now)
    {
      stalled := 0;
      for i := 0 to |streams|
        invariant |streams| == |old(streams)|
        invariant output == old(output) + Notices(old(streams), now, stallTimeout, i)
        invariant forall k :: 0 <= k < i ==> streams[k] == MarkStalled(old(streams), now, stallTimeout)[k]
        invariant forall k :: i <= k < |streams| ==> streams[k] == old(streams)[k]
        invariant stalled == 0 <==> forall k :: 0 <= k < i ==> !Stalls(old(streams)[k], now, stallTimeout)
      {
        var x := streams[i];
        if !x.closed && !x.stalled && now - x.lastActivity > stallTimeout {
          output := output + [StallNotice(i, if x.meta.None? then "" else x.meta.value)];
          streams := streams[i := x.(stalled := true, marks := x.marks + 1)];
          stalled := stalled + 1;
        }
      }
    }

    method StallTick(now: nat) returns (ev: Event)
      requires !done && 0 < stallTimeout
      modifies this
      ensures Next(stallTimeout, old(Model()), ev, Model())
    {
      var stalled := CheckStalledStreams(now);
      if stalled == 0 {
        NothingToMark(old(Model()), now, stallTimeout);
        return StallCheck(now, Choice(0, [], []));
      }
      var c := SettleNow();
      ev := StallCheck(now, c);
    }

    method FlushAll() returns (ev: Event)
      requires !done && forall i :: 0 <= i < |streams| ==> streams[i].closed
      modifies this
      ensures Next(stallTimeout, old(Model()), ev, Model())
    {
      var emitted := PopWhile(None);
      streams := FreeSlots(streams, emitted);
      done := true;
      ev := Flush(emitted);
    }
  }

  lemma NothingToMark(s: State, now: nat, timeout: nat)
    requires forall i :: 0 <= i < |s.streams| ==> !Stalls(s.streams[i], now, timeout)
    ensures Mark(s, now, timeout) == s
  {
    NoNotices(s.streams, now, timeout, |s.streams|);
    assert MarkStalled(s.streams, now, timeout) == s.streams;
  }

  lemma {:induction false} NoNotices(streams: seq<Stream>, now: nat, timeout: nat, n: nat)
    requires n <= |streams| && forall i :: 0 <= i < n ==> !Stalls(streams[i], now, timeout)
    ensures Notices(streams, now, timeout, n) == []
  {
    if n > 0 {
      NoNotices(streams, now, timeout, n - 1);
    }
  }
}
