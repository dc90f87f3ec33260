/** Order of the merged output: stalls are the only source of disorder, and
    without stalls any tree of mergers keeps the timeline. */
module LogMergerOrder {
  import opened Collections
  import opened LogEntries
  import opened LogMerger
  import opened LogMergerFlow

  // ---- The invariant ----

  function Delivered(x: Stream): int {
    |x.input| - if x.pending.Some? then 1 else 0
  }

  /** The last timestamp seen is that of an entry delivered earlier. */
  ghost predicate SeenFromInput(x: Stream) {
    && (x.pending.Some? ==> x.input != [] && x.input[|x.input| - 1] == x.pending.value)
    && (0 < x.lastSeen ==> exists j :: 0 <= j < Delivered(x) && Stamp(x.input[j]) == x.lastSeen)
    && (x.stalled ==> 0 < x.marks)
  }

  ghost predicate StreamsSound(streams: seq<Stream>) {
    forall i :: 0 <= i < |streams| ==> SeenFromInput(streams[i])
  }

  /** An open stream that was never marked stalled. */
  predicate Reliable(x: Stream) {
    !x.closed && x.marks == 0
  }

  ghost predicate QueueSound(streams: seq<Stream>, queue: seq<Item>) {
    forall k :: 0 <= k < |queue| ==>
      && queue[k].origin < |streams| && queue[k].entry.Log? && 0 < queue[k].entry.ts
      && queue[k].entry.ts <= streams[queue[k].origin].lastSeen
      && (queue[k].afterStall ==> 0 < streams[queue[k].origin].marks)
  }

  /** Nothing is on the output that a reliable stream could still precede. */
  ghost predicate OutputReached(streams: seq<Stream>, output: seq<Out>, watermark: nat) {
    forall i :: 0 <= i < |streams| && Reliable(streams[i]) ==>
      && watermark <= streams[i].lastSeen
      && forall a :: 0 <= a < |output| ==> OutStamp(output[a]) <= streams[i].lastSeen
  }

  /** Nothing is on the output that a queued entry of stream `o` should have preceded, unless it came after a stall. */
  ghost predicate OutputBelowQueue(queue: seq<Item>, output: seq<Out>, o: nat) {
    forall a, k :: 0 <= a < |output| && 0 <= k < |queue| && queue[k].origin == o && !queue[k].afterStall ==>
      OutStamp(output[a]) <= Stamp(queue[k].entry)
  }

  /** The later of two outputs is a queued entry that belongs before the earlier one. */
  predicate OutOfOrder(earlier: Out, later: Out) {
    later.Forwarded? && 0 < OutStamp(later) < OutStamp(earlier)
  }

  /** A timestamped entry of stream `o` is out of order on the output only if it came after a stall. */
  ghost predicate DisorderFollowsStall(output: seq<Out>, o: nat) {
    forall a, b :: 0 <= a < b < |output| && OutOfOrder(output[a], output[b]) ==>
      output[b].item.origin == o ==> output[b].item.afterStall
  }

  ghost predicate StallsRecorded(streams: seq<Stream>, output: seq<Out>) {
    forall a :: 0 <= a < |output| && output[a].Forwarded? ==>
      output[a].item.origin < |streams| && (output[a].item.afterStall ==> 0 < streams[output[a].item.origin].marks)
  }

  /** What holds of the order of stream `o`, whatever the other streams send. */
  ghost predicate Order(s: State, o: nat) {
    && StreamsSound(s.streams) && QueueSound(s.streams, s.queue)
    && OutputReached(s.streams, s.output, s.watermark)
    && OutputBelowQueue(s.queue, s.output, o)
    && DisorderFollowsStall(s.output, o) && StallsRecorded(s.streams, s.output)
  }

  /** The input of stream `o` is in order, if there is such a stream. */
  ghost predicate OrderedInput(s: State, o: nat) {
    o < |s.streams| ==> Ordered(s.streams[o].input)
  }

  ghost predicate OrderedInputs(s: State) {
    forall i :: 0 <= i < |s.streams| ==> Ordered(s.streams[i].input)
  }

  /** Outputs without a timestamp disturb nothing. */
  lemma AppendUnstamped(s: State, more: seq<Out>, o: nat)
    requires Order(s, o) && StallsRecorded(s.streams, more)
    requires forall k :: 0 <= k < |more| ==> OutStamp(more[k]) == 0
    ensures Order(s.(output := s.output + more), o)
  {
  }

  // ---- Each piece of the loop ----

  /** A pending timestamped entry is not older than anything its stream delivered. */
  lemma PendingIsLatest(x: Stream)
    requires SeenFromInput(x) && x.pending.Some? && Ordered(x.input) && 0 < Stamp(x.pending.value)
    ensures x.lastSeen <= Stamp(x.pending.value)
  {
  }

  /** Replacing one stream by one that has seen at least as much. */
  lemma StreamAdvances(s: State, i: nat, x: Stream, o: nat)
    requires Order(s, o) && i < |s.streams| && SeenFromInput(x)
    requires s.streams[i].lastSeen <= x.lastSeen && s.streams[i].marks <= x.marks
    requires Reliable(x) ==> Reliable(s.streams[i])
    ensures Order(SetStream(s, i, x), o)
  {
  }

  lemma TouchAndSee(x: Stream, now: nat, meta: string, ts: nat)
    requires SeenFromInput(x) && (x.pending.Some? ==> ts == Stamp(x.pending.value)) && (x.pending.None? ==> ts == 0)
    ensures SeenFromInput(Touch(x, now, meta)) && SeenFromInput(Seen(Touch(x, now, meta), ts))
  {
    var y := Seen(Touch(x, now, meta), ts);
    if 0 < x.lastSeen {
      var j :| 0 <= j < Delivered(x) && Stamp(x.input[j]) == x.lastSeen;
      assert 0 <= j < Delivered(y) && Stamp(y.input[j]) == x.lastSeen;
    }
    if y.lastSeen != x.lastSeen {
      assert Stamp(y.input[|x.input| - 1]) == ts;
    }
  }

  lemma ReadOrder(s: State, i: nat, e: Entry, o: nat)
    requires Order(s, o) && i < |s.streams| && s.streams[i].pending.None?
    ensures Order(SetStream(s, i, s.streams[i].(slots := s.streams[i].slots + 1, pending := Some(e),
                                                input := s.streams[i].input + [e])), o)
  {
    var x := s.streams[i];
    var y := x.(slots := x.slots + 1, pending := Some(e), input := x.input + [e]);
    if 0 < x.lastSeen {
      var j :| 0 <= j < Delivered(x) && Stamp(x.input[j]) == x.lastSeen;
      assert Stamp(y.input[j]) == x.lastSeen;
    }
    StreamAdvances(s, i, y, o);
  }

  lemma PassOnOrder(s: State, i: nat, now: nat, e: Entry, o: nat)
    requires Order(s, o) && i < |s.streams| && s.streams[i].pending == Some(e) && Unplaced(e)
    ensures Order(PassOn(s, i, now, e), o)
  {
    var x := Touch(s.streams[i], now, e.meta);
    FreedOrder(s, i, now, e, o);
    var t, more := SetStream(s, i, x.(slots := x.slots - 1)), [Forwarded(Item(i, e, 0 < x.marks))];
    assert StallsRecorded(t.streams, more) && OutStamp(more[0]) == 0;
    AppendUnstamped(t, more, o);
    assert PassOn(s, i, now, e) == t.(output := t.output + more);
  }

  lemma FreedOrder(s: State, i: nat, now: nat, e: Entry, o: nat)
    requires Order(s, o) && i < |s.streams| && s.streams[i].pending == Some(e)
    ensures var x := Touch(s.streams[i], now, e.meta); Order(SetStream(s, i, x.(slots := x.slots - 1)), o)
  {
    TouchAndSee(s.streams[i], now, e.meta, Stamp(e));
    var x := Touch(s.streams[i], now, e.meta);
    var y := x.(slots := x.slots - 1);
    assert SeenFromInput(y);
    StreamAdvances(s, i, y, o);
  }

  lemma EnqueueOrder(s: State, i: nat, now: nat, e: Entry, o: nat)
    requires Order(s, o) && i < |s.streams| && s.streams[i].pending == Some(e) && e.Log? && 0 < e.ts
    requires !s.streams[i].closed && (i == o ==> Ordered(s.streams[i].input))
    ensures Order(Enqueue(s, i, now, e), o)
  {
    TouchAndSee(s.streams[i], now, e.meta, e.ts);
    if i == o {
      PendingIsLatest(s.streams[i]);
    }
    StreamAdvances(s, i, Seen(Touch(s.streams[i], now, e.meta), e.ts), o);
  }

  lemma NoteBeatOrder(s: State, i: nat, now: nat, e: Entry, o: nat)
    requires Order(s, o) && i < |s.streams| && s.streams[i].pending == Some(e) && e.Heartbeat?
    ensures Order(NoteBeat(s, i, now, e), o)
  {
    TouchAndSee(s.streams[i], now, e.meta, e.ts);
    StreamAdvances(s, i, Seen(Touch(s.streams[i], now, e.meta), e.ts), o);
  }

  lemma CloseOrder(s: State, i: nat, now: nat, o: nat)
    requires Order(s, o) && i < |s.streams| && s.streams[i].pending.None?
    ensures Order(SetStream(s, i, Touch(s.streams[i], now, "").(closed := true)), o)
  {
    TouchAndSee(s.streams[i], now, "", 0);
    var y := Touch(s.streams[i], now, "").(closed := true);
    assert SeenFromInput(y);
    StreamAdvances(s, i, y, o);
  }

  lemma MarkStreamsOrder(s: State, now: nat, timeout: nat, o: nat)
    requires Order(s, o)
    ensures Order(s.(streams := MarkStalled(s.streams, now, timeout)), o)
  {
    var m := MarkStalled(s.streams, now, timeout);
    forall i | 0 <= i < |m|
      ensures SeenFromInput(m[i])
    {
      assert SeenFromInput(s.streams[i]);
    }
  }

  lemma MarkOrder(s: State, now: nat, timeout: nat, o: nat)
    requires Order(s, o)
    ensures Order(Mark(s, now, timeout), o)
  {
    NoticesAreNotices(s.streams, now, timeout, |s.streams|);
    MarkStreamsOrder(s, now, timeout, o);
    AppendUnstamped(s.(streams := MarkStalled(s.streams, now, timeout)),
                    Notices(s.streams, now, timeout, |s.streams|), o);
  }

  /** Sending a sorted part of the queue, all of it at most `bound`, with the rest of the queue above. */
  lemma SendOrder(output: seq<Out>, queue: seq<Item>, emitted: seq<Item>, rest: seq<Item>, o: nat)
    requires multiset(queue) == multiset(emitted) + multiset(rest) && SortedItems(emitted)
    requires forall a, b :: 0 <= a < |emitted| && 0 <= b < |rest| ==> Stamp(emitted[a].entry) <= Stamp(rest[b].entry)
    requires OutputBelowQueue(queue, output, o) && DisorderFollowsStall(output, o)
    ensures OutputBelowQueue(rest, output + Forward(emitted), o) && DisorderFollowsStall(output + Forward(emitted), o)
  {
    assert forall k :: 0 <= k < |emitted| ==> emitted[k] in multiset(queue);
    assert forall k :: 0 <= k < |rest| ==> rest[k] in multiset(rest) && rest[k] in multiset(queue);
    assert forall x :: x in multiset(queue) ==> x in queue;
  }

  lemma FromQueue(streams: seq<Stream>, queue: seq<Item>, part: seq<Item>)
    requires QueueSound(streams, queue) && forall k :: 0 <= k < |part| ==> part[k] in multiset(queue)
    ensures QueueSound(streams, part)
  {
    assert forall x :: x in multiset(queue) ==> x in queue;
  }

  lemma FreeSlotsSound(streams: seq<Stream>, emitted: seq<Item>)
    requires StreamsSound(streams)
    ensures StreamsSound(FreeSlots(streams, emitted))
  {
    forall i | 0 <= i < |streams|
      ensures SeenFromInput(FreeSlots(streams, emitted)[i])
    {
      assert SeenFromInput(streams[i]);
    }
  }

  /** Where the entries of a settled queue come from. */
  lemma SettleParts(s: State, c: Choice)
    requires QueueSound(s.streams, s.queue) && CanSettle(s, c)
    ensures QueueSound(s.streams, c.emitted) && QueueSound(s.streams, c.rest)
    ensures multiset(s.queue) == multiset(c.emitted) + multiset(c.rest)
    ensures forall k :: 0 <= k < |c.rest| ==> c.watermark < Stamp(c.rest[k].entry)
    ensures forall k :: 0 <= k < |c.emitted| ==> Stamp(c.emitted[k].entry) <= c.watermark
  {
    if c.watermark != 0 {
      assert forall k :: 0 <= k < |c.emitted| ==> c.emitted[k] in multiset(s.queue);
      assert forall k :: 0 <= k < |c.rest| ==> c.rest[k] in multiset(c.rest) && c.rest[k] in multiset(s.queue);
      FromQueue(s.streams, s.queue, c.emitted);
      FromQueue(s.streams, s.queue, c.rest);
    }
  }

  lemma SettleOrder(s: State, c: Choice, o: nat)
    requires Order(s, o) && CanSettle(s, c)
    ensures Order(Settle(s, c), o)
  {
    SettleParts(s, c);
    FreeSlotsSound(s.streams, c.emitted);
    SendOrder(s.output, s.queue, c.emitted, c.rest, o);
    SettleReached(s, c, o);
  }

  lemma SettleReached(s: State, c: Choice, o: nat)
    requires Order(s, o) && CanSettle(s, c)
    ensures OutputReached(Settle(s, c).streams, Settle(s, c).output, c.watermark)
  {
    var t := Settle(s, c);
    forall i | 0 <= i < |t.streams| && Reliable(t.streams[i])
      ensures c.watermark <= t.streams[i].lastSeen
      ensures forall a :: 0 <= a < |t.output| ==> OutStamp(t.output[a]) <= t.streams[i].lastSeen
    {
      assert SeenFromInput(s.streams[i]) && Active(s.streams[i]);
    }
  }

  lemma BeatOrder(s: State, i: nat, e: Entry, o: nat)
    requires Order(s, o) && Settled(s) && i < |s.streams| && e.Heartbeat?
    ensures Order(Beat(s, i, e), o)
  {
    assert SeenFromInput(s.streams[i]);
    var y := s.streams[i].(slots := s.streams[i].slots - 1);
    assert SeenFromInput(y);
    StreamAdvances(s, i, y, o);
    var t := SetStream(s, i, y);
    if s.watermark - s.lastEmitted >= HEARTBEAT_INTERVAL {
      var beat := Heartbeat(s.watermark, e.meta);
      AppendBeat(t, beat, o);
      assert Beat(s, i, e) == t.(output := t.output + [OwnHeartbeat(beat)], lastEmitted := t.watermark);
    } else {
      assert Beat(s, i, e) == t;
    }
  }

  /** A heartbeat at the watermark is not ahead of any open stream or queued entry. */
  lemma AppendBeat(s: State, beat: Entry, o: nat)
    requires Order(s, o) && Settled(s) && beat.Heartbeat? && beat.ts == s.watermark
    ensures Order(s.(output := s.output + [OwnHeartbeat(beat)], lastEmitted := s.watermark), o)
  {
  }

  lemma FlushOrder(s: State, emitted: seq<Item>, o: nat)
    requires Order(s, o) && SortedItems(emitted) && multiset(emitted) == multiset(s.queue)
    requires forall i :: 0 <= i < |s.streams| ==> s.streams[i].closed
    ensures Order(s.(queue := [], streams := FreeSlots(s.streams, emitted), done := true,
                     output := s.output + Forward(emitted)), o)
  {
    assert forall k :: 0 <= k < |emitted| ==> emitted[k] in multiset(s.queue);
    assert multiset(s.queue) == multiset(emitted) + multiset([]);
    FromQueue(s.streams, s.queue, emitted);
    FreeSlotsSound(s.streams, emitted);
    SendOrder(s.output, s.queue, emitted, [], o);
  }

  // ---- Whole runs ----

  lemma DeliverOrder(timeout: nat, s: State, i: nat, now: nat, c: Choice, s': State, o: nat)
    requires Order(s, o) && Tidy(s) && OrderedInput(s, o) && Next(timeout, s, Deliver(i, now, c), s')
    ensures Order(s', o)
  {
    var e := s.streams[i].pending.value;
    if Unplaced(e) {
      PassOnOrder(s, i, now, e, o);
    } else if e.Log? {
      EnqueueOrder(s, i, now, e, o);
      SettleOrder(Enqueue(s, i, now, e), c, o);
    } else {
      NoteBeatOrder(s, i, now, e, o);
      SettleOrder(NoteBeat(s, i, now, e), c, o);
      StreamTidy(s, i, Seen(Touch(s.streams[i], now, e.meta), e.ts));
      SettleTidy(NoteBeat(s, i, now, e), c);
      BeatOrder(Settle(NoteBeat(s, i, now, e), c), i, e, o);
    }
  }

  lemma StepOrder(timeout: nat, s: State, ev: Event, s': State, o: nat)
    requires Order(s, o) && Tidy(s) && OrderedInput(s, o) && Next(timeout, s, ev, s')
    ensures Order(s', o)
  {
    match ev
    case Read(i, e) => ReadOrder(s, i, e, o);
    case Deliver(i, now, c) => DeliverOrder(timeout, s, i, now, c, s', o);
    case Close(i, now, c) =>
      CloseOrder(s, i, now, o);
      SettleOrder(SetStream(s, i, Touch(s.streams[i], now, "").(closed := true)), c, o);
    case StallCheck(now, c) =>
      if s' != s {
        MarkOrder(s, now, timeout, o);
        SettleOrder(Mark(s, now, timeout), c, o);
      }
    case Flush(emitted) => FlushOrder(s, emitted, o);
  }

  /** Histories only grow. */
  ghost predicate Extends(s: State, s': State) {
    && |s.streams| == |s'.streams|
    && (forall i :: 0 <= i < |s.streams| ==> s.streams[i].input <= s'.streams[i].input)
    && (forall i :: 0 <= i < |s.streams| ==> s.streams[i].marks <= s'.streams[i].marks)
    && s.output <= s'.output
  }

  lemma StepExtends(timeout: nat, s: State, ev: Event, s': State)
    requires Next(timeout, s, ev, s')
    ensures Extends(s, s')
  {
    match ev
    case Deliver(i, now, c) => DeliverExtends(timeout, s, i, now, c, s');
    case _ =>
  }

  lemma DeliverExtends(timeout: nat, s: State, i: nat, now: nat, c: Choice, s': State)
    requires Next(timeout, s, Deliver(i, now, c), s')
    ensures Extends(s, s')
  {
  }

  lemma {:induction false} RunExtends(r: Run, k: nat)
    requires IsRun(r) && k < |r.states|
    ensures Extends(r.states[k], Last(r))
    decreases |r.states| - k
  {
    if k + 1 < |r.states| {
      RunExtends(r, k + 1);
      StepExtends(r.timeout, r.states[k], r.events[k], r.states[k + 1]);
    }
  }

  lemma PrefixOrdered(s: seq<Entry>, t: seq<Entry>)
    requires s <= t && Ordered(t)
    ensures Ordered(s)
  {
    assert forall i :: 0 <= i < |s| ==> s[i] == t[i];
  }

  lemma {:induction false} RunOrder(r: Run, k: nat, o: nat)
    requires IsRun(r) && k < |r.states| && OrderedInput(Last(r), o)
    ensures Order(r.states[k], o)
  {
    if k > 0 {
      RunOrder(r, k - 1, o);
      RunFlow(r, k - 1);
      RunExtends(r, k - 1);
      var s := r.states[k - 1];
      if o < |s.streams| {
        PrefixOrdered(s.streams[o].input, Last(r).streams[o].input);
      }
      StepOrder(r.timeout, s, r.events[k - 1], r.states[k], o);
    }
  }

  // ---- Main results ----

  /** Stalls are the only source of disorder: whatever the interleaving, if an
      output precedes a timestamped log that is older, and the log's own stream is
      in order, then that stream had been marked stalled before the log arrived.
      What the other streams send does not matter. */
  lemma DisorderNeedsStall(r: Run, a: nat, b: nat)
    requires IsRun(r) && a < b < |Last(r).output|
    requires Last(r).output[b].Forwarded? && OrderedInput(Last(r), Last(r).output[b].item.origin)
    requires 0 < OutStamp(Last(r).output[b]) < OutStamp(Last(r).output[a])
    ensures var item := Last(r).output[b].item;
            item.afterStall && item.origin < |Last(r).streams| && 0 < Last(r).streams[item.origin].marks
  {
    RunOrder(r, |r.states| - 1, Last(r).output[b].item.origin);
    assert OutOfOrder(Last(r).output[a], Last(r).output[b]);
  }

  ghost predicate NoStalls(s: State) {
    forall i :: 0 <= i < |s.streams| ==> s.streams[i].marks == 0
  }

  /** In a part of the output that is in order, the last timestamp is the largest. */
  lemma {:induction false} LastStampIsLargest(output: seq<Out>)
    requires Ordered(Entries(output))
    ensures forall a :: 0 <= a < |output| ==> OutStamp(output[a]) <= LastStamp(output)
  {
    if output != [] {
      var init := output[..|output| - 1];
      assert Entries(init) == Entries(output)[..|output| - 1];
      PrefixOrdered(Entries(init), Entries(output));
      LastStampIsLargest(init);
      assert Entries(output)[|output| - 1] == OutEntry(output[|output| - 1]);
      forall a | 0 <= a < |output|
        ensures OutStamp(output[a]) <= LastStamp(output)
      {
        assert Entries(output)[a] == OutEntry(output[a]);
        assert a < |init| ==> output[a] == init[a];
      }
    }
  }

  /** The output is not out of order with any earlier one and, if it is a heartbeat, is debounced. */
  ghost predicate UndisturbedAt(output: seq<Out>, b: nat)
    requires b < |output|
  {
    && (forall a :: 0 <= a < b ==> !OutOfOrder(output[a], output[b]))
    && (output[b].OwnHeartbeat? ==> LastStamp(output[..b]) <= OutStamp(output[b]))
  }

  ghost predicate Undisturbed(output: seq<Out>) {
    forall b :: 0 <= b < |output| ==> UndisturbedAt(output, b)
  }

  lemma NoStallsUndisturbed(s: State, b: nat)
    requires Tidy(s) && NoStalls(s) && b < |s.output|
    requires s.output[b].Forwarded? ==> Order(s, s.output[b].item.origin)
    ensures UndisturbedAt(s.output, b)
  {
    if s.output[b].Forwarded? {
      assert !s.output[b].item.afterStall;
    }
  }

  lemma {:induction false} OutputPrefixOrdered(output: seq<Out>, k: nat)
    requires Undisturbed(output) && k <= |output|
    ensures Ordered(Entries(output[..k]))
  {
    if k > 0 {
      var init, last := output[..k - 1], output[k - 1];
      OutputPrefixOrdered(output, k - 1);
      LastStampIsLargest(init);
      assert UndisturbedAt(output, k - 1);
      NextInOrder(output, k - 1);
      AppendOrdered(init, last);
      assert output[..k] == init + [last];
    }
  }

  /** Undisturbed, an output is in order with every earlier one. */
  lemma NextInOrder(output: seq<Out>, b: nat)
    requires b < |output| && UndisturbedAt(output, b)
    requires forall a :: 0 <= a < b ==> OutStamp(output[..b][a]) <= LastStamp(output[..b])
    ensures 0 < OutStamp(output[b]) ==> forall a :: 0 <= a < b ==> OutStamp(output[..b][a]) <= OutStamp(output[b])
  {
    forall a | 0 <= a < b && 0 < OutStamp(output[b])
      ensures OutStamp(output[..b][a]) <= OutStamp(output[b])
    {
      assert !OutOfOrder(output[a], output[b]);
    }
  }

  /** An output that is no earlier than any before it, or has no timestamp, keeps the order. */
  lemma AppendOrdered(init: seq<Out>, o: Out)
    requires Ordered(Entries(init))
    requires 0 < OutStamp(o) ==> forall a :: 0 <= a < |init| ==> OutStamp(init[a]) <= OutStamp(o)
    ensures Ordered(Entries(init + [o]))
  {
    assert Entries(init + [o]) == Entries(init) + [OutEntry(o)];
  }

  /** The merged stream is in order if every input is and no stream was marked
      stalled, for every interleaving and with the final flush included. */
  lemma MergeIsOrdered(r: Run)
    requires IsRun(r) && OrderedInputs(Last(r)) && NoStalls(Last(r))
    ensures Ordered(Entries(Last(r).output))
  {
    RunFlow(r, |r.states| - 1);
    forall b | 0 <= b < |Last(r).output|
      ensures UndisturbedAt(Last(r).output, b)
    {
      if Last(r).output[b].Forwarded? {
        RunOrder(r, |r.states| - 1, Last(r).output[b].item.origin);
      }
      NoStallsUndisturbed(Last(r), b);
    }
    OutputPrefixOrdered(Last(r).output, |Last(r).output|);
    assert Last(r).output[..|Last(r).output|] == Last(r).output;
  }

  /** A tree of mergers: the merged output of each child is the input of its parent. */
  datatype Tree = Source(entries: seq<Entry>) | Merge(children: seq<Tree>, run: Run)

  ghost function TreeOutput(t: Tree): seq<Entry> {
    match t
    case Source(entries) => entries
    case Merge(_, run) => if IsRun(run) then Entries(Last(run).output) else []
  }

  /** Sources are in order, and each merger has read some prefix of what its children sent. */
  ghost predicate WellConnected(t: Tree) {
    match t
    case Source(entries) => Ordered(entries)
    case Merge(children, run) =>
      && IsRun(run) && run.streams == |children| == |Last(run).streams| && NoStalls(Last(run))
      && (forall i :: 0 <= i < |children| ==> Last(run).streams[i].input <= TreeOutput(children[i]))
      && (forall i :: 0 <= i < |children| ==> WellConnected(children[i]))
  }

  /** However mergers are nested, the stream that comes out on top is in order. */
  lemma {:induction false} NestedMergeIsOrdered(t: Tree)
    requires WellConnected(t)
    ensures Ordered(TreeOutput(t))
  {
    if t.Merge? {
      forall i | 0 <= i < |t.children|
        ensures Ordered(Last(t.run).streams[i].input)
      {
        NestedMergeIsOrdered(t.children[i]);
        PrefixOrdered(Last(t.run).streams[i].input, TreeOutput(t.children[i]));
      }
      MergeIsOrdered(t.run);
    }
  }
}
