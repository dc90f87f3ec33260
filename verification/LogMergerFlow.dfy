/** What flows through the merger, for any inputs and any interleaving: nothing
    is lost, duplicated or made up, and buffering is bounded. */
module LogMergerFlow {
  import opened Collections
  import opened LogEntries
  import opened LogMerger

  // ---- What is counted ----

  /** Everything but heartbeats: what must reach the output. */
  function Content(input: seq<Entry>): seq<Entry> {
    if input == [] then []
    else Content(input[..|input| - 1]) +
         (if input[|input| - 1].Heartbeat? then [] else [input[|input| - 1]])
  }

  /** The queued or passed-on entries among the outputs. */
  function Items(output: seq<Out>): seq<Item> {
    if output == [] then []
    else Items(output[..|output| - 1]) +
         (if output[|output| - 1].Forwarded? then [output[|output| - 1].item] else [])
  }

  function NoticeCount(output: seq<Out>, i: nat): nat {
    if output == [] then 0
    else NoticeCount(output[..|output| - 1], i) +
         (if output[|output| - 1].StallNotice? && output[|output| - 1].origin == i then 1 else 0)
  }

  /** Timestamp of the latest output that has one, 0 if there is none. */
  function LastStamp(output: seq<Out>): nat {
    if output == [] then 0
    else if 0 < OutStamp(output[|output| - 1]) then OutStamp(output[|output| - 1])
    else LastStamp(output[..|output| - 1])
  }

  lemma {:induction false} OfOriginConcat(a: seq<Item>, b: seq<Item>, i: nat)
    ensures OfOrigin(a + b, i) == OfOrigin(a, i) + OfOrigin(b, i)
  {
    if a == [] {
      assert a + b == b;
    } else {
      OfOriginConcat(a[1..], b, i);
      assert (a + b)[1..] == a[1..] + b && (a + b)[0] == a[0];
      var first := [a[0].entry];
      assert first + (OfOrigin(a[1..], i) + OfOrigin(b, i)) == first + OfOrigin(a[1..], i) + OfOrigin(b, i);
    }
  }

  /** Which entries an origin has does not depend on how the heap lays them out. */
  lemma {:induction false} OfOriginPermutes(a: seq<Item>, b: seq<Item>, i: nat)
    requires multiset(a) == multiset(b)
    ensures multiset(OfOrigin(a, i)) == multiset(OfOrigin(b, i))
  {
    if a == [] {
      assert multiset(b) == multiset{};
      assert b == [];
    } else {
      assert a[0] in multiset(b);
      var k :| 0 <= k < |b| && b[k] == a[0];
      MatchHeads(a, b, k);
      OfOriginPermutes(a[1..], b[..k] + b[k + 1..], i);
      OfOriginInsert(b[..k], b[k], b[k + 1..], i);
      OfOriginInsert([], a[0], a[1..], i);
      assert b == b[..k] + ([b[k]] + b[k + 1..]);
      assert [] + ([a[0]] + a[1..]) == a && [] + a[1..] == a[1..];
    }
  }

  lemma MatchHeads(a: seq<Item>, b: seq<Item>, k: nat)
    requires multiset(a) == multiset(b) && a != [] && k < |b| && b[k] == a[0]
    ensures multiset(a[1..]) == multiset(b[..k] + b[k + 1..])
  {
    RemoveAt(a, 0);
    RemoveAt(b, k);
    assert a[..0] + a[1..] == a[1..];
    Cancel(multiset(a[1..]), multiset(b[..k] + b[k + 1..]), a[0]);
  }

  lemma OfOriginInsert(a: seq<Item>, x: Item, b: seq<Item>, i: nat)
    ensures multiset(OfOrigin(a + ([x] + b), i))
         == multiset(OfOrigin(a + b, i)) + (if x.origin == i then multiset{x.entry} else multiset{})
  {
    OfOriginConcat(a, [x] + b, i);
    OfOriginConcat([x], b, i);
    OfOriginConcat(a, b, i);
  }

  lemma OfOriginSplits(queue: seq<Item>, emitted: seq<Item>, rest: seq<Item>, i: nat)
    requires multiset(queue) == multiset(emitted) + multiset(rest)
    ensures multiset(OfOrigin(queue, i)) == multiset(OfOrigin(emitted, i)) + multiset(OfOrigin(rest, i))
    ensures |OfOrigin(queue, i)| == |OfOrigin(emitted, i)| + |OfOrigin(rest, i)|
  {
    assert multiset(emitted + rest) == multiset(queue);
    OfOriginPermutes(queue, emitted + rest, i);
    OfOriginConcat(emitted, rest, i);
    assert |multiset(OfOrigin(queue, i))| == |multiset(OfOrigin(emitted + rest, i))|;
  }

  lemma {:induction false} ItemsOfForward(output: seq<Out>, emitted: seq<Item>)
    ensures Items(output + Forward(emitted)) == Items(output) + emitted
  {
    if emitted == [] {
      assert output + Forward(emitted) == output;
    } else {
      var init := emitted[..|emitted| - 1];
      assert (output + Forward(emitted))[..|output| + |emitted| - 1] == output + Forward(init);
      ItemsOfForward(output, init);
      assert emitted == init + [emitted[|emitted| - 1]];
    }
  }

  lemma {:induction false} ForwardHasNoNotices(output: seq<Out>, emitted: seq<Item>, i: nat)
    ensures NoticeCount(output + Forward(emitted), i) == NoticeCount(output, i)
  {
    if emitted == [] {
      assert output + Forward(emitted) == output;
    } else {
      var init := emitted[..|emitted| - 1];
      assert (output + Forward(emitted))[..|output| + |emitted| - 1] == output + Forward(init);
      ForwardHasNoNotices(output, init, i);
    }
  }

  /** A stall check adds one notice for each stream it marks and nothing else. */
  lemma {:induction false} NoticesCount(output: seq<Out>, streams: seq<Stream>, now: nat, timeout: nat, n: nat, i: nat)
    requires n <= |streams|
    ensures NoticeCount(output + Notices(streams, now, timeout, n), i)
         == NoticeCount(output, i) + (if i < n && Stalls(streams[i], now, timeout) then 1 else 0)
  {
    if n == 0 {
      assert output + Notices(streams, now, timeout, 0) == output;
    } else {
      NoticesCount(output, streams, now, timeout, n - 1, i);
      NoticesGrow(output, streams, now, timeout, n);
    }
  }

  lemma NoticesGrow(output: seq<Out>, streams: seq<Stream>, now: nat, timeout: nat, n: nat)
    requires 0 < n <= |streams|
    ensures var out := output + Notices(streams, now, timeout, n);
            var init := output + Notices(streams, now, timeout, n - 1);
            if Stalls(streams[n - 1], now, timeout)
            then out != [] && out[..|out| - 1] == init && out[|out| - 1].StallNotice? && out[|out| - 1].origin == n - 1
            else out == init
  {
  }

  lemma {:induction false} NoticesCarryNothing(output: seq<Out>, streams: seq<Stream>, now: nat, timeout: nat, n: nat)
    requires n <= |streams|
    ensures var out := output + Notices(streams, now, timeout, n);
            Items(out) == Items(output) && LastStamp(out) == LastStamp(output)
  {
    if n == 0 {
      assert output + Notices(streams, now, timeout, 0) == output;
    } else {
      NoticesCarryNothing(output, streams, now, timeout, n - 1);
      NoticesGrow(output, streams, now, timeout, n);
      if Stalls(streams[n - 1], now, timeout) {
        NoticeCarriesNothing(output + Notices(streams, now, timeout, n),
                             output + Notices(streams, now, timeout, n - 1));
      }
    }
  }

  lemma {:induction false} NoticeCarriesNothing(out: seq<Out>, init: seq<Out>)
    requires out != [] && out[|out| - 1].StallNotice? && out[..|out| - 1] == init
    ensures Items(out) == Items(init) && LastStamp(out) == LastStamp(init)
  {
  }

  lemma {:induction false} LastStampSent(output: seq<Out>, emitted: seq<Item>)
    requires forall k :: 0 <= k < |emitted| ==> 0 < Stamp(emitted[k].entry)
    ensures LastStamp(output + Forward(emitted))
         == if emitted == [] then LastStamp(output) else Stamp(emitted[|emitted| - 1].entry)
  {
    if emitted == [] {
      assert output + Forward(emitted) == output;
    } else {
      assert (output + Forward(emitted))[|output| + |emitted| - 1] == Forwarded(emitted[|emitted| - 1]);
    }
  }

  // ---- The invariant ----

  /** The books of one stream: `queued` and `passed` are its entries in the
      queue and on the output, and `held` says that the heartbeat just delivered
      still has its slot. */
  ghost predicate Balanced(x: Stream, queued: seq<Entry>, passed: seq<Entry>, notices: nat, held: bool) {
    && x.slots == |queued| + (if x.pending.Some? then 1 else 0) + (if held then 1 else 0)
    && x.slots <= MAX_IN_FLIGHT
    && (x.pending.Some? ==> x.input != [] && x.input[|x.input| - 1] == x.pending.value)
    && multiset(Content(if x.pending.Some? then x.input[..|x.input| - 1] else x.input))
       == multiset(queued) + multiset(passed)
    && notices == x.marks
    && (x.closed ==> x.pending.None?)
  }

  ghost predicate FlowAt(s: State, i: nat, held: int)
    requires i < |s.streams|
  {
    Balanced(s.streams[i], OfOrigin(s.queue, i), OfOrigin(Items(s.output), i), NoticeCount(s.output, i), i == held)
  }

  ghost predicate QueueLogs(n: nat, queue: seq<Item>) {
    forall k :: 0 <= k < |queue| ==> queue[k].origin < n && queue[k].entry.Log? && 0 < queue[k].entry.ts
  }

  /** The merger's own heartbeats come at least one interval after whatever was sent before. */
  ghost predicate BeatsDebounced(output: seq<Out>) {
    forall b :: 0 <= b < |output| && output[b].OwnHeartbeat? ==>
      LastStamp(output[..b]) + HEARTBEAT_INTERVAL <= OutStamp(output[b])
  }

  /** `held` is the stream whose heartbeat still holds a slot, or -1. */
  ghost predicate Flow(s: State, held: int) {
    forall i :: 0 <= i < |s.streams| ==> FlowAt(s, i, held)
  }

  /** The queue holds timestamped logs that their streams have been seen past. */
  ghost predicate Tidy(s: State) {
    && QueueLogs(|s.streams|, s.queue)
    && (forall k :: 0 <= k < |s.queue| && s.queue[k].origin < |s.streams| ==>
          Stamp(s.queue[k].entry) <= s.streams[s.queue[k].origin].lastSeen)
    && BeatsDebounced(s.output) && (!s.done ==> s.lastEmitted == LastStamp(s.output))
  }

  /** Everything at or below the watermark has been sent. */
  ghost predicate Settled(s: State) {
    forall k :: 0 <= k < |s.queue| ==> s.watermark < Stamp(s.queue[k].entry)
  }

  lemma BeatsStay(output: seq<Out>, more: seq<Out>)
    requires BeatsDebounced(output) && forall k :: 0 <= k < |more| ==> !more[k].OwnHeartbeat?
    ensures BeatsDebounced(output + more)
  {
    var all := output + more;
    forall b | 0 <= b < |all| && all[b].OwnHeartbeat?
      ensures LastStamp(all[..b]) + HEARTBEAT_INTERVAL <= OutStamp(all[b])
    {
      assert all[..b] == output[..b];
    }
  }

  // ---- Each piece of the loop keeps the books ----

  lemma ContentStep(input: seq<Entry>, e: Entry)
    requires input != [] && input[|input| - 1] == e
    ensures multiset(Content(input)) == multiset(Content(input[..|input| - 1]))
            + (if e.Heartbeat? then multiset{} else multiset{e})
  {
  }

  lemma ReadFlow(s: State, i: nat, e: Entry)
    requires Flow(s, -1) && i < |s.streams| && !s.streams[i].closed && s.streams[i].pending.None?
    requires s.streams[i].slots < MAX_IN_FLIGHT
    ensures Flow(SetStream(s, i, s.streams[i].(slots := s.streams[i].slots + 1, pending := Some(e),
                                               input := s.streams[i].input + [e])), -1)
  {
    var x := s.streams[i];
    var t := SetStream(s, i, x.(slots := x.slots + 1, pending := Some(e), input := x.input + [e]));
    assert (x.input + [e])[..|x.input|] == x.input;
    forall k | 0 <= k < |s.streams|
      ensures FlowAt(t, k, -1)
    {
      assert FlowAt(s, k, -1);
    }
  }

  lemma AppendItem(items: seq<Item>, x: Item, i: nat)
    ensures x.origin == i ==> OfOrigin(items + [x], i) == OfOrigin(items, i) + [x.entry]
    ensures x.origin != i ==> OfOrigin(items + [x], i) == OfOrigin(items, i)
  {
    OfOriginConcat(items, [x], i);
    assert OfOrigin([x], i) == if x.origin == i then [x.entry] else [];
    assert OfOrigin(items, i) + [] == OfOrigin(items, i);
  }

  lemma AppendOut(output: seq<Out>, o: Out, i: nat)
    requires !o.StallNotice?
    ensures NoticeCount(output + [o], i) == NoticeCount(output, i)
    ensures OfOrigin(Items(output + [o]), i)
         == if o.Forwarded? && o.item.origin == i then OfOrigin(Items(output), i) + [o.item.entry]
            else OfOrigin(Items(output), i)
  {
    assert (output + [o])[..|output|] == output;
    if o.Forwarded? {
      AppendItem(Items(output), o.item, i);
    } else {
      assert Items(output) + [] == Items(output);
    }
  }

  /** A delivered log or error leaves `pending` and shows up in exactly one place. */
  lemma BalancedDeliver(x: Stream, queued: seq<Entry>, passed: seq<Entry>, notices: nat, now: nat, e: Entry)
    requires Balanced(x, queued, passed, notices, false) && x.pending == Some(e)
    ensures !e.Heartbeat? ==>
              Balanced(Touch(x, now, e.meta).(slots := x.slots - 1), queued, passed + [e], notices, false)
    ensures e.Log? ==> Balanced(Seen(Touch(x, now, e.meta), e.ts), queued + [e], passed, notices, false)
    ensures e.Heartbeat? ==> Balanced(Seen(Touch(x, now, e.meta), e.ts), queued, passed, notices, true)
  {
    ContentStep(x.input, e);
  }

  lemma PassOnFlow(s: State, i: nat, now: nat, e: Entry)
    requires Flow(s, -1) && i < |s.streams| && s.streams[i].pending == Some(e) && Unplaced(e)
    ensures Flow(PassOn(s, i, now, e), -1)
  {
    var t := PassOn(s, i, now, e);
    var item := Item(i, e, 0 < s.streams[i].marks);
    forall k | 0 <= k < |s.streams|
      ensures FlowAt(t, k, -1)
    {
      assert FlowAt(s, k, -1);
      AppendOut(s.output, Forwarded(item), k);
      if k == i {
        BalancedDeliver(s.streams[i], OfOrigin(s.queue, i), OfOrigin(Items(s.output), i),
                        NoticeCount(s.output, i), now, e);
      }
    }
  }

  lemma EnqueueFlow(s: State, i: nat, now: nat, e: Entry)
    requires Flow(s, -1) && i < |s.streams| && s.streams[i].pending == Some(e) && e.Log?
    ensures Flow(Enqueue(s, i, now, e), -1)
  {
    var t := Enqueue(s, i, now, e);
    forall k | 0 <= k < |s.streams|
      ensures FlowAt(t, k, -1)
    {
      assert FlowAt(s, k, -1);
      AppendItem(s.queue, Item(i, e, 0 < s.streams[i].marks), k);
      if k == i {
        BalancedDeliver(s.streams[i], OfOrigin(s.queue, i), OfOrigin(Items(s.output), i),
                        NoticeCount(s.output, i), now, e);
      }
    }
  }

  lemma NoteBeatFlow(s: State, i: nat, now: nat, e: Entry)
    requires Flow(s, -1) && i < |s.streams| && s.streams[i].pending == Some(e) && e.Heartbeat?
    ensures Flow(NoteBeat(s, i, now, e), i)
  {
    var t := NoteBeat(s, i, now, e);
    forall k | 0 <= k < |s.streams|
      ensures FlowAt(t, k, i)
    {
      assert FlowAt(s, k, -1);
      if k == i {
        BalancedDeliver(s.streams[i], OfOrigin(s.queue, i), OfOrigin(Items(s.output), i),
                        NoticeCount(s.output, i), now, e);
      }
    }
  }

  lemma CloseFlow(s: State, i: nat, now: nat)
    requires Flow(s, -1) && i < |s.streams| && s.streams[i].pending.None?
    ensures Flow(SetStream(s, i, Touch(s.streams[i], now, "").(closed := true)), -1)
  {
    var t := SetStream(s, i, Touch(s.streams[i], now, "").(closed := true));
    forall k | 0 <= k < |s.streams|
      ensures FlowAt(t, k, -1)
    {
      assert FlowAt(s, k, -1);
    }
  }

  lemma MarkFlow(s: State, now: nat, timeout: nat)
    requires Flow(s, -1)
    ensures Flow(Mark(s, now, timeout), -1)
  {
    var t := Mark(s, now, timeout);
    NoticesCarryNothing(s.output, s.streams, now, timeout, |s.streams|);
    forall k | 0 <= k < |s.streams|
      ensures FlowAt(t, k, -1)
    {
      assert FlowAt(s, k, -1);
      NoticesCount(s.output, s.streams, now, timeout, |s.streams|, k);
    }
  }

  /** Sending part of the queue moves entries and slots, and creates nothing. */
  lemma SendFlow(s: State, t: State, held: int, emitted: seq<Item>)
    requires Flow(s, held) && multiset(s.queue) == multiset(emitted) + multiset(t.queue)
    requires t.streams == FreeSlots(s.streams, emitted) && t.output == s.output + Forward(emitted)
    ensures Flow(t, held)
  {
    ItemsOfForward(s.output, emitted);
    forall k | 0 <= k < |s.streams|
      ensures FlowAt(t, k, held)
    {
      assert FlowAt(s, k, held);
      OfOriginSplits(s.queue, emitted, t.queue, k);
      OfOriginConcat(Items(s.output), emitted, k);
      ForwardHasNoNotices(s.output, emitted, k);
      SendBalanced(s.streams[k], OfOrigin(s.queue, k), OfOrigin(Items(s.output), k),
                   NoticeCount(s.output, k), k == held,
                   OfOrigin(emitted, k), OfOrigin(t.queue, k));
    }
  }

  /** Entries that are sent leave the queue and free their slots. */
  lemma SendBalanced(x: Stream, queued: seq<Entry>, passed: seq<Entry>, notices: nat, held: bool,
                     sent: seq<Entry>, left: seq<Entry>)
    requires Balanced(x, queued, passed, notices, held)
    requires multiset(queued) == multiset(sent) + multiset(left) && |queued| == |sent| + |left|
    ensures Balanced(x.(slots := x.slots - |sent|), left, passed + sent, notices, held)
  {
    assert multiset(passed + sent) == multiset(passed) + multiset(sent);
  }

  lemma FreeHeld(s: State, i: nat)
    requires Flow(s, i) && i < |s.streams|
    ensures Flow(SetStream(s, i, s.streams[i].(slots := s.streams[i].slots - 1)), -1)
  {
    var t := SetStream(s, i, s.streams[i].(slots := s.streams[i].slots - 1));
    forall k | 0 <= k < |s.streams|
      ensures FlowAt(t, k, -1)
    {
      assert FlowAt(s, k, i);
    }
  }

  lemma BeatFlow(s: State, i: nat, e: Entry)
    requires Flow(s, i) && i < |s.streams| && e.Heartbeat?
    ensures Flow(Beat(s, i, e), -1)
  {
    FreeHeld(s, i);
    var free := SetStream(s, i, s.streams[i].(slots := s.streams[i].slots - 1));
    var t := Beat(s, i, e);
    forall k | 0 <= k < |s.streams|
      ensures FlowAt(t, k, -1)
    {
      assert FlowAt(free, k, -1);
      AppendOut(s.output, OwnHeartbeat(Heartbeat(s.watermark, e.meta)), k);
    }
  }

  lemma CanSettleSplits(s: State, c: Choice)
    requires CanSettle(s, c)
    ensures multiset(s.queue) == multiset(c.emitted) + multiset(c.rest)
  {
  }

  lemma StepFlow(timeout: nat, s: State, ev: Event, s': State)
    requires Flow(s, -1) && Next(timeout, s, ev, s')
    ensures Flow(s', -1)
  {
    match ev
    case Read(i, e) => ReadFlow(s, i, e);
    case Deliver(i, now, c) =>
      var e := s.streams[i].pending.value;
      if Unplaced(e) {
        PassOnFlow(s, i, now, e);
      } else if e.Log? {
        EnqueueFlow(s, i, now, e);
        CanSettleSplits(Enqueue(s, i, now, e), c);
        SendFlow(Enqueue(s, i, now, e), s', -1, c.emitted);
      } else {
        NoteBeatFlow(s, i, now, e);
        CanSettleSplits(NoteBeat(s, i, now, e), c);
        SendFlow(NoteBeat(s, i, now, e), Settle(NoteBeat(s, i, now, e), c), i, c.emitted);
        BeatFlow(Settle(NoteBeat(s, i, now, e), c), i, e);
      }
    case Close(i, now, c) =>
      var t := SetStream(s, i, Touch(s.streams[i], now, "").(closed := true));
      CloseFlow(s, i, now);
      CanSettleSplits(t, c);
      SendFlow(t, s', -1, c.emitted);
    case StallCheck(now, c) =>
      if s' != s {
        MarkFlow(s, now, timeout);
        CanSettleSplits(Mark(s, now, timeout), c);
        SendFlow(Mark(s, now, timeout), s', -1, c.emitted);
      }
    case Flush(emitted) =>
      assert multiset(s.queue) == multiset(emitted) + multiset(s'.queue);
      SendFlow(s, s', -1, emitted);
  }

  // ---- The queue and the heartbeats ----

  lemma PartOfQueue(n: nat, queue: seq<Item>, emitted: seq<Item>, rest: seq<Item>)
    requires QueueLogs(n, queue) && multiset(queue) == multiset(emitted) + multiset(rest)
    ensures QueueLogs(n, emitted) && QueueLogs(n, rest)
    ensures forall k :: 0 <= k < |rest| ==> rest[k] in queue
  {
    assert forall x :: x in multiset(queue) ==> x in queue;
    assert forall k :: 0 <= k < |emitted| ==> emitted[k] in multiset(emitted) && emitted[k] in multiset(queue);
    assert forall k :: 0 <= k < |rest| ==> rest[k] in multiset(rest) && rest[k] in multiset(queue);
  }

  lemma SettleTidy(s: State, c: Choice)
    requires Tidy(s) && CanSettle(s, c) && !s.done
    ensures Tidy(Settle(s, c)) && Settled(Settle(s, c))
  {
    CanSettleSplits(s, c);
    PartOfQueue(|s.streams|, s.queue, c.emitted, c.rest);
    LastStampSent(s.output, c.emitted);
    BeatsStay(s.output, Forward(c.emitted));
  }

  lemma StreamTidy(s: State, i: nat, x: Stream)
    requires Tidy(s) && i < |s.streams| && s.streams[i].lastSeen <= x.lastSeen
    ensures Tidy(SetStream(s, i, x))
  {
  }

  lemma EnqueueTidy(s: State, i: nat, now: nat, e: Entry)
    requires Tidy(s) && i < |s.streams| && e.Log? && 0 < e.ts
    ensures Tidy(Enqueue(s, i, now, e))
  {
    StreamTidy(s, i, Seen(Touch(s.streams[i], now, e.meta), e.ts));
  }

  lemma PassOnTidy(s: State, i: nat, now: nat, e: Entry)
    requires Tidy(s) && i < |s.streams| && Unplaced(e)
    ensures Tidy(PassOn(s, i, now, e))
  {
    var more := [Forwarded(Item(i, e, 0 < s.streams[i].marks))];
    assert (s.output + more)[..|s.output|] == s.output;
    BeatsStay(s.output, more);
  }

  lemma MarkTidy(s: State, now: nat, timeout: nat)
    requires Tidy(s)
    ensures Tidy(Mark(s, now, timeout))
  {
    NoticesCarryNothing(s.output, s.streams, now, timeout, |s.streams|);
    NoticesAreNotices(s.streams, now, timeout, |s.streams|);
    BeatsStay(s.output, Notices(s.streams, now, timeout, |s.streams|));
  }

  lemma {:induction false} NoticesAreNotices(streams: seq<Stream>, now: nat, timeout: nat, n: nat)
    requires n <= |streams|
    ensures forall k :: 0 <= k < |Notices(streams, now, timeout, n)| ==>
              Notices(streams, now, timeout, n)[k].StallNotice?
  {
    if n > 0 {
      NoticesAreNotices(streams, now, timeout, n - 1);
    }
  }

  lemma BeatTidy(s: State, i: nat, e: Entry)
    requires Tidy(s) && i < |s.streams| && e.Heartbeat? && !s.done
    ensures Tidy(Beat(s, i, e))
  {
    if s.watermark - s.lastEmitted >= HEARTBEAT_INTERVAL {
      AppendDebounced(s.output, OwnHeartbeat(Heartbeat(s.watermark, e.meta)));
    }
  }

  lemma AppendDebounced(output: seq<Out>, o: Out)
    requires BeatsDebounced(output) && LastStamp(output) + HEARTBEAT_INTERVAL <= OutStamp(o)
    ensures BeatsDebounced(output + [o]) && LastStamp(output + [o]) == OutStamp(o)
  {
    var all := output + [o];
    forall b | 0 <= b < |all| && all[b].OwnHeartbeat?
      ensures LastStamp(all[..b]) + HEARTBEAT_INTERVAL <= OutStamp(all[b])
    {
      assert all[..b] == output[..b];
      assert output[..|output|] == output;
    }
  }

  lemma DeliverTidy(timeout: nat, s: State, i: nat, now: nat, c: Choice, s': State)
    requires Tidy(s) && Settled(s) && Next(timeout, s, Deliver(i, now, c), s')
    ensures Tidy(s') && Settled(s')
  {
    var e := s.streams[i].pending.value;
    if Unplaced(e) {
      PassOnTidy(s, i, now, e);
    } else if e.Log? {
      EnqueueTidy(s, i, now, e);
      SettleTidy(Enqueue(s, i, now, e), c);
    } else {
      StreamTidy(s, i, Seen(Touch(s.streams[i], now, e.meta), e.ts));
      SettleTidy(NoteBeat(s, i, now, e), c);
      BeatTidy(Settle(NoteBeat(s, i, now, e), c), i, e);
    }
  }

  lemma FlushTidy(s: State, emitted: seq<Item>, s': State)
    requires Tidy(s) && multiset(emitted) == multiset(s.queue)
    requires s' == s.(queue := [], streams := FreeSlots(s.streams, emitted), done := true,
                      output := s.output + Forward(emitted))
    ensures Tidy(s') && Settled(s')
  {
    BeatsStay(s.output, Forward(emitted));
  }

  lemma StepTidy(timeout: nat, s: State, ev: Event, s': State)
    requires Tidy(s) && Settled(s) && Next(timeout, s, ev, s')
    ensures Tidy(s') && Settled(s')
  {
    match ev
    case Read(i, e) => StreamTidy(s, i, s'.streams[i]);
    case Deliver(i, now, c) => DeliverTidy(timeout, s, i, now, c, s');
    case Close(i, now, c) =>
      StreamTidy(s, i, Touch(s.streams[i], now, "").(closed := true));
      SettleTidy(SetStream(s, i, Touch(s.streams[i], now, "").(closed := true)), c);
    case StallCheck(now, c) =>
      if s' != s {
        MarkTidy(s, now, timeout);
        SettleTidy(Mark(s, now, timeout), c);
      }
    case Flush(emitted) => FlushTidy(s, emitted, s');
  }

  // ---- Where outputs come from ----

  /** An entry of one of n streams, a notice about one of them, or a heartbeat of the merger's own. */
  predicate Genuine(n: nat, o: Out) {
    match o
    case Forwarded(item) => item.origin < n
    case OwnHeartbeat(beat) => beat.Heartbeat?
    case StallNotice(origin, _) => origin < n
  }

  ghost predicate AllGenuine(n: nat, output: seq<Out>) {
    forall k :: 0 <= k < |output| ==> Genuine(n, output[k])
  }

  lemma {:induction false} NoticesGenuine(streams: seq<Stream>, now: nat, timeout: nat, n: nat)
    requires n <= |streams|
    ensures AllGenuine(|streams|, Notices(streams, now, timeout, n))
  {
    if n > 0 {
      NoticesGenuine(streams, now, timeout, n - 1);
    }
  }

  lemma SentGenuine(n: nat, output: seq<Out>, queue: seq<Item>, emitted: seq<Item>, rest: seq<Item>)
    requires AllGenuine(n, output) && QueueLogs(n, queue)
    requires multiset(queue) == multiset(emitted) + multiset(rest)
    ensures AllGenuine(n, output + Forward(emitted))
  {
    PartOfQueue(n, queue, emitted, rest);
  }

  lemma SettleGenuine(s: State, c: Choice)
    requires AllGenuine(|s.streams|, s.output) && QueueLogs(|s.streams|, s.queue) && CanSettle(s, c)
    ensures AllGenuine(|s.streams|, Settle(s, c).output)
  {
    CanSettleSplits(s, c);
    SentGenuine(|s.streams|, s.output, s.queue, c.emitted, c.rest);
  }

  lemma DeliverGenuine(timeout: nat, s: State, i: nat, now: nat, c: Choice, s': State)
    requires AllGenuine(|s.streams|, s.output) && QueueLogs(|s.streams|, s.queue)
    requires Next(timeout, s, Deliver(i, now, c), s')
    ensures AllGenuine(|s'.streams|, s'.output)
  {
    var e := s.streams[i].pending.value;
    if !Unplaced(e) {
      SettleGenuine(if e.Log? then Enqueue(s, i, now, e) else NoteBeat(s, i, now, e), c);
    }
  }

  /** No event outputs anything that did not come from a stream, except heartbeats and stall notices. */
  lemma StepGenuine(timeout: nat, s: State, ev: Event, s': State)
    requires AllGenuine(|s.streams|, s.output) && QueueLogs(|s.streams|, s.queue) && Next(timeout, s, ev, s')
    ensures AllGenuine(|s'.streams|, s'.output)
  {
    match ev
    case Read(_, _) =>
    case Deliver(i, now, c) => DeliverGenuine(timeout, s, i, now, c, s');
    case Close(i, now, c) =>
      SettleGenuine(SetStream(s, i, Touch(s.streams[i], now, "").(closed := true)), c);
    case StallCheck(now, c) =>
      if s' != s {
        NoticesGenuine(s.streams, now, timeout, |s.streams|);
        SettleGenuine(Mark(s, now, timeout), c);
      }
    case Flush(emitted) =>
      assert multiset(s.queue) == multiset(emitted) + multiset([]);
      SentGenuine(|s.streams|, s.output, s.queue, emitted, []);
  }

  lemma {:induction false} RunGenuine(r: Run, k: nat)
    requires IsRun(r) && k < |r.states|
    ensures AllGenuine(r.streams, r.states[k].output)
  {
    RunFlow(r, k);
    if k > 0 {
      RunFlow(r, k - 1);
      RunGenuine(r, k - 1);
      StepGenuine(r.timeout, r.states[k - 1], r.events[k - 1], r.states[k]);
    }
  }

  // ---- Whole runs ----

  lemma StepWidth(timeout: nat, s: State, ev: Event, s': State)
    requires Next(timeout, s, ev, s')
    ensures |s'.streams| == |s.streams|
  {
  }

  lemma {:induction false} RunFlow(r: Run, k: nat)
    requires IsRun(r) && k < |r.states|
    ensures |r.states[k].streams| == r.streams
    ensures Flow(r.states[k], -1) && Tidy(r.states[k]) && Settled(r.states[k])
  {
    if k > 0 {
      RunFlow(r, k - 1);
      var s, ev, s' := r.states[k - 1], r.events[k - 1], r.states[k];
      StepWidth(r.timeout, s, ev, s');
      StepFlow(r.timeout, s, ev, s');
      StepTidy(r.timeout, s, ev, s');
    } else {
      InitFlow(r.streams, r.startedAt, r.states[0]);
    }
  }

  lemma InitFlow(n: nat, now: nat, s: State)
    requires Init(n, now, s)
    ensures |s.streams| == n && Flow(s, -1) && Tidy(s) && Settled(s)
  {
    forall i | 0 <= i < n
      ensures FlowAt(s, i, -1)
    {
      assert s.streams[i] == NewStream(now);
    }
  }

  // ---- Main results ----

  /** Once the output is closed, every log and error read from an input has been
      output exactly once, each stream has as many stall notices as stalls, and
      every output is one of these or a heartbeat of the merger's own. */
  lemma Conservation(r: Run)
    requires IsRun(r) && Last(r).done
    ensures |Last(r).streams| == r.streams && AllGenuine(r.streams, Last(r).output)
    ensures forall i :: 0 <= i < r.streams ==>
              multiset(OfOrigin(Items(Last(r).output), i)) == multiset(Content(Last(r).streams[i].input))
    ensures forall i :: 0 <= i < r.streams ==> NoticeCount(Last(r).output, i) == Last(r).streams[i].marks
  {
    RunFlow(r, |r.states| - 1);
    RunGenuine(r, |r.states| - 1);
    DoneIsEmpty(r, |r.states| - 1);
    var s := Last(r);
    forall i | 0 <= i < r.streams
      ensures multiset(OfOrigin(Items(s.output), i)) == multiset(Content(s.streams[i].input))
      ensures NoticeCount(s.output, i) == s.streams[i].marks
    {
      assert FlowAt(s, i, -1);
    }
  }

  lemma DoneIsEmpty(r: Run, k: nat)
    requires IsRun(r) && k < |r.states| && r.states[k].done
    ensures r.states[k].queue == []
    ensures forall i :: 0 <= i < |r.states[k].streams| ==> r.states[k].streams[i].closed
  {
    assert k > 0;
    FlushEnds(r.timeout, r.states[k - 1], r.events[k - 1], r.states[k]);
  }

  lemma FlushEnds(timeout: nat, s: State, ev: Event, s': State)
    requires Next(timeout, s, ev, s') && s'.done
    ensures s'.queue == [] && forall i :: 0 <= i < |s'.streams| ==> s'.streams[i].closed
  {
  }

  /** A heartbeat that the merger adds is at least one interval later than the
      last timestamped entry before it. */
  lemma HeartbeatsAreDebounced(r: Run, b: nat)
    requires IsRun(r) && b < |Last(r).output| && Last(r).output[b].OwnHeartbeat?
    ensures LastStamp(Last(r).output[..b]) + 200_000_000 <= OutStamp(Last(r).output[b])
  {
    RunFlow(r, |r.states| - 1);
  }

  /** At most 100 entries of a stream are in flight and the queue never exceeds 100 per stream. */
  lemma BoundedBuffering(r: Run, k: nat)
    requires IsRun(r) && k < |r.states|
    ensures |r.states[k].streams| == r.streams
    ensures forall i :: 0 <= i < r.streams ==> 0 <= r.states[k].streams[i].slots <= 100
    ensures |r.states[k].queue| <= 100 * r.streams
  {
    RunFlow(r, k);
    var s := r.states[k];
    forall i | 0 <= i < r.streams
      ensures 0 <= s.streams[i].slots <= MAX_IN_FLIGHT && |OfOrigin(s.queue, i)| <= MAX_IN_FLIGHT
    {
      assert FlowAt(s, i, -1);
    }
    QueueBound(s.queue, r.streams, MAX_IN_FLIGHT);
  }

  function Without(items: seq<Item>, i: nat): seq<Item> {
    if items == [] then []
    else if items[0].origin == i then Without(items[1..], i)
    else [items[0]] + Without(items[1..], i)
  }

  lemma {:induction false} WithoutCounts(items: seq<Item>, i: nat, j: nat)
    ensures |items| == |OfOrigin(items, i)| + |Without(items, i)|
    ensures i != j ==> OfOrigin(Without(items, i), j) == OfOrigin(items, j)
    ensures forall x :: x in Without(items, i) ==> x in items && x.origin != i
  {
    if items != [] {
      WithoutCounts(items[1..], i, j);
    }
  }

  lemma {:induction false} QueueBound(items: seq<Item>, n: nat, cap: int)
    requires forall k :: 0 <= k < |items| ==> items[k].origin < n
    requires forall i :: 0 <= i < n ==> |OfOrigin(items, i)| <= cap
    ensures |items| <= cap * n
    decreases n
  {
    if n == 0 {
      assert |items| == 0;
    } else {
      var rest := Without(items, n - 1);
      WithoutCounts(items, n - 1, 0);
      forall i | 0 <= i < n - 1
        ensures |OfOrigin(rest, i)| <= cap
      {
        WithoutCounts(items, n - 1, i);
      }
      forall k | 0 <= k < |rest|
        ensures rest[k].origin < n - 1
      {
        assert rest[k] in rest;
      }
      QueueBound(rest, n - 1, cap);
      assert cap * n == cap * (n - 1) + cap;
    }
  }

  /** The watermark is never held back by a stream that has something queued. */
  lemma NoSelfBlocking(r: Run, k: nat, q: nat)
    requires IsRun(r) && k < |r.states| && q < |r.states[k].queue|
    ensures var s := r.states[k]; var i := s.queue[q].origin;
            i < |s.streams| && s.watermark < Stamp(s.queue[q].entry) <= s.streams[i].lastSeen
  {
    RunFlow(r, k);
  }

  lemma {:induction false} NoneOfOrigin(items: seq<Item>, i: nat)
    requires forall k :: 0 <= k < |items| ==> items[k].origin != i
    ensures OfOrigin(items, i) == []
  {
    if items != [] {
      NoneOfOrigin(items[1..], i);
    }
  }

  /** A stream that has not been seen past the watermark, so that others may wait
      for it, has nothing queued and at most one slot taken: its reader is free. */
  lemma SlowestIsNotThrottled(r: Run, k: nat, i: nat)
    requires IsRun(r) && k < |r.states| && i < |r.states[k].streams|
    requires r.states[k].streams[i].lastSeen <= r.states[k].watermark
    ensures OfOrigin(r.states[k].queue, i) == [] && r.states[k].streams[i].slots <= 1
    ensures r.states[k].streams[i].pending.None? ==> r.states[k].streams[i].slots == 0
  {
    RunFlow(r, k);
    var s := r.states[k];
    forall q | 0 <= q < |s.queue|
      ensures s.queue[q].origin != i
    {
      NoSelfBlocking(r, k, q);
    }
    NoneOfOrigin(s.queue, i);
    assert FlowAt(s, i, -1);
  }
}
