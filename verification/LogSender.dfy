/** The loop that sends a machine's log stream: logs as they come, heartbeats
    one interval in the past when nothing has been sent for an interval. */
module LogSender {
  import opened LogEntries

  type LogEntry = e: Entry | e.Log? witness Log(Stdout, 0, "", "")

  /** What the loop's select receives. `at` is the time the loop handles it; a
      tick carries the time it fired. `Ends` is the closed channel, a source
      error or a cancelled context. */
  datatype Event = Arrives(log: LogEntry, at: nat) | Ticks(now: nat, at: nat) | Ends

  /** The loop's two variables: what has been sent and the time of the last of it. */
  datatype Sender = Sender(lastSent: nat, sent: seq<Entry>)

  function Handle(s: Sender, started: nat, ev: Event): Sender {
    match ev
    case Arrives(log, _) => Sender(Stamp(log), s.sent + [log])
    case Ticks(now, _) =>
      if now - s.lastSent < HEARTBEAT_INTERVAL || (s.lastSent == 0 && now - started < HEARTBEAT_INTERVAL) then s
      else Sender(now - HEARTBEAT_INTERVAL, s.sent + [Heartbeat(now - HEARTBEAT_INTERVAL, "")])
    case Ends => s
  }

  /** The sender after the events before the first `Ends`. */
  function SentBy(started: nat, events: seq<Event>): Sender {
    if events == [] then Sender(0, [])
    else
      var init := events[..|events| - 1];
      if Ends in init then SentBy(started, init)
      else Handle(SentBy(started, init), started, events[|events| - 1])
  }

  method SendLoop(started: nat, events: seq<Event>) returns (sent: seq<Entry>)
    ensures sent == SentBy(started, events).sent
    // No heartbeat is earlier than what was sent just before it.
    ensures forall k :: 0 < k < |sent| && sent[k].Heartbeat? ==> Stamp(sent[k - 1]) <= Stamp(sent[k])
  {
    sent := [];
    var lastSent: nat := 0;
    var i := 0;
    while i < |events|
      invariant i <= |events| && Ends !in events[..i]
      invariant Sender(lastSent, sent) == SentBy(started, events[..i])
    {
      assert events[..i + 1][..i] == events[..i];
      match events[i] {
        case Arrives(log, _) =>
          sent := sent + [log];
          lastSent := Stamp(log);
        case Ticks(now, _) =>
          if now - lastSent < HEARTBEAT_INTERVAL || (lastSent == 0 && now - started < HEARTBEAT_INTERVAL) {
          } else {
            sent := sent + [Heartbeat(now - HEARTBEAT_INTERVAL, "")];
            lastSent := now - HEARTBEAT_INTERVAL;
          }
        case Ends =>
          EndedStays(started, events, i);
          HeartbeatsFollow(started, events);
          return;
      }
      i := i + 1;
    }
    assert events[..|events|] == events;
    HeartbeatsFollow(started, events);
  }

  lemma {:induction false} EndedStays(started: nat, events: seq<Event>, i: nat)
    requires i < |events| && events[i] == Ends && Ends !in events[..i]
    ensures SentBy(started, events) == SentBy(started, events[..i])
  {
    var init := events[..|events| - 1];
    if i == |events| - 1 {
      assert init == events[..i];
    } else {
      assert init[i] == Ends && init[..i] == events[..i];
      EndedStays(started, init, i);
    }
  }

  /** The last thing sent and its recorded time agree, and every heartbeat is
      no earlier than its predecessor. */
  lemma {:induction false} HeartbeatsFollow(started: nat, events: seq<Event>)
    ensures var s := SentBy(started, events);
            && s.lastSent == (if s.sent == [] then 0 else Stamp(s.sent[|s.sent| - 1]))
            && (forall k :: 0 < k < |s.sent| && s.sent[k].Heartbeat? ==> Stamp(s.sent[k - 1]) <= Stamp(s.sent[k]))
  {
    if events != [] {
      HeartbeatsFollow(started, events[..|events| - 1]);
    }
  }

  /** The source's logs are in order, have timestamps, and each is handled within
      one interval of its timestamp; the loop's time moves forward and a tick is
      not handled before it fires. */
  ghost predicate Timely(events: seq<Event>) {
    && (forall k :: 0 <= k < |events| && events[k].Arrives? ==>
          0 < events[k].log.ts && events[k].at <= events[k].log.ts + HEARTBEAT_INTERVAL)
    && (forall k :: 0 <= k < |events| && events[k].Ticks? ==> events[k].now <= events[k].at)
    && (forall j, k :: 0 <= j < k < |events| && !events[j].Ends? && !events[k].Ends? ==> events[j].at <= events[k].at)
    && (forall j, k :: 0 <= j < k < |events| && events[j].Arrives? && events[k].Arrives? ==>
          events[j].log.ts <= events[k].log.ts)
  }

  /** What has been sent is in order and is no later than anything that can still arrive. */
  ghost predicate Sound(s: Sender, events: seq<Event>) {
    && Ordered(s.sent)
    && (forall k :: 0 <= k < |s.sent| ==> Stamp(s.sent[k]) <= s.lastSent)
    && (s.lastSent == 0
        || (exists k :: 0 <= k < |events| && events[k].Arrives? && events[k].log.ts == s.lastSent)
        || (exists k :: 0 <= k < |events| && events[k].Ticks? && events[k].now == s.lastSent + HEARTBEAT_INTERVAL))
  }

  lemma {:induction false} SenderSound(started: nat, events: seq<Event>)
    requires Timely(events)
    ensures Sound(SentBy(started, events), events)
  {
    if events != [] {
      var last := |events| - 1;
      var init := events[..last];
      SenderSound(started, init);
      var s, s' := SentBy(started, init), SentBy(started, events);
      assert forall k :: 0 <= k < last ==> init[k] == events[k];
      if Ends !in init && events[last].Arrives? {
        LogIsLatest(s, events);
      }
    }
  }

  lemma LogIsLatest(s: Sender, events: seq<Event>)
    requires events != [] && Timely(events) && events[|events| - 1].Arrives? && Ends !in events[..|events| - 1]
    requires Sound(s, events[..|events| - 1])
    ensures s.lastSent <= events[|events| - 1].log.ts
  {
    var last := |events| - 1;
    if k :| 0 <= k < last && events[k].Ticks? && events[k].now == s.lastSent + HEARTBEAT_INTERVAL {
      assert events[k].now <= events[k].at <= events[last].at;
    }
  }

  /** A timely source gives a stream that a merger accepts as an ordered input. */
  lemma TimelySourceIsOrdered(started: nat, events: seq<Event>)
    requires Timely(events)
    ensures Ordered(SentBy(started, events).sent)
  {
    SenderSound(started, events);
  }

  /** After every tick of an open stream the receiver has something that is at
      most one interval old, unless nothing with a timestamp was sent and the
      stream is younger than an interval. */
  lemma TickLeavesNoSilence(started: nat, events: seq<Event>)
    requires events != [] && Ends !in events && events[|events| - 1].Ticks?
    ensures var now := events[|events| - 1].now;
            var s := SentBy(started, events);
            (s.sent != [] && now <= Stamp(s.sent[|s.sent| - 1]) + HEARTBEAT_INTERVAL)
            || now < started + HEARTBEAT_INTERVAL
            || now < HEARTBEAT_INTERVAL
  {
    HeartbeatsFollow(started, events[..|events| - 1]);
    HeartbeatsFollow(started, events);
  }

  /** Nothing sent so far has a timestamp. */
  predicate Undated(sent: seq<Entry>) {
    forall k :: 0 <= k < |sent| ==> Stamp(sent[k]) == 0
  }

  /** A heartbeat is sent exactly if the tick comes at least an interval after the
      last thing sent and, while the last thing sent has no timestamp, at least an
      interval after the start; it is stamped one interval before the tick. */
  lemma HeartbeatExactly(started: nat, events: seq<Event>)
    requires events != [] && Ends !in events && events[|events| - 1].Ticks?
    ensures var sent, sent' := SentBy(started, events[..|events| - 1]).sent, SentBy(started, events).sent;
            var now := events[|events| - 1].now;
            var last := if sent == [] then 0 else Stamp(sent[|sent| - 1]);
            if last + HEARTBEAT_INTERVAL <= now && (last == 0 ==> started + HEARTBEAT_INTERVAL <= now)
            then sent' == sent + [Heartbeat(now - HEARTBEAT_INTERVAL, "")] else sent' == sent
  {
    HeartbeatsFollow(started, events[..|events| - 1]);
  }

  /** While nothing with a timestamp has been sent, no heartbeat is stamped before the stream started. */
  lemma {:induction false} FirstHeartbeatIsAfterStart(started: nat, events: seq<Event>, k: nat)
    requires k < |SentBy(started, events).sent| && SentBy(started, events).sent[k].Heartbeat?
    requires Undated(SentBy(started, events).sent[..k])
    ensures started <= Stamp(SentBy(started, events).sent[k])
  {
    if events != [] {
      var init := events[..|events| - 1];
      HeartbeatsFollow(started, init);
      var sent, sent' := SentBy(started, init).sent, SentBy(started, events).sent;
      if k < |sent| {
        assert sent'[..k] == sent[..k];
        FirstHeartbeatIsAfterStart(started, init, k);
      } else if sent != [] {
        assert sent'[..k] == sent && Stamp(sent[|sent| - 1]) == 0;
      }
    }
  }

  /** The logs that arrived before the stream ended. */
  function Arrived(events: seq<Event>): seq<Entry> {
    if events == [] || events[0].Ends? then []
    else (if events[0].Arrives? then [events[0].log] else []) + Arrived(events[1..])
  }

  function LogsIn(sent: seq<Entry>): seq<Entry> {
    if sent == [] then []
    else LogsIn(sent[..|sent| - 1]) + if sent[|sent| - 1].Log? then [sent[|sent| - 1]] else []
  }

  lemma {:induction false} ArrivedSnoc(events: seq<Event>, ev: Event)
    ensures Arrived(events + [ev])
         == Arrived(events) + if Ends !in events && ev.Arrives? then [ev.log] else []
  {
    if events == [] {
      assert [ev][1..] == [];
    } else if !events[0].Ends? {
      var rest, first := events[1..], if events[0].Arrives? then [events[0].log] else [];
      assert (events + [ev])[1..] == rest + [ev] && (events + [ev])[0] == events[0];
      ArrivedSnoc(rest, ev);
      assert events == [events[0]] + rest;
      assert Ends in events <==> Ends in rest;
      assert Arrived(events) == first + Arrived(rest) && Arrived(events + [ev]) == first + Arrived(rest + [ev]);
    }
  }

  /** Heartbeats are added and nothing else: the logs go out once each, in the order they came. */
  lemma {:induction false} EveryLogIsSent(started: nat, events: seq<Event>)
    ensures LogsIn(SentBy(started, events).sent) == Arrived(events)
  {
    if events != [] {
      var init, ev := events[..|events| - 1], events[|events| - 1];
      EveryLogIsSent(started, init);
      assert events == init + [ev];
      ArrivedSnoc(init, ev);
      var s, s' := SentBy(started, init), SentBy(started, events);
      if s'.sent != s.sent {
        assert s'.sent[..|s'.sent| - 1] == s.sent;
      }
    }
  }
}
