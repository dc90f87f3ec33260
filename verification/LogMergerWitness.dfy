/** A run of the merger in which a log waits although no other stream is open: two
    streams, of which one is marked stalled and the other then closes. */
module LogMergerWitness {
  import opened Collections
  import opened LogEntries
  import opened LogMerger

  lemma Extend(r: Run, ev: Event, s: State) returns (r': Run)
    requires IsRun(r) && Next(r.timeout, Last(r), ev, s)
    ensures IsRun(r') && Last(r') == s && r'.streams == r.streams && r'.timeout == r.timeout
  {
    r' := r.(states := r.states + [s], events := r.events + [ev]);
  }

  /** A log at 10 from stream 0, and a heartbeat at 5 from stream 1. */
  function LateLog(): Entry {
    Log(Stdout, 10, "", "")
  }

  function EarlyBeat(): Entry {
    Heartbeat(5, "")
  }

  function Waiting(): seq<Item> {
    [Item(0, LateLog(), false)]
  }

  /** Stream 0 after its log was delivered, and once it is marked stalled. */
  function LogStream(marked: bool): Stream {
    Stream(10, 0, Some(""), false, marked, 1, None, [LateLog()], if marked then 1 else 0)
  }

  function BeatStream(closed: bool): Stream {
    Stream(5, 2, Some(""), closed, false, 0, None, [EarlyBeat()], 0)
  }

  lemma LogIsQueued() returns (r: Run)
    ensures IsRun(r) && r.streams == 2 && r.timeout == 2
    ensures Last(r) == State([LogStream(false), NewStream(0)], Waiting(), 0, 0, [], false)
  {
    var s0 := State(seq(2, _ => NewStream(0)), [], 0, 0, [], false);
    r := Run(2, 0, 2, [s0], []);
    var pending := NewStream(0).(slots := 1, pending := Some(LateLog()), input := [LateLog()]);
    var s1 := s0.(streams := [pending, NewStream(0)]);
    assert NewStream(0).input + [LateLog()] == [LateLog()] && s1.streams == s0.streams[0 := pending];
    r := Extend(r, Read(0, LateLog()), s1);
    var c := Choice(0, [], Waiting());
    var s2 := State([LogStream(false), NewStream(0)], Waiting(), 0, 0, [], false);
    var t := Enqueue(s1, 0, 0, LateLog());
    assert t.streams == [LogStream(false), NewStream(0)] && t.queue == Waiting();
    assert Active(t.streams[1]) && t.streams[1].lastSeen == 0;
    NothingFreed(t.streams);
    assert Settle(t, c) == s2;
    r := Extend(r, Deliver(0, 0, c), s2);
  }

  lemma NothingFreed(streams: seq<Stream>)
    ensures FreeSlots(streams, []) == streams && Forward([]) == []
  {
  }

  function PendingBeat(): Stream {
    NewStream(0).(slots := 1, pending := Some(EarlyBeat()), input := [EarlyBeat()])
  }

  lemma BeatIsRead() returns (r: Run)
    ensures IsRun(r) && r.streams == 2 && r.timeout == 2
    ensures Last(r) == State([LogStream(false), PendingBeat()], Waiting(), 0, 0, [], false)
  {
    r := LogIsQueued();
    var s2 := Last(r);
    var pending := PendingBeat();
    var s3 := s2.(streams := [LogStream(false), pending]);
    assert NewStream(0).input + [EarlyBeat()] == [EarlyBeat()] && s3.streams == s2.streams[1 := pending];
    r := Extend(r, Read(1, EarlyBeat()), s3);
  }

  lemma BeatStep(s3: State, c: Choice)
    requires s3 == State([LogStream(false), PendingBeat()], Waiting(), 0, 0, [], false)
    requires c == Choice(5, [], Waiting())
    ensures Next(2, s3, Deliver(1, 2, c), State([LogStream(false), BeatStream(false)], Waiting(), 5, 0, [], false))
  {
    var t := NoteBeat(s3, 1, 2, EarlyBeat());
    assert t.streams == [LogStream(false), BeatStream(false).(slots := 1)];
    assert Active(t.streams[1]) && t.streams[1].lastSeen == 5;
    NothingFreed(t.streams);
    var s4 := State([LogStream(false), BeatStream(false)], Waiting(), 5, 0, [], false);
    assert Settle(t, c) == State(t.streams, Waiting(), 5, 0, [], false);
    assert s4.streams == t.streams[1 := BeatStream(false)];
  }

  lemma BeatIsNoted() returns (r: Run)
    ensures IsRun(r) && r.streams == 2 && r.timeout == 2
    ensures Last(r) == State([LogStream(false), BeatStream(false)], Waiting(), 5, 0, [], false)
  {
    r := BeatIsRead();
    var c := Choice(5, [], Waiting());
    BeatStep(Last(r), c);
    r := Extend(r, Deliver(1, 2, c), State([LogStream(false), BeatStream(false)], Waiting(), 5, 0, [], false));
  }

  lemma StallIsMarked() returns (r: Run)
    ensures IsRun(r) && r.streams == 2 && r.timeout == 2 && Last(r).queue == Waiting() && Last(r).watermark == 5
    ensures Last(r).streams == [LogStream(true), BeatStream(false)] && !Last(r).done
  {
    r := BeatIsNoted();
    var s4 := Last(r);
    assert Stalls(s4.streams[0], 3, 2) && !Stalls(s4.streams[1], 3, 2);
    var t := Mark(s4, 3, 2);
    assert t.streams == [LogStream(true), BeatStream(false)];
    assert Active(t.streams[1]) && t.streams[1].lastSeen == 5;
    NothingFreed(t.streams);
    var c := Choice(5, [], Waiting());
    r := Extend(r, StallCheck(3, c), Settle(t, c));
  }

  /** With all streams closed or stalled the watermark stays where it was, and the
      log waits although the only open stream is its own. */
  lemma WaitsForItself() returns (r: Run)
    ensures IsRun(r) && !Last(r).done && Last(r).queue == Waiting() && |Last(r).streams| == 2
    ensures !Last(r).streams[0].closed && Last(r).streams[0].lastSeen == Stamp(LateLog()) && Last(r).streams[1].closed
  {
    r := StallIsMarked();
    var s5 := Last(r);
    var t := SetStream(s5, 1, Touch(s5.streams[1], 3, "").(closed := true));
    assert !Active(t.streams[0]) && !Active(t.streams[1]);
    var c := Choice(5, [], Waiting());
    NothingFreed(t.streams);
    r := Extend(r, Close(1, 3, c), Settle(t, c));
  }
}
