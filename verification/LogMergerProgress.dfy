/** Promptness of the merger: heartbeats keep the output close to the watermark,
    and an entry waits only for an active stream that is behind it, as long as
    there is one. */
module LogMergerProgress {
  import opened LogEntries
  import opened LogMerger
  import opened LogMergerFlow
  import opened LogMergerOrder

  /** After a heartbeat from any input, the last timestamp on the output is less
      than one interval behind the watermark. */
  lemma HeartbeatsAreTimely(r: Run, k: nat)
    requires IsRun(r) && k < |r.events| && r.events[k].Deliver? && r.events[k].i < |r.states[k].streams|
    requires r.states[k].streams[r.events[k].i].pending.Some?
             && r.states[k].streams[r.events[k].i].pending.value.Heartbeat?
    ensures r.states[k + 1].watermark < LastStamp(r.states[k + 1].output) + HEARTBEAT_INTERVAL
  {
    RunFlow(r, k + 1);
    BeatCatchesUp(r.timeout, r.states[k], r.events[k], r.states[k + 1]);
  }

  lemma BeatCatchesUp(timeout: nat, s: State, ev: Event, s': State)
    requires Next(timeout, s, ev, s') && ev.Deliver? && s.streams[ev.i].pending.value.Heartbeat?
    ensures s'.watermark < s'.lastEmitted + HEARTBEAT_INTERVAL && !s'.done
  {
  }

  // ---- Which stream the watermark belongs to ----

  ghost predicate SomeActive(streams: seq<Stream>) {
    exists i :: 0 <= i < |streams| && Active(streams[i])
  }

  /** An active stream has been seen exactly up to the watermark. */
  ghost predicate Backed(s: State) {
    exists i :: 0 <= i < |s.streams| && Active(s.streams[i]) && s.streams[i].lastSeen == s.watermark
  }

  /** An active stream has not been seen past the timestamp. */
  ghost predicate SomeBehind(streams: seq<Stream>, ts: nat) {
    exists i :: 0 <= i < |streams| && Active(streams[i]) && streams[i].lastSeen < ts
  }

  /** The event recomputes the watermark. */
  ghost predicate Settles(timeout: nat, s: State, ev: Event) {
    match ev
    case Deliver(i, _, _) => i < |s.streams| && s.streams[i].pending.Some? && !Unplaced(s.streams[i].pending.value)
    case Close(_, _, _) => true
    case StallCheck(now, _) => exists i :: 0 <= i < |s.streams| && Stalls(s.streams[i], now, timeout)
    case _ => false
  }

  /** Slots and input do not matter, and a stream may lose its stall mark. */
  ghost predicate KeepsActive(a: seq<Stream>, b: seq<Stream>) {
    && |a| == |b|
    && forall i :: 0 <= i < |a| ==> a[i].lastSeen == b[i].lastSeen && (Active(a[i]) ==> Active(b[i]))
  }

  lemma KeepsBacked(s: State, s': State)
    requires Backed(s) && KeepsActive(s.streams, s'.streams) && s'.watermark == s.watermark
    ensures Backed(s')
  {
    var i :| 0 <= i < |s.streams| && Active(s.streams[i]) && s.streams[i].lastSeen == s.watermark;
    assert Active(s'.streams[i]);
  }

  /** A recomputed watermark belongs to an active stream exactly if there is one. */
  lemma SettleBacked(s: State, c: Choice)
    requires CanSettle(s, c)
    ensures Backed(Settle(s, c)) <==> SomeActive(Settle(s, c).streams)
  {
    var t := Settle(s, c);
    if SomeActive(t.streams) {
      var i :| 0 <= i < |t.streams| && Active(t.streams[i]);
      assert Active(s.streams[i]);
      var j :| 0 <= j < |s.streams| && Active(s.streams[j]) && c.watermark == s.streams[j].lastSeen;
      assert Active(t.streams[j]) && t.streams[j].lastSeen == t.watermark;
    }
  }

  lemma DeliverBacked(timeout: nat, s: State, i: nat, now: nat, c: Choice, s': State)
    requires Next(timeout, s, Deliver(i, now, c), s') && !Unplaced(s.streams[i].pending.value)
    ensures Backed(s') <==> SomeActive(s'.streams)
  {
    var e := s.streams[i].pending.value;
    if e.Log? {
      SettleBacked(Enqueue(s, i, now, e), c);
    } else {
      var t := Settle(NoteBeat(s, i, now, e), c);
      SettleBacked(NoteBeat(s, i, now, e), c);
      assert Active(t.streams[i]);
      KeepsBacked(t, s');
    }
  }

  /** After an event that recomputes it, the watermark belongs to an active stream exactly if there is one. */
  lemma SettlingBacked(timeout: nat, s: State, ev: Event, s': State)
    requires Next(timeout, s, ev, s') && Settles(timeout, s, ev)
    ensures Backed(s') <==> SomeActive(s'.streams)
  {
    match ev
    case Deliver(i, now, c) => DeliverBacked(timeout, s, i, now, c, s');
    case Close(i, now, c) => SettleBacked(SetStream(s, i, Touch(s.streams[i], now, "").(closed := true)), c);
    case StallCheck(now, c) => SettleBacked(Mark(s, now, timeout), c);
  }

  /** The other events take the watermark from no stream. */
  lemma OtherKeepsBacked(timeout: nat, s: State, ev: Event, s': State)
    requires Next(timeout, s, ev, s') && !Settles(timeout, s, ev) && Backed(s) && !s'.done
    ensures Backed(s')
  {
    KeepsBacked(s, s');
  }

  /** Every time the watermark was recomputed in steps m to k, some stream was active. */
  ghost predicate NeverAllIdle(r: Run, m: nat, k: nat)
    requires IsRun(r) && m <= k < |r.states|
  {
    forall j :: m <= j < k && Settles(r.timeout, r.states[j], r.events[j]) ==> SomeActive(r.states[j + 1].streams)
  }

  lemma {:induction false} RunBacked(r: Run, m: nat, k: nat)
    requires IsRun(r) && m <= k < |r.states| && !r.states[k].done && NeverAllIdle(r, m, k) && Backed(r.states[m])
    ensures Backed(r.states[k])
  {
    if m < k {
      RunBacked(r, m, k - 1);
      var s, ev, s' := r.states[k - 1], r.events[k - 1], r.states[k];
      if Settles(r.timeout, s, ev) {
        SettlingBacked(r.timeout, s, ev, s');
      } else {
        OtherKeepsBacked(r.timeout, s, ev, s');
      }
    }
  }

  lemma StartIsBacked(r: Run)
    requires IsRun(r) && 0 < r.streams
    ensures Backed(r.states[0])
  {
    assert Active(r.states[0].streams[0]) && r.states[0].streams[0].lastSeen == r.states[0].watermark;
  }

  // ---- Who holds an entry back ----

  /** An entry is held back only by another active stream that has not been seen
      past it, unless a recomputation of the watermark found all streams closed or
      stalled since it last belonged to an active stream: at the start of the run,
      or at any recomputation that found one. */
  lemma NothingReadyWaits(r: Run, m: nat, k: nat, q: nat) returns (i: nat)
    requires IsRun(r) && m <= k < |r.states| && !r.states[k].done && q < |r.states[k].queue|
    requires m == 0 || (Settles(r.timeout, r.states[m - 1], r.events[m - 1]) && SomeActive(r.states[m].streams))
    requires NeverAllIdle(r, m, k)
    ensures i < |r.states[k].streams| && Active(r.states[k].streams[i]) && i != r.states[k].queue[q].origin
    ensures r.states[k].streams[i].lastSeen < Stamp(r.states[k].queue[q].entry)
  {
    NoSelfBlocking(r, k, q);
    RunFlow(r, k);
    if m == 0 {
      StartIsBacked(r);
    } else {
      SettlingBacked(r.timeout, r.states[m - 1], r.events[m - 1], r.states[m]);
    }
    RunBacked(r, m, k);
    var s := r.states[k];
    i :| 0 <= i < |s.streams| && Active(s.streams[i]) && s.streams[i].lastSeen == s.watermark;
  }

  /** The exact condition, whatever happened before: when the watermark has been
      recomputed, an entry that is still queued has an active stream behind it if
      and only if some stream is active. */
  lemma WaitsExactlyForActive(r: Run, k: nat, q: nat)
    requires IsRun(r) && k < |r.events| && Settles(r.timeout, r.states[k], r.events[k])
    requires q < |r.states[k + 1].queue|
    ensures SomeBehind(r.states[k + 1].streams, Stamp(r.states[k + 1].queue[q].entry))
            <==> SomeActive(r.states[k + 1].streams)
  {
    SettlingBacked(r.timeout, r.states[k], r.events[k], r.states[k + 1]);
    NoSelfBlocking(r, k + 1, q);
    var s := r.states[k + 1];
    if Backed(s) {
      var i :| 0 <= i < |s.streams| && Active(s.streams[i]) && s.streams[i].lastSeen == s.watermark;
      assert s.streams[i].lastSeen < Stamp(s.queue[q].entry);
    }
  }

  // ---- How far the watermark is ----

  /** The watermark is the least of what the active streams have reached. */
  ghost predicate Current(s: State) {
    && (forall i :: 0 <= i < |s.streams| && Active(s.streams[i]) ==> s.watermark <= s.streams[i].lastSeen)
    && (SomeActive(s.streams) ==> Backed(s))
  }

  /** An entry that is not queued arrives from a stalled stream, which becomes active again. */
  ghost predicate Revives(s: State, ev: Event) {
    && ev.Deliver? && ev.i < |s.streams| && s.streams[ev.i].stalled
    && s.streams[ev.i].pending.Some? && Unplaced(s.streams[ev.i].pending.value)
  }

  ghost predicate SameProgress(a: seq<Stream>, b: seq<Stream>) {
    |a| == |b| && forall i :: 0 <= i < |a| ==> a[i].lastSeen == b[i].lastSeen && Active(a[i]) == Active(b[i])
  }

  lemma SameProgressKeeps(s: State, s': State)
    requires SameProgress(s.streams, s'.streams) && s'.watermark == s.watermark && Current(s)
    ensures Current(s')
  {
    if SomeActive(s'.streams) {
      var i :| 0 <= i < |s'.streams| && Active(s'.streams[i]);
      assert Active(s.streams[i]);
      KeepsBacked(s, s');
    }
  }

  lemma SettleCurrent(s: State, c: Choice)
    requires CanSettle(s, c)
    ensures Current(Settle(s, c))
  {
    SettleBacked(s, c);
    forall i | 0 <= i < |s.streams| && Active(Settle(s, c).streams[i])
      ensures c.watermark <= s.streams[i].lastSeen
    {
      assert Active(s.streams[i]);
    }
  }

  lemma DeliverCurrent(timeout: nat, s: State, i: nat, now: nat, c: Choice, s': State)
    requires Next(timeout, s, Deliver(i, now, c), s') && !Unplaced(s.streams[i].pending.value)
    ensures Current(s')
  {
    var e := s.streams[i].pending.value;
    if e.Log? {
      SettleCurrent(Enqueue(s, i, now, e), c);
    } else {
      SettleCurrent(NoteBeat(s, i, now, e), c);
      SameProgressKeeps(Settle(NoteBeat(s, i, now, e), c), s');
    }
  }

  lemma StepCurrent(timeout: nat, s: State, ev: Event, s': State)
    requires Next(timeout, s, ev, s') && !s'.done
    requires Settles(timeout, s, ev) || (Current(s) && !Revives(s, ev))
    ensures Current(s')
  {
    if Settles(timeout, s, ev) {
      match ev
      case Deliver(i, now, c) => DeliverCurrent(timeout, s, i, now, c, s');
      case Close(i, now, c) => SettleCurrent(SetStream(s, i, Touch(s.streams[i], now, "").(closed := true)), c);
      case StallCheck(now, c) => SettleCurrent(Mark(s, now, timeout), c);
    } else {
      SameProgressKeeps(s, s');
    }
  }

  /** The watermark is the least of what the active streams have reached, in every
      run and with any stalls, as long as no stalled stream came back with an entry
      that is not queued since the watermark was last known to be it. */
  lemma {:induction false} RunCurrent(r: Run, m: nat, k: nat)
    requires IsRun(r) && m <= k < |r.states| && !r.states[k].done
    requires m == 0 || Settles(r.timeout, r.states[m - 1], r.events[m - 1])
    requires forall j :: m <= j < k ==> !Revives(r.states[j], r.events[j])
    ensures Current(r.states[k])
  {
    if m < k {
      RunCurrent(r, m, k - 1);
      StepCurrent(r.timeout, r.states[k - 1], r.events[k - 1], r.states[k]);
    } else if k > 0 {
      StepCurrent(r.timeout, r.states[k - 1], r.events[k - 1], r.states[k]);
    } else {
      assert forall i :: 0 <= i < r.streams ==> r.states[0].streams[i] == NewStream(r.startedAt);
      if 0 < r.streams {
        StartIsBacked(r);
      }
    }
  }

  /** When one does come back and another stream is active, the watermark is still
      the least exactly if the stream that came back is not behind it. */
  lemma RevivalIsCurrent(timeout: nat, s: State, ev: Event, s': State)
    requires Next(timeout, s, ev, s') && Current(s) && SomeActive(s.streams) && Revives(s, ev)
    ensures Current(s') <==> s.watermark <= s.streams[ev.i].lastSeen
  {
    KeepsBacked(s, s');
    assert Active(s'.streams[ev.i]);
    forall j | 0 <= j < |s.streams| && j != ev.i
      ensures s'.streams[j] == s.streams[j]
    {
    }
  }
}
