/** Log entries as they travel between machines and mergers. */
module LogEntries {

  datatype Source = Stdout | Stderr

  /** Timestamps are nanoseconds; 0 is the zero time, a timestamp that is not known. */
  datatype Entry =
    | Log(source: Source, ts: nat, meta: string, message: string)
    | Heartbeat(ts: nat, meta: string)
    | Failure(error: string, meta: string)

  const HEARTBEAT_INTERVAL: nat := 200_000_000

  /** The entry's place on the timeline, 0 if it has none. */
  function Stamp(e: Entry): nat {
    if e.Failure? then 0 else e.ts
  }

  /** Timestamped logs and heartbeats never go back in time. */
  ghost predicate Ordered(s: seq<Entry>) {
    forall i, j :: 0 <= i < j < |s| && Stamp(s[i]) > 0 && Stamp(s[j]) > 0 ==> Stamp(s[i]) <= Stamp(s[j])
  }
}
