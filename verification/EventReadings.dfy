/** What comes back out of the two event logs, event by event: the time an event is
    stored with, its number, the payload a table gives back, and which runs count as
    paused (core/agentgraph/events.go, core/agentgraph/eventlog_sql.go). */
module EventReadings {
  import opened Wrappers
  import opened EventLogs

  /** `e` is `ev` as stored: every field its own, an absent time filled in. */
  predicate StoredAs(e: Event, ev: Event, now: int) {
    && e.runId == ev.runId && e.sessionId == ev.sessionId && e.nodeId == ev.nodeId
    && e.kind == ev.kind && e.payload == ev.payload
    && e.time == if ev.time == None then Some(now) else ev.time
  }

  /** Event `i` of a batch is stored in its place with its own fields, with its own time
      or, if it has none, the time read for it, and numbered after its run's events. */
  lemma StoredEvent(h: seq<Event>, evs: seq<Event>, clock: nat -> int, n: nat, i: nat)
    requires i < n <= |evs|
    ensures var g := Grown(h, evs, clock, n); var r := evs[i].runId;
      && |g| == |h| + n && g[..|h|] == h
      && StoredAs(g[|h| + i], evs[i], clock(i))
      && g[|h| + i].seqNo == |Of(h, r)| + |Of(evs[..i + 1], r)|
  {
    GrownLength(h, evs, clock, n);
    GrownPrefix(h, evs, clock, i, n);
    NumberAt(h, evs, clock, n, i);
  }

  /** Position `k` holds the run's last event. */
  predicate LastOf(h: seq<Event>, k: int, run: string) {
    0 <= k < |h| && h[k].runId == run && forall j :: k < j < |h| ==> h[j].runId != run
  }

  lemma {:induction false} LastIsLast(h: seq<Event>, k: int, run: string)
    requires LastOf(h, k, run)
    ensures |Of(h, run)| > 0 && Of(h, run)[|Of(h, run)| - 1] == h[k]
  {
    var n := |h| - 1;
    if k < n {
      LastIsLast(h[..n], k, run);
    }
  }

  lemma {:induction false} FindLast(h: seq<Event>, run: string) returns (k: int)
    requires |Of(h, run)| > 0
    ensures LastOf(h, k, run)
  {
    var n := |h| - 1;
    if h[n].runId == run {
      k := n;
    } else {
      k := FindLast(h[..n], run);
    }
  }

  /** A run is paused exactly when its last event says it was paused or abandoned. */
  lemma PausedMeans(h: seq<Event>, run: string)
    ensures Paused(h, run) <==>
      exists k :: LastOf(h, k, run) && (h[k].kind == "run_paused" || h[k].kind == "run_abandoned")
  {
    if Paused(h, run) {
      var k := FindLast(h, run);
      LastIsLast(h, k, run);
      assert LastOf(h, k, run) && Parks(h[k].kind);
    }
    if k :| LastOf(h, k, run) && (h[k].kind == "run_paused" || h[k].kind == "run_abandoned") {
      LastIsLast(h, k, run);
    }
  }

  /** What the table gives back for an event of the memory log. */
  predicate ReadBack(read: Event, kept: Event) {
    && read.runId == kept.runId && read.sessionId == kept.sessionId && read.nodeId == kept.nodeId
    && read.kind == kept.kind && read.time == kept.time && read.seqNo == kept.seqNo
    && read.payload == if kept.payload == "null" then "" else kept.payload
  }

  /** After the same batches the two logs replay the same events in the same order; only
      a payload that is literally "null" comes back from the table as none. */
  lemma ReplaysAgree(batches: seq<seq<Event>>, clock: (nat, nat) -> int, run: string)
    ensures var kept, read := Of(MemRun(batches, clock), run), FromRows(Of(SqlRun(batches, clock), run));
      |read| == |kept| && forall i :: 0 <= i < |kept| ==> ReadBack(read[i], kept[i])
  {
    LogsAgree(batches, clock, run);
    var kept, read := Of(MemRun(batches, clock), run), FromRows(Of(SqlRun(batches, clock), run));
    forall i | 0 <= i < |kept|
      ensures ReadBack(read[i], kept[i])
    {
      assert read[i] == FromRows(kept)[i] == FromRow(kept[i]);
    }
  }

  /** No stored row has an empty payload column. */
  lemma RowsNeverEmpty(batches: seq<seq<Event>>, clock: (nat, nat) -> int)
    ensures forall e :: e in SqlRun(batches, clock) ==> e.payload != ""
  {
    SameHistories(batches, clock);
    var m := MemRun(batches, clock);
    forall e | e in AsRows(m)
      ensures e.payload != ""
    {
      var i :| 0 <= i < |AsRows(m)| && AsRows(m)[i] == e;
      assert e == AsRow(m[i]);
    }
  }
}
