/** The two event logs: the in-memory one (core/agentgraph/events.go) and the one over
    a table (core/agentgraph/eventlog_sql.go). */
module EventLogs {
  import opened Wrappers

  /** `time` is absent for the zero timestamp; `payload` is "" for no payload. */
  datatype Event = Event(runId: string, sessionId: string, nodeId: string, kind: string,
                         payload: string, time: Option<int>, seqNo: int)

  const RUN_PAUSED := "run_paused"
  const RUN_ABANDONED := "run_abandoned"

  // ---- what both logs hold, as one history ----

  /** One run's events, in the order they were appended. */
  function Of(h: seq<Event>, run: string): seq<Event> {
    if |h| == 0 then []
    else
      var last := h[|h| - 1];
      Of(h[..|h| - 1], run) + if last.runId == run then [last] else []
  }

  function Stamped(ev: Event, now: int): Event {
    if ev.time.None? then ev.(time := Some(now)) else ev
  }

  function Entry(h: seq<Event>, ev: Event, now: int): Event {
    Stamped(ev, now).(seqNo := |Of(h, ev.runId)| + 1)
  }

  /** The history after the first `n` events of a batch. */
  function Grown(h: seq<Event>, evs: seq<Event>, clock: nat -> int, n: nat): seq<Event>
    requires n <= |evs|
  {
    if n == 0 then h
    else
      var g := Grown(h, evs, clock, n - 1);
      g + [Entry(g, evs[n - 1], clock(n - 1))]
  }

  /** The first event without a run id. */
  function Gap(evs: seq<Event>): (n: nat)
    ensures n <= |evs|
    ensures forall i :: 0 <= i < n ==> evs[i].runId != ""
    ensures n < |evs| ==> evs[n].runId == ""
  {
    if |evs| == 0 || evs[0].runId == "" then 0 else 1 + Gap(evs[1..])
  }

  predicate Parks(kind: string) {
    kind == RUN_PAUSED || kind == RUN_ABANDONED
  }

  predicate LastParks(evs: seq<Event>) {
    |evs| > 0 && Parks(evs[|evs| - 1].kind)
  }

  predicate Paused(h: seq<Event>, run: string) {
    LastParks(Of(h, run))
  }

  /** The callback is handed the events in order up to and including the first call
      it refuses (`refuse(n)` for its n-th), and `ok` says it refused none. */
  ghost predicate Delivered(evs: seq<Event>, refuse: nat -> bool, seen: seq<Event>, ok: bool) {
    && seen <= evs
    && (forall n :: 0 <= n < |seen| - 1 ==> !refuse(n))
    && (if ok then seen == evs && (|seen| > 0 ==> !refuse(|seen| - 1)) else |seen| > 0 && refuse(|seen| - 1))
  }

  // ---- facts about histories ----

  lemma {:induction false} OfOwn(h: seq<Event>, run: string)
    ensures forall e :: e in Of(h, run) <==> e in h && e.runId == run
  {
    if |h| > 0 {
      OfOwn(h[..|h| - 1], run);
      assert h == h[..|h| - 1] + [h[|h| - 1]];
    }
  }

  lemma OfAppend(h: seq<Event>, e: Event, run: string)
    ensures Of(h + [e], run) == Of(h, run) + if e.runId == run then [e] else []
  {
    assert (h + [e])[..|h|] == h;
  }

  /** Every run's sequence numbers are 1, 2, 3, ... */
  ghost predicate Contiguous(h: seq<Event>) {
    forall run, i :: 0 <= i < |Of(h, run)| ==> Of(h, run)[i].seqNo == i + 1
  }

  lemma EntryKeepsContiguous(h: seq<Event>, ev: Event, now: int)
    requires Contiguous(h)
    ensures Contiguous(h + [Entry(h, ev, now)])
  {
    var e := Entry(h, ev, now);
    forall run, i | 0 <= i < |Of(h + [e], run)|
      ensures Of(h + [e], run)[i].seqNo == i + 1
    {
      OfAppend(h, e, run);
    }
  }

  /** Sequence numbers stay contiguous from 1 in every run, whatever is appended. */
  lemma {:induction false} GrownContiguous(h: seq<Event>, evs: seq<Event>, clock: nat -> int, n: nat)
    requires n <= |evs| && Contiguous(h)
    ensures Contiguous(Grown(h, evs, clock, n))
  {
    if n > 0 {
      GrownContiguous(h, evs, clock, n - 1);
      EntryKeepsContiguous(Grown(h, evs, clock, n - 1), evs[n - 1], clock(n - 1));
    }
  }

  predicate SameBut(a: Event, b: Event) {
    a.(seqNo := 0, time := None) == b.(seqNo := 0, time := None) && (b.time.Some? ==> a.time == b.time)
  }

  /** `after` is `before` and then the events of `own`, numbered and stamped. */
  ghost predicate Continues(before: seq<Event>, own: seq<Event>, after: seq<Event>) {
    && |after| == |before| + |own|
    && after[..|before|] == before
    && forall i :: 0 <= i < |own| ==> SameBut(after[|before| + i], own[i])
  }

  lemma ContinuesWith(before: seq<Event>, own: seq<Event>, after: seq<Event>, e: Event, o: Event)
    requires Continues(before, own, after) && SameBut(e, o)
    ensures Continues(before, own + [o], after + [e])
  {
  }

  /** Replay returns what was appended: the run's own events of the batch, in batch
      order, after what the run already had, and nothing of any other run. */
  lemma {:induction false} GrownAppends(h: seq<Event>, evs: seq<Event>, clock: nat -> int, n: nat, run: string)
    requires n <= |evs|
    ensures Continues(Of(h, run), Of(evs[..n], run), Of(Grown(h, evs, clock, n), run))
  {
    if n > 0 {
      GrownAppends(h, evs, clock, n - 1, run);
      var g, ev := Grown(h, evs, clock, n - 1), evs[n - 1];
      var e := Entry(g, ev, clock(n - 1));
      OfAppend(g, e, run);
      assert evs[..n] == evs[..n - 1] + [ev];
      OfAppend(evs[..n - 1], ev, run);
      if ev.runId == run {
        ContinuesWith(Of(h, run), Of(evs[..n - 1], run), Of(g, run), e, ev);
      } else {
        assert Of(g, run) + [] == Of(g, run);
        assert Of(evs[..n - 1], run) + [] == Of(evs[..n - 1], run);
      }
    }
  }

  /** An Append that fails leaves the log as it was exactly when the batch's first
      event is the one without a run id: a later gap has already stored a prefix. */
  lemma FailedAppendIsNoOpIff(h: seq<Event>, evs: seq<Event>, clock: nat -> int)
    requires Gap(evs) < |evs|
    ensures Grown(h, evs, clock, Gap(evs)) == h <==> evs[0].runId == ""
  {
    GrownLength(h, evs, clock, Gap(evs));
  }

  lemma {:induction false} GrownLength(h: seq<Event>, evs: seq<Event>, clock: nat -> int, n: nat)
    requires n <= |evs|
    ensures |Grown(h, evs, clock, n)| == |h| + n && Grown(h, evs, clock, n)[..|h|] == h
  {
    if n > 0 {
      GrownLength(h, evs, clock, n - 1);
    }
  }

  lemma EntryNumber(h: seq<Event>, evs: seq<Event>, clock: nat -> int, i: nat)
    requires i < |evs|
    ensures var r := evs[i].runId;
      Entry(Grown(h, evs, clock, i), evs[i], clock(i)).seqNo == |Of(h, r)| + |Of(evs[..i + 1], r)|
  {
    GrownAppends(h, evs, clock, i, evs[i].runId);
    assert evs[..i + 1] == evs[..i] + [evs[i]];
    OfAppend(evs[..i], evs[i], evs[i].runId);
  }

  /** Later events of a batch leave what is stored as it is. */
  lemma {:induction false} GrownPrefix(h: seq<Event>, evs: seq<Event>, clock: nat -> int, i: nat, n: nat)
    requires i < n <= |evs|
    ensures |Grown(h, evs, clock, n)| == |h| + n && |Grown(h, evs, clock, i)| == |h| + i
    ensures Grown(h, evs, clock, n)[|h| + i] == Entry(Grown(h, evs, clock, i), evs[i], clock(i))
  {
    GrownLength(h, evs, clock, n);
    GrownLength(h, evs, clock, i);
    if i < n - 1 {
      GrownPrefix(h, evs, clock, i, n - 1);
    }
  }

  /** The number given to event `i` of a batch: what its run had, plus its place among
      the batch's events of that run. */
  lemma NumberAt(h: seq<Event>, evs: seq<Event>, clock: nat -> int, n: nat, i: nat)
    requires i < n <= |evs|
    ensures var r := evs[i].runId;
      && |Grown(h, evs, clock, n)| == |h| + n
      && Grown(h, evs, clock, n)[|h| + i].seqNo == |Of(h, r)| + |Of(evs[..i + 1], r)|
  {
    GrownPrefix(h, evs, clock, i, n);
    EntryNumber(h, evs, clock, i);
  }

  lemma {:induction false} OfPrefix(evs: seq<Event>, n: nat, run: string)
    requires n <= |evs|
    ensures |Of(evs[..n], run)| <= |Of(evs, run)|
    decreases |evs|
  {
    if n == |evs| {
      assert evs[..n] == evs;
    } else {
      assert evs[..|evs| - 1][..n] == evs[..n];
      OfPrefix(evs[..|evs| - 1], n, run);
    }
  }

  /** The last event of a run in the batch is numbered last in it. */
  lemma {:induction false} LastOfRun(evs: seq<Event>, run: string) returns (i: nat)
    requires exists e :: e in evs && e.runId == run
    ensures i < |evs| && evs[i].runId == run && |Of(evs[..i + 1], run)| == |Of(evs, run)|
    decreases |evs|
  {
    var n := |evs| - 1;
    if evs[n].runId == run {
      i := n;
      assert evs[..n + 1] == evs;
    } else {
      assert evs == evs[..n] + [evs[n]];
      OfAppend(evs[..n], evs[n], run);
      i := LastOfRun(evs[..n], run);
      assert evs[..n][..i + 1] == evs[..i + 1];
    }
  }

  /** No event of the batch gets a higher number than the one returned. */
  ghost predicate ReturnsHighest(h: seq<Event>, evs: seq<Event>, clock: nat -> int) {
    var g := Grown(h, evs, clock, |evs|);
    forall i :: |h| <= i < |g| ==> g[i].seqNo <= g[|g| - 1].seqNo
  }

  /** How long a run is once the batch is appended. */
  function LengthAfter(h: seq<Event>, evs: seq<Event>, run: string): nat {
    |Of(h, run)| + |Of(evs, run)|
  }

  lemma LastNumber(h: seq<Event>, evs: seq<Event>, clock: nat -> int)
    requires |evs| > 0
    ensures var g := Grown(h, evs, clock, |evs|);
      |g| == |h| + |evs| && g[|g| - 1].seqNo == LengthAfter(h, evs, evs[|evs| - 1].runId)
  {
    NumberAt(h, evs, clock, |evs|, |evs| - 1);
    assert evs[..|evs|] == evs;
  }

  /** The length of a run of the batch is the number of one of its events ... */
  lemma LengthIsNumber(h: seq<Event>, evs: seq<Event>, clock: nat -> int, run: string) returns (j: nat)
    requires exists e :: e in evs && e.runId == run
    ensures var g := Grown(h, evs, clock, |evs|); |h| <= j < |g| && g[j].seqNo == LengthAfter(h, evs, run)
  {
    var i := LastOfRun(evs, run);
    NumberAt(h, evs, clock, |evs|, i);
    j := |h| + i;
  }

  /** ... and none of them is numbered higher. */
  lemma NumberWithin(h: seq<Event>, evs: seq<Event>, clock: nat -> int, i: nat)
    requires i < |evs|
    ensures var g := Grown(h, evs, clock, |evs|);
      |g| == |h| + |evs| && g[|h| + i].seqNo <= LengthAfter(h, evs, evs[i].runId)
  {
    NumberAt(h, evs, clock, |evs|, i);
    OfPrefix(evs, i + 1, evs[i].runId);
  }

  /** What a complete Append returns is the highest number the batch assigned exactly when
      no run of the batch ends up longer than the last event's run; the lengths before the
      call and the batch decide it. */
  lemma LastIsHighestIff(h: seq<Event>, evs: seq<Event>, clock: nat -> int)
    requires |evs| > 0
    ensures ReturnsHighest(h, evs, clock) <==>
      forall e :: e in evs ==> LengthAfter(h, evs, e.runId) <= LengthAfter(h, evs, evs[|evs| - 1].runId)
  {
    var g := Grown(h, evs, clock, |evs|);
    LastNumber(h, evs, clock);
    if ReturnsHighest(h, evs, clock) {
      forall e | e in evs
        ensures LengthAfter(h, evs, e.runId) <= g[|g| - 1].seqNo
      {
        var j := LengthIsNumber(h, evs, clock, e.runId);
      }
    } else {
      var j :| |h| <= j < |g| && g[j].seqNo > g[|g| - 1].seqNo;
      NumberWithin(h, evs, clock, j - |h|);
      assert evs[j - |h|] in evs;
    }
  }

  /** In particular for a batch of one run ... */
  lemma LastIsHighest(h: seq<Event>, evs: seq<Event>, clock: nat -> int)
    requires |evs| > 0 && forall e :: e in evs ==> e.runId == evs[0].runId
    ensures ReturnsHighest(h, evs, clock)
  {
    LastIsHighestIff(h, evs, clock);
    assert evs[|evs| - 1] in evs;
  }

  function Bare(run: string): Event {
    Event(run, "", "", "", "", Some(0), 0)
  }

  /** ... and not for this one over two runs, which returns a lower number. */
  lemma LastNotHighest(clock: nat -> int)
    ensures var g := Grown([], [Bare("a"), Bare("a"), Bare("b")], clock, 3);
      |g| == 3 && g[1].seqNo == 2 && g[2].seqNo == 1
  {
    var evs := [Bare("a"), Bare("a"), Bare("b")];
    var e1 := Entry([], Bare("a"), clock(0));
    assert Grown([], evs, clock, 1) == [e1];
    OfAppend([], e1, "a");
    OfAppend([], e1, "b");
    var e2 := Entry([e1], Bare("a"), clock(1));
    assert Grown([], evs, clock, 2) == [e1, e2];
    assert [e1, e2] == [e1] + [e2];
    OfAppend([e1], e2, "b");
    assert "a" != "b";
    assert Grown([], evs, clock, 3) == [e1, e2, Entry([e1, e2], Bare("b"), clock(2))];
  }

  // ---- the in-memory log ----

  class MemEventLog {
    var rows: map<string, seq<Event>>
    var nextSeq: map<string, int>
    ghost var history: seq<Event>

    ghost predicate Valid()
      reads this
    {
      && Contiguous(history)
      && (forall run :: RowsOf(run) == Of(history, run))
      && (forall run :: Counter(run) == |Of(history, run)|)
    }

    function RowsOf(run: string): seq<Event>
      reads this
    {
      if run in rows then rows[run] else []
    }

    function Counter(run: string): int
      reads this
    {
      if run in nextSeq then nextSeq[run] else 0
    }

    constructor ()
      ensures Valid() && history == []
    {
      rows := map[];
      nextSeq := map[];
      history := [];
    }

    /** The body of Append's loop. */
    method Put(event: Event, now: int) returns (seqNo: int)
      requires Valid()
      modifies this
      ensures Valid() && history == old(history) + [Entry(old(history), event, now)]
      ensures seqNo == history[|history| - 1].seqNo
    {
      var ev := event;
      EntryKeepsContiguous(history, ev, now);
      forall run {
        OfAppend(history, Entry(history, ev, now), run);
      }
      nextSeq := nextSeq[ev.runId := Counter(ev.runId) + 1];
      ev := ev.(seqNo := nextSeq[ev.runId]);
      ev := Stamped(ev, now);
      rows := rows[ev.runId := RowsOf(ev.runId) + [ev]];
      history := history + [ev];
      seqNo := ev.seqNo;
    }

    /** `clock(i)` is the time read for event i; the error names the offending event. */
    method Append(batch: seq<Event>, clock: nat -> int) returns (last: int, err: Option<nat>)
      requires Valid()
      modifies this
      ensures Valid() && history == Grown(old(history), batch, clock, Gap(batch))
      ensures err == if Gap(batch) < |batch| then Some(Gap(batch)) else None
      ensures last == if err.Some? || |batch| == 0 then 0 else history[|history| - 1].seqNo
    {
      if |batch| == 0 {
        return 0, None;
      }
      last := 0;
      ghost var h := history;
      var i := 0;
      while i < |batch|
        invariant 0 <= i <= |batch| && i <= Gap(batch)
        invariant Valid() && history == Grown(h, batch, clock, i)
        invariant i > 0 ==> |history| > 0 && last == history[|history| - 1].seqNo
      {
        var ev := batch[i];
        if ev.runId == "" {
          return 0, Some(i);
        }
        last := Put(ev, clock(i));
        i := i + 1;
      }
      return last, None;
    }

    method Replay(run: string, refuse: nat -> bool) returns (seen: seq<Event>, ok: bool)
      requires Valid()
      ensures Delivered(Of(history, run), refuse, seen, ok)
    {
      assert RowsOf(run) == Of(history, run);
      var own := RowsOf(run);
      seen := [];
      for i := 0 to |own|
        invariant seen == own[..i]
        invariant forall n :: 0 <= n < i ==> !refuse(n)
      {
        seen := seen + [own[i]];
        if refuse(i) {
          return seen, false;
        }
      }
      return seen, true;
    }

    method Len(run: string) returns (n: nat)
      requires Valid()
      ensures n == |Of(history, run)|
    {
      n := |RowsOf(run)|;
    }

    /** The order of the ids is the map's and is left out. */
    method PausedRunIDs() returns (out: set<string>)
      requires Valid()
      ensures forall run :: run in out <==> Paused(history, run)
    {
      out := {};
      var rest := rows.Keys;
      while rest != {}
        invariant rest <= rows.Keys
        invariant forall run :: run in out <==> run in rows && run !in rest && LastParks(rows[run])
        decreases |rest|
      {
        var run :| run in rest;
        rest := rest - {run};
        if LastParks(rows[run]) {
          out := out + {run};
        }
      }
      forall run
        ensures run in out <==> Paused(history, run)
      {
        assert RowsOf(run) == Of(history, run);
      }
    }
  }

  // ---- the log over a table ----

  /** A row's payload column is never empty: no payload is stored as "null". */
  function AsRow(ev: Event): Event {
    if ev.payload == "" then ev.(payload := "null") else ev
  }

  function FromRow(row: Event): Event {
    if row.payload == "null" then row.(payload := "") else row
  }

  function AsRows(evs: seq<Event>): seq<Event> {
    seq(|evs|, i requires 0 <= i < |evs| => AsRow(evs[i]))
  }

  function FromRows(rows: seq<Event>): seq<Event> {
    seq(|rows|, i requires 0 <= i < |rows| => FromRow(rows[i]))
  }

  /** The database call that fails, if any, by event index. */
  datatype Fault = NoFault | QueryFails(at: nat) | InsertFails(at: nat)

  function Reached(evs: seq<Event>, fault: Fault): nat {
    if fault.NoFault? || fault.at >= Gap(evs) then Gap(evs) else fault.at
  }

  /** The least of the rows still left is the next event, and then the rest are left. */
  lemma LeastLeft(own: seq<Event>, i: nat, rest: set<Event>)
    requires i < |own| && forall k :: 0 <= k < |own| ==> own[k].seqNo == k + 1
    requires forall e :: e in rest <==> e in own[i..]
    ensures own[i] in rest && forall o :: o in rest && o != own[i] ==> own[i].seqNo < o.seqNo
    ensures forall e :: e in rest - {own[i]} <==> e in own[i + 1..]
  {
    assert own[i..] == [own[i]] + own[i + 1..];
    assert own[i] == own[i..][0];
    assert own[i] !in own[i + 1..];
  }

  method OrderBySeq(rows: set<Event>, ghost own: seq<Event>) returns (sorted: seq<Event>)
    requires forall e :: e in rows <==> e in own
    requires forall i :: 0 <= i < |own| ==> own[i].seqNo == i + 1
    ensures sorted == own
  {
    sorted := [];
    var rest := rows;
    CountDistinct(own, rest);
    while rest != {}
      invariant |sorted| + |rest| == |own| && sorted == own[..|sorted|]
      invariant forall e :: e in rest <==> e in own[|sorted|..]
      decreases |rest|
    {
      ghost var i := |sorted|;
      LeastLeft(own, i, rest);
      var row :| row in rest && forall o :: o in rest ==> row.seqNo <= o.seqNo;
      assert row == own[i];
      rest := rest - {row};
      sorted := sorted + [row];
    }
  }

  lemma ReachedAt(evs: seq<Event>, fault: Fault, i: nat)
    requires i < |evs| && i <= Reached(evs, fault)
    ensures i == Reached(evs, fault) <==> evs[i].runId == "" || fault == QueryFails(i) || fault == InsertFails(i)
  {
  }

  /** The first `i` events of a batch are stored, and the caller's hold what was stored. */
  ghost predicate Appended(h: seq<Event>, evs: seq<Event>, clock: nat -> int, i: nat, now: seq<Event>, done: seq<Event>)
    requires i <= |evs|
  {
    now == Grown(h, AsRows(evs), clock, i) && Wrote(h, now, done)
  }

  lemma AppendedNext(h: seq<Event>, evs: seq<Event>, clock: nat -> int, i: nat, now: seq<Event>, done: seq<Event>, e: Event)
    requires i < |evs| && Appended(h, evs, clock, i, now, done)
    requires AsRow(e) == Entry(now, AsRow(evs[i]), clock(i))
    ensures Appended(h, evs, clock, i + 1, now + [AsRow(e)], done + [e])
  {
    assert AsRows(evs)[i] == AsRow(evs[i]);
  }

  /** The history's new end is the given events as rows. */
  ghost predicate Wrote(h: seq<Event>, now: seq<Event>, evs: seq<Event>) {
    |now| == |h| + |evs| && forall k :: 0 <= k < |evs| ==> now[|h| + k] == AsRow(evs[k])
  }

  /** An Append to the table that fails, for a missing run id or in the database, leaves
      it as it was exactly when it fails at the batch's first event. */
  lemma SqlFailedAppendIsNoOpIff(h: seq<Event>, evs: seq<Event>, clock: nat -> int, fault: Fault)
    requires Reached(evs, fault) < |evs|
    ensures Grown(h, AsRows(evs), clock, Reached(evs, fault)) == h <==>
      evs[0].runId == "" || fault == QueryFails(0) || fault == InsertFails(0)
  {
    GrownLength(h, AsRows(evs), clock, Reached(evs, fault));
    ReachedAt(evs, fault, 0);
  }

  /** `table` is the rows as a set: a table has no order of its own. */
  class SqlEventLog {
    var table: set<Event>
    ghost var history: seq<Event>

    ghost predicate Valid()
      reads this
    {
      && Contiguous(history)
      && forall e :: e in table <==> e in history
    }

    constructor ()
      ensures Valid() && history == []
    {
      table := {};
      history := [];
    }

    /** One more than the largest number among the run's rows, or 1 if it has none. */
    method NextSeq(run: string) returns (next: int)
      requires Valid()
      ensures next == |Of(history, run)| + 1
    {
      OfOwn(history, run);
      var top := 0;
      var rest := table;
      while rest != {}
        invariant rest <= table && 0 <= top <= |Of(history, run)|
        invariant forall e :: e in table - rest && e.runId == run ==> e.seqNo <= top
        decreases |rest|
      {
        var e :| e in rest;
        rest := rest - {e};
        if e.runId == run {
          assert e in Of(history, run);
          if e.seqNo > top {
            top := e.seqNo;
          }
        }
      }
      if |Of(history, run)| > 0 {
        assert Of(history, run)[|Of(history, run)| - 1] in table;
      }
      next := top + 1;
    }

    /** The body of Append's loop. The caller's event is updated in place. */
    method AppendAt(batch: array<Event>, i: nat, now: int, fault: Fault) returns (next: int, ok: bool)
      requires Valid() && i < batch.Length
      modifies this, batch
      ensures Valid() && batch[..i] == old(batch[..i]) && batch[i + 1..] == old(batch[i + 1..])
      ensures ok <==> old(batch[i]).runId != "" && fault != QueryFails(i) && fault != InsertFails(i)
      ensures !ok ==> history == old(history)
      ensures ok ==> AsRow(batch[i]) == Entry(old(history), AsRow(old(batch[i])), now)
      ensures ok ==> history == old(history) + [AsRow(batch[i])] && next == batch[i].seqNo
    {
      if batch[i].runId == "" {
        return 0, false;
      }
      ghost var was := batch[i];
      batch[i] := Stamped(batch[i], now);
      if fault == QueryFails(i) {
        return 0, false;
      }
      next := NextSeq(batch[i].runId);
      batch[i] := batch[i].(seqNo := next);
      if fault == InsertFails(i) {
        return 0, false;
      }
      EntryKeepsContiguous(history, AsRow(was), now);
      table := table + {AsRow(batch[i])};
      history := history + [AsRow(batch[i])];
      ok := true;
    }

    method Append(batch: array<Event>, clock: nat -> int, fault: Fault) returns (last: int, err: Option<nat>)
      requires Valid()
      modifies this, batch
      ensures Valid()
      ensures Appended(old(history), old(batch[..]), clock, Reached(old(batch[..]), fault),
                       history, batch[..Reached(old(batch[..]), fault)])
      ensures err == if Reached(old(batch[..]), fault) < batch.Length then Some(Reached(old(batch[..]), fault)) else None
      ensures last == if err.Some? || batch.Length == 0 then 0 else history[|history| - 1].seqNo
    {
      if batch.Length == 0 {
        return 0, None;
      }
      last := 0;
      ghost var h, evs := history, batch[..];
      var i := 0;
      while i < batch.Length
        invariant 0 <= i <= Reached(evs, fault)
        invariant Valid() && Appended(h, evs, clock, i, history, batch[..i])
        invariant batch[i..] == evs[i..]
        invariant i > 0 ==> |history| > 0 && last == history[|history| - 1].seqNo
      {
        assert batch[i] == batch[i..][0] == evs[i];
        ReachedAt(evs, fault, i);
        ghost var before, was := batch[..i], history;
        var next, ok := AppendAt(batch, i, clock(i), fault);
        if !ok {
          return 0, Some(i);
        }
        assert batch[..i + 1] == before + [batch[i]];
        AppendedNext(h, evs, clock, i, was, before, batch[i]);
        last := next;
        i := i + 1;
      }
      return last, None;
    }

    /** The run's rows in the order of their numbers, handed over row by row. */
    method Replay(run: string, refuse: nat -> bool) returns (seen: seq<Event>, ok: bool)
      requires Valid()
      ensures Delivered(FromRows(Of(history, run)), refuse, seen, ok)
    {
      OfOwn(history, run);
      var own := OrderBySeq((set e | e in table && e.runId == run), Of(history, run));
      ghost var read := FromRows(own);
      seen := [];
      for i := 0 to |own|
        invariant seen == read[..i]
        invariant forall n :: 0 <= n < i ==> !refuse(n)
      {
        seen := seen + [FromRow(own[i])];
        assert read[i] == FromRow(own[i]);
        if refuse(i) {
          return seen, false;
        }
      }
      return seen, true;
    }

    /** How many rows the run has. */
    method Len(run: string) returns (n: nat)
      requires Valid()
      ensures n == |Of(history, run)|
    {
      var own := set e | e in table && e.runId == run;
      n := |own|;
      OfOwn(history, run);
      CountDistinct(Of(history, run), own);
    }

    ghost predicate Heads(e: Event)
      reads this
    {
      e in table && Parks(e.kind) && e.seqNo == |Of(history, e.runId)|
    }

    lemma HeadsPaused(run: string)
      requires Valid()
      ensures (exists e :: Heads(e) && e.runId == run) <==> Paused(history, run)
    {
      OfOwn(history, run);
      var own := Of(history, run);
      if Paused(history, run) {
        assert Heads(own[|own| - 1]);
      }
      forall e | Heads(e) && e.runId == run
        ensures Paused(history, run)
      {
        var k :| 0 <= k < |own| && own[k] == e;
      }
    }

    /** The run of every row that is paused or abandoned and has its run's largest number. */
    method PausedRunIDs() returns (out: set<string>)
      requires Valid()
      ensures forall run :: run in out <==> Paused(history, run)
    {
      out := {};
      var rest := table;
      while rest != {}
        invariant rest <= table
        invariant forall run :: run in out ==> exists e :: Heads(e) && e.runId == run
        invariant forall e :: Heads(e) && e !in rest ==> e.runId in out
        decreases |rest|
      {
        var e :| e in rest;
        rest := rest - {e};
        var next := NextSeq(e.runId);
        if Parks(e.kind) && e.seqNo == next - 1 {
          assert Heads(e);
          out := out + {e.runId};
        }
      }
      forall run
        ensures run in out <==> Paused(history, run)
      {
        HeadsPaused(run);
      }
    }
  }

  lemma {:induction false} CountDistinct(own: seq<Event>, s: set<Event>)
    requires forall e :: e in s <==> e in own
    requires forall i :: 0 <= i < |own| ==> own[i].seqNo == i + 1
    ensures |s| == |own|
  {
    if |own| == 0 {
      assert s == {};
    } else {
      var e, init := own[|own| - 1], own[..|own| - 1];
      assert own == init + [e];
      CountDistinct(init, s - {e});
    }
  }

  // ---- the two logs agree ----

  function MemRun(batches: seq<seq<Event>>, clock: (nat, nat) -> int): seq<Event> {
    if |batches| == 0 then []
    else
      var n := |batches| - 1;
      Grown(MemRun(batches[..n], clock), batches[n], (j: nat) => clock(n, j), Gap(batches[n]))
  }

  function SqlRun(batches: seq<seq<Event>>, clock: (nat, nat) -> int): seq<Event> {
    if |batches| == 0 then []
    else
      var n := |batches| - 1;
      Grown(SqlRun(batches[..n], clock), AsRows(batches[n]), (j: nat) => clock(n, j), Reached(batches[n], NoFault))
  }

  lemma {:induction false} OfAsRows(h: seq<Event>, run: string)
    ensures Of(AsRows(h), run) == AsRows(Of(h, run))
  {
    if |h| > 0 {
      var n := |h| - 1;
      assert AsRows(h)[..n] == AsRows(h[..n]);
      OfAsRows(h[..n], run);
    }
  }

  lemma {:induction false} GrownAsRows(h: seq<Event>, evs: seq<Event>, clock: nat -> int, n: nat)
    requires n <= |evs|
    ensures Grown(AsRows(h), AsRows(evs), clock, n) == AsRows(Grown(h, evs, clock, n))
  {
    if n > 0 {
      GrownAsRows(h, evs, clock, n - 1);
      var g, ev, now := Grown(h, evs, clock, n - 1), evs[n - 1], clock(n - 1);
      EntryAsRow(g, ev, now);
      assert AsRows(evs)[n - 1] == AsRow(ev);
      RowsSnoc(g, Entry(g, ev, now));
    }
  }

  lemma EntryAsRow(g: seq<Event>, ev: Event, now: int)
    ensures Entry(AsRows(g), AsRow(ev), now) == AsRow(Entry(g, ev, now))
  {
    OfAsRows(g, ev.runId);
  }

  lemma RowsSnoc(evs: seq<Event>, e: Event)
    ensures AsRows(evs + [e]) == AsRows(evs) + [AsRow(e)]
  {
  }

  /** After the same batches, good and bad, the table holds the memory log's events. */
  lemma {:induction false} SameHistories(batches: seq<seq<Event>>, clock: (nat, nat) -> int)
    ensures SqlRun(batches, clock) == AsRows(MemRun(batches, clock))
  {
    if |batches| > 0 {
      var n := |batches| - 1;
      SameHistories(batches[..n], clock);
      GrownAsRows(MemRun(batches[..n], clock), batches[n], (j: nat) => clock(n, j), Gap(batches[n]));
    }
  }

  /** So Replay, Len and the set of paused runs agree, up to a literal "null" payload,
      which the table gives back as none. */
  lemma LogsAgree(batches: seq<seq<Event>>, clock: (nat, nat) -> int, run: string)
    ensures var m, s := MemRun(batches, clock), SqlRun(batches, clock);
      && FromRows(Of(s, run)) == FromRows(Of(m, run))
      && |Of(s, run)| == |Of(m, run)|
      && (Paused(s, run) <==> Paused(m, run))
  {
    SameHistories(batches, clock);
    OfAsRows(MemRun(batches, clock), run);
  }
}
