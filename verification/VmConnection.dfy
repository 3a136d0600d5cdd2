/** One client connection of the VM agent (cmd/harness-vm/main.go,
    cmd/harness-vm/approvalgate.go): the scanner loop, the task goroutines, the
    `busy` flag, cancellation, and the task binding of the approval bridge.  Every
    action below is one atomic operation of the source; a run is any interleaving. */
module VmConnection {

  datatype Outcome = Complete | Errored | Cancelled

  datatype Frame =
    | Running(task: nat)
    | Terminal(task: nat, outcome: Outcome)
    | Conflict(id: string)
    | BadRequest

  /** Where a task goroutine stands; `Accepted` is before it is spawned. */
  datatype Pc =
    | Accepted
    | Working
    | Returned(failed: bool)
    | Clearing(outcome: Outcome)
    | Sending(outcome: Outcome)
    | Unbinding(sent: Outcome)
    | Gone(sent: Outcome)

  datatype Task = Task(id: string, pc: Pc)

  datatype Scanner = Idle | Starting | Cancelling(accepted: nat)

  /** Tasks are numbered in the order they were accepted; ids may repeat. */
  datatype State = State(
    busy: bool,
    cancelFn: nat,
    cancelled: set<nat>,
    tasks: seq<Task>,
    bound: string,
    scanner: Scanner,
    wire: seq<Frame>)

  const BOOT := State(false, 0, {}, [], "", Idle, [])

  datatype Message = Start(id: string, valid: bool) | Cancel | Unknown

  datatype Action =
    | Receive(m: Message)          // the scanner takes the next frame
    | ScannerTurn                  // the scanner goes on with the frame in hand
    | Chunk(task: nat)             // a task streams one chunk
    | Finish(task: nat, failed: bool)  // its graph run returns
    | TaskTurn(task: nat)          // it goes on towards its end

  /** From the CompareAndSwap up to `busy.Store(0)`. */
  predicate InWindow(pc: Pc) {
    pc.Accepted? || pc.Working? || pc.Returned? || pc.Clearing?
  }

  predicate SentTerminal(pc: Pc) {
    pc.Unbinding? || pc.Gone?
  }

  function Moved(s: State, n: nat, pc: Pc): State
    requires n < |s.tasks|
  {
    s.(tasks := s.tasks[n := s.tasks[n].(pc := pc)])
  }

  function OnReceive(s: State, m: Message): State {
    match m
    case Unknown => s.(wire := s.wire + [BadRequest])
    case Start(id, valid) =>
      if id == "" || !valid then s.(wire := s.wire + [BadRequest])
      else if s.busy then s.(wire := s.wire + [Conflict(id)])
      else s.(busy := true, cancelFn := |s.tasks|, tasks := s.tasks + [Task(id, Accepted)], scanner := Starting)
    case Cancel => if s.busy then s.(scanner := Cancelling(|s.tasks|)) else s
  }

  function OnScanner(s: State): State {
    match s.scanner
    case Idle => s
    case Starting =>
      if s.cancelFn < |s.tasks| && s.tasks[s.cancelFn].pc.Accepted? then
        Moved(s, s.cancelFn, Working).(bound := s.tasks[s.cancelFn].id, scanner := Idle)
      else s
    case Cancelling(_) => s.(cancelled := s.cancelled + {s.cancelFn}, scanner := Idle)
  }

  /** The tail of `runTask`: cancellation wins over any run error, `busy` is cleared
      before the terminal frame, and unbinding comes last. */
  function OnTask(s: State, n: nat): State
    requires n < |s.tasks|
  {
    match s.tasks[n].pc
    case Returned(failed) =>
      Moved(s, n, Clearing(if n in s.cancelled then Cancelled else if failed then Errored else Complete))
    case Clearing(o) => Moved(s, n, Sending(o)).(busy := false)
    case Sending(o) => Moved(s, n, Unbinding(o)).(wire := s.wire + [Terminal(n, o)])
    case Unbinding(o) => Moved(s, n, Gone(o)).(bound := if s.bound == s.tasks[n].id then "" else s.bound)
    case _ => s
  }

  function Next(s: State, a: Action): State {
    match a
    case Receive(m) => if s.scanner.Idle? then OnReceive(s, m) else s
    case ScannerTurn => OnScanner(s)
    case Chunk(n) => if n < |s.tasks| && s.tasks[n].pc.Working? then s.(wire := s.wire + [Running(n)]) else s
    case Finish(n, failed) => if n < |s.tasks| && s.tasks[n].pc.Working? then Moved(s, n, Returned(failed)) else s
    case TaskTurn(n) => if n < |s.tasks| then OnTask(s, n) else s
  }

  function After(run: seq<Action>): State {
    if |run| == 0 then BOOT else Next(After(run[..|run| - 1]), run[|run| - 1])
  }

  // ---- what a task has put on the wire ----

  predicate OfTask(f: Frame, n: nat) {
    (f.Running? || f.Terminal?) && f.task == n
  }

  function FramesOf(wire: seq<Frame>, n: nat): seq<Frame> {
    if |wire| == 0 then []
    else
      FramesOf(wire[..|wire| - 1], n) + if OfTask(wire[|wire| - 1], n) then [wire[|wire| - 1]] else []
  }

  predicate AllRunning(fs: seq<Frame>, n: nat) {
    forall k :: 0 <= k < |fs| ==> fs[k] == Running(n)
  }

  /** Some running frames, then one terminal frame once it has been sent. */
  predicate Stream(fs: seq<Frame>, n: nat, pc: Pc) {
    if SentTerminal(pc) then
      |fs| > 0 && AllRunning(fs[..|fs| - 1], n) && fs[|fs| - 1] == Terminal(n, pc.sent)
    else AllRunning(fs, n) && (pc.Accepted? ==> fs == [])
  }

  /** Who is in the window, and whom a cancel would hit. */
  ghost predicate Control(s: State) {
    && (forall k :: 0 <= k < |s.tasks| - 1 ==> !InWindow(s.tasks[k].pc))
    && (s.busy <==> |s.tasks| > 0 && InWindow(s.tasks[|s.tasks| - 1].pc))
    && (|s.tasks| > 0 ==> s.cancelFn == |s.tasks| - 1)
    && (s.scanner.Starting? <==> |s.tasks| > 0 && s.tasks[|s.tasks| - 1].pc.Accepted?)
    && (s.scanner.Cancelling? ==> s.scanner.accepted == |s.tasks| && |s.tasks| > 0)
    && (forall n :: n in s.cancelled ==> n < |s.tasks|)
  }

  ghost predicate StreamOk(s: State, n: nat) {
    if n < |s.tasks| then Stream(FramesOf(s.wire, n), n, s.tasks[n].pc) else FramesOf(s.wire, n) == []
  }

  ghost predicate Inv(s: State) {
    Control(s) && forall n: nat :: StreamOk(s, n)
  }

  lemma FramesOfSend(wire: seq<Frame>, f: Frame, n: nat)
    ensures FramesOf(wire + [f], n) == FramesOf(wire, n) + if OfTask(f, n) then [f] else []
  {
    assert (wire + [f])[..|wire|] == wire;
  }

  lemma ReceiveControl(s: State, m: Message)
    requires Control(s) && s.scanner.Idle?
    ensures Control(OnReceive(s, m))
  {
  }

  lemma TaskControl(s: State, n: nat)
    requires Control(s) && n < |s.tasks|
    ensures Control(OnTask(s, n))
  {
  }

  lemma NextControl(s: State, a: Action)
    requires Control(s)
    ensures Control(Next(s, a))
  {
    if a.TaskTurn? && a.task < |s.tasks| {
      TaskControl(s, a.task);
    } else if a.Receive? && s.scanner.Idle? {
      ReceiveControl(s, a.m);
    }
  }

  lemma SendingStream(fs: seq<Frame>, n: nat, o: Outcome)
    requires AllRunning(fs, n)
    ensures Stream(fs + [Terminal(n, o)], n, Unbinding(o))
  {
    assert (fs + [Terminal(n, o)])[..|fs|] == fs;
  }

  /** How one action changes one task's own view: its point and its frames. */
  lemma NextLocal(s: State, a: Action, n: nat)
    requires n < |s.tasks|
    ensures var s' := Next(s, a); var pc, pc' := s.tasks[n].pc, s'.tasks[n].pc;
      if a == Chunk(n) && pc.Working? then pc' == pc && s'.wire == s.wire + [Running(n)]
      else if a == TaskTurn(n) && pc.Sending? then pc' == Unbinding(pc.outcome) && s'.wire == s.wire + [Terminal(n, pc.outcome)]
      else
        && (s'.wire == s.wire || (exists f :: !OfTask(f, n) && s'.wire == s.wire + [f]))
        && (SentTerminal(pc) ==> SentTerminal(pc') && pc'.sent == pc.sent)
        && (SentTerminal(pc') ==> SentTerminal(pc))
        && (pc'.Accepted? ==> pc.Accepted?)
  {
    var s' := Next(s, a);
    if s'.wire != s.wire {
      assert s'.wire == s.wire + [s'.wire[|s.wire|]];
    }
  }

  lemma OthersFrames(wire: seq<Frame>, wire': seq<Frame>, n: nat)
    requires wire' == wire || exists f :: !OfTask(f, n) && wire' == wire + [f]
    ensures FramesOf(wire', n) == FramesOf(wire, n)
  {
    if wire' != wire {
      var f :| !OfTask(f, n) && wire' == wire + [f];
      FramesOfSend(wire, f, n);
    }
  }

  lemma SilentStream(s: State, a: Action, n: nat)
    requires n < |s.tasks| && StreamOk(s, n)
    requires !(a == Chunk(n) && s.tasks[n].pc.Working?) && !(a == TaskTurn(n) && s.tasks[n].pc.Sending?)
    ensures StreamOk(Next(s, a), n)
  {
    NextLocal(s, a, n);
    OthersFrames(s.wire, Next(s, a).wire, n);
    IdsStay(s, a);
  }

  lemma ChunkStream(s: State, s': State, n: nat)
    requires n < |s.tasks| && n < |s'.tasks| && StreamOk(s, n) && s.tasks[n].pc.Working?
    requires s'.tasks[n].pc.Working? && s'.wire == s.wire + [Running(n)]
    ensures StreamOk(s', n)
  {
    FramesOfSend(s.wire, Running(n), n);
  }

  lemma TerminalStream(s: State, s': State, n: nat)
    requires n < |s.tasks| && n < |s'.tasks| && StreamOk(s, n) && s.tasks[n].pc.Sending?
    requires var o := s.tasks[n].pc.outcome; s'.tasks[n].pc == Unbinding(o) && s'.wire == s.wire + [Terminal(n, o)]
    ensures StreamOk(s', n)
  {
    var fs, o := FramesOf(s.wire, n), s.tasks[n].pc.outcome;
    FramesOfSend(s.wire, Terminal(n, o), n);
    assert AllRunning(fs, n);
    SendingStream(fs, n, o);
  }

  lemma NextStream(s: State, a: Action, n: nat)
    requires StreamOk(s, n)
    ensures StreamOk(Next(s, a), n)
  {
    if n >= |s.tasks| {
      NewcomerFrames(s, a, n);
    } else if a == Chunk(n) && s.tasks[n].pc.Working? {
      NextLocal(s, a, n);
      ChunkStream(s, Next(s, a), n);
    } else if a == TaskTurn(n) && s.tasks[n].pc.Sending? {
      NextLocal(s, a, n);
      TerminalStream(s, Next(s, a), n);
    } else {
      SilentStream(s, a, n);
    }
  }

  lemma NewcomerFrames(s: State, a: Action, n: nat)
    requires n >= |s.tasks| && FramesOf(s.wire, n) == []
    ensures FramesOf(Next(s, a).wire, n) == []
    ensures n < |Next(s, a).tasks| ==> Next(s, a).tasks[n].pc.Accepted?
  {
    var s' := Next(s, a);
    if s'.wire != s.wire {
      var f := s'.wire[|s.wire|];
      assert s'.wire == s.wire + [f] && !OfTask(f, n);
    }
    OthersFrames(s.wire, s'.wire, n);
  }

  lemma {:induction false} Always(run: seq<Action>)
    ensures Inv(After(run))
  {
    if |run| > 0 {
      var g, a := run[..|run| - 1], run[|run| - 1];
      Always(g);
      NextControl(After(g), a);
      forall n: nat
        ensures StreamOk(After(run), n)
      {
        assert StreamOk(After(g), n);
        NextStream(After(g), a, n);
      }
    } else {
      assert Control(BOOT);
    }
  }

  // ---- the promises of the connection ----

  /** At most one task lies between winning `busy` and clearing it. */
  lemma OneTaskAtATime(run: seq<Action>, a: nat, b: nat)
    requires var s := After(run);
      a < |s.tasks| && b < |s.tasks| && InWindow(s.tasks[a].pc) && InWindow(s.tasks[b].pc)
    ensures a == b
  {
    Always(run);
  }

  /** Each accepted start puts its running frames and then exactly one terminal
      frame on the wire, the latter as soon as it is past sending. */
  lemma OneTerminalEach(run: seq<Action>, n: nat)
    requires n < |After(run).tasks|
    ensures Stream(FramesOf(After(run).wire, n), n, After(run).tasks[n].pc)
  {
    Always(run);
    assert StreamOk(After(run), n);
  }

  predicate NobodyInWindow(s: State) {
    forall n :: 0 <= n < |s.tasks| ==> !InWindow(s.tasks[n].pc)
  }

  /** The scanner takes a well-formed start. */
  predicate Starts(s: State, a: Action) {
    s.scanner.Idle? && a.Receive? && a.m.Start? && a.m.id != "" && a.m.valid
  }

  /** The ids of the starts received while no task was in the window, in order. */
  ghost function AcceptedIds(run: seq<Action>): seq<string> {
    if |run| == 0 then []
    else
      var g, a := run[..|run| - 1], run[|run| - 1];
      AcceptedIds(g) + if Starts(After(g), a) && NobodyInWindow(After(g)) then [a.m.id] else []
  }

  /** What the client is owed at once: a conflict for a start received while a task was
      in the window, a bad request for anything malformed. */
  function ReplyTo(s: State, a: Action): seq<Frame> {
    if Starts(s, a) then if NobodyInWindow(s) then [] else [Conflict(a.m.id)]
    else if s.scanner.Idle? && a.Receive? && !a.m.Cancel? then [BadRequest]
    else []
  }

  /** The same over a run. */
  ghost function Refusals(run: seq<Action>): seq<Frame> {
    if |run| == 0 then []
    else
      var g, a := run[..|run| - 1], run[|run| - 1];
      Refusals(g) + ReplyTo(After(g), a)
  }

  function Ids(tasks: seq<Task>): (ids: seq<string>)
    ensures |ids| == |tasks|
  {
    seq(|tasks|, i requires 0 <= i < |tasks| => tasks[i].id)
  }

  predicate IsReply(f: Frame) {
    f.Conflict? || f.BadRequest?
  }

  /** The frames that belong to no task. */
  function Replies(wire: seq<Frame>): seq<Frame> {
    if |wire| == 0 then []
    else
      var f := wire[|wire| - 1];
      Replies(wire[..|wire| - 1]) + if IsReply(f) then [f] else []
  }

  lemma RepliesSend(wire: seq<Frame>, f: Frame)
    ensures Replies(wire + [f]) == Replies(wire) + if IsReply(f) then [f] else []
  {
    assert (wire + [f])[..|wire|] == wire;
  }

  lemma BusyMeansWindow(s: State)
    requires Control(s)
    ensures s.busy <==> !NobodyInWindow(s)
  {
  }

  lemma IdsStep(s: State, a: Action)
    requires Control(s)
    ensures Ids(Next(s, a).tasks) == Ids(s.tasks) + if Starts(s, a) && NobodyInWindow(s) then [a.m.id] else []
  {
    BusyMeansWindow(s);
  }

  /** A step puts its reply on the wire, or one frame of a task, or nothing. */
  lemma WireStep(s: State, a: Action)
    requires Control(s)
    ensures var s' := Next(s, a);
      if a.Receive? then s'.wire == s.wire + ReplyTo(s, a)
      else ReplyTo(s, a) == [] && (s'.wire == s.wire || exists f :: !IsReply(f) && s'.wire == s.wire + [f])
  {
    BusyMeansWindow(s);
    var s' := Next(s, a);
    if !a.Receive? && s'.wire != s.wire {
      assert s'.wire == s.wire + [s'.wire[|s.wire|]];
    }
  }

  lemma RepliesStep(s: State, a: Action)
    requires Control(s)
    ensures Replies(Next(s, a).wire) == Replies(s.wire) + ReplyTo(s, a)
  {
    WireStep(s, a);
    RepliesGrow(s.wire, Next(s, a).wire, ReplyTo(s, a));
  }

  lemma RepliesGrow(wire: seq<Frame>, wire': seq<Frame>, r: seq<Frame>)
    requires |r| <= 1 && forall f :: f in r ==> IsReply(f)
    requires wire' == wire + r || (r == [] && exists f :: !IsReply(f) && wire' == wire + [f])
    ensures Replies(wire') == Replies(wire) + r
  {
    if |r| == 1 {
      assert r == [r[0]];
      RepliesSend(wire, r[0]);
    } else if wire' == wire + r {
      assert wire' == wire;
    } else {
      var f :| !IsReply(f) && wire' == wire + [f];
      RepliesSend(wire, f);
    }
  }

  /** Over any run the tasks are exactly the starts accepted in it, in order, so a
      refused start never becomes a task and never runs; and each refused one gets its
      one answer, in order. */
  lemma {:induction false} RefusedNeverRuns(run: seq<Action>)
    ensures Ids(After(run).tasks) == AcceptedIds(run)
    ensures Replies(After(run).wire) == Refusals(run)
  {
    if |run| > 0 {
      var g, a := run[..|run| - 1], run[|run| - 1];
      RefusedNeverRuns(g);
      Always(g);
      IdsStep(After(g), a);
      RepliesStep(After(g), a);
    }
  }

  /** However many task steps intervene between the cancel's look at `busy` and the
      call of the cancel function, the task it cancels is the one that was current
      when the cancel arrived. */
  lemma CancelHitsCurrent(run: seq<Action>)
    requires After(run).scanner.Cancelling?
    ensures var s, s' := After(run), After(run + [ScannerTurn]);
      && s'.cancelled == s.cancelled + {s.scanner.accepted - 1}
      && |s'.tasks| == s.scanner.accepted
  {
    assert (run + [ScannerTurn])[..|run|] == run;
    Always(run);
  }

  /** The turns a task needs after its graph run has returned. */
  function TurnsLeft(pc: Pc): nat {
    match pc
    case Returned(_) => 4
    case Clearing(_) => 3
    case Sending(_) => 2
    case Unbinding(_) => 1
    case _ => 0
  }

  function Repeat(n: nat, count: nat): seq<Action> {
    seq(count, i => TaskTurn(n))
  }

  /** What is still to come for a task: its spawn, the return of its graph run, its turns. */
  function Remaining(n: nat, pc: Pc): seq<Action> {
    match pc
    case Accepted => [ScannerTurn, Finish(n, false)] + Repeat(n, 4)
    case Working => [Finish(n, false)] + Repeat(n, 4)
    case _ => Repeat(n, TurnsLeft(pc))
  }

  lemma {:induction false} TurnsEnd(run: seq<Action>, n: nat)
    requires n < |After(run).tasks|
    requires var pc := After(run).tasks[n].pc; !pc.Accepted? && !pc.Working?
    ensures var s := After(run + Repeat(n, TurnsLeft(After(run).tasks[n].pc)));
      n < |s.tasks| && s.tasks[n].pc.Gone? && Stream(FramesOf(s.wire, n), n, s.tasks[n].pc)
    decreases TurnsLeft(After(run).tasks[n].pc)
  {
    var k := TurnsLeft(After(run).tasks[n].pc);
    if k == 0 {
      assert run + Repeat(n, 0) == run;
      OneTerminalEach(run, n);
    } else {
      var step := run + [TaskTurn(n)];
      assert step[..|run|] == run;
      TurnsEnd(step, n);
      assert run + Repeat(n, k) == step + Repeat(n, k - 1);
    }
  }

  lemma WorkEnds(run: seq<Action>, n: nat)
    requires n < |After(run).tasks| && After(run).tasks[n].pc.Working?
    ensures var s := After(run + ([Finish(n, false)] + Repeat(n, 4)));
      n < |s.tasks| && s.tasks[n].pc.Gone? && Stream(FramesOf(s.wire, n), n, s.tasks[n].pc)
  {
    var step := run + [Finish(n, false)];
    AfterMore(run, Finish(n, false));
    TurnsEnd(step, n);
    assert run + ([Finish(n, false)] + Repeat(n, 4)) == step + Repeat(n, 4);
  }

  /** Nothing can block a task: from any reachable point its spawn, the return of its
      graph run and its own turns, as far as they are still to come, take it to its end,
      with its one terminal frame sent. */
  lemma TaskEnds(run: seq<Action>, n: nat)
    requires n < |After(run).tasks|
    ensures var s := After(run + Remaining(n, After(run).tasks[n].pc));
      n < |s.tasks| && s.tasks[n].pc.Gone? && Stream(FramesOf(s.wire, n), n, s.tasks[n].pc)
  {
    match After(run).tasks[n].pc {
      case Accepted =>
        Always(run);
        var step := run + [ScannerTurn];
        AfterMore(run, ScannerTurn);
        WorkEnds(step, n);
        assert run + Remaining(n, Accepted) == step + ([Finish(n, false)] + Repeat(n, 4));
      case Working =>
        WorkEnds(run, n);
      case _ =>
        TurnsEnd(run, n);
    }
  }

  // ---- what the terminal frame says ----

  /** The task has not yet looked whether it was cancelled. */
  predicate Undecided(pc: Pc) {
    pc.Accepted? || pc.Working? || pc.Returned?
  }

  function OutcomeOf(pc: Pc): Outcome
    requires !Undecided(pc)
  {
    match pc
    case Clearing(o) => o
    case Sending(o) => o
    case Unbinding(o) => o
    case Gone(o) => o
  }

  /** Step `k` of the run calls task `n`'s cancel function before the task looks. */
  ghost predicate CancelledAt(run: seq<Action>, k: int, n: nat) {
    0 <= k < |run| && run[k].ScannerTurn? &&
    var s := After(run[..k]);
    s.scanner.Cancelling? && s.cancelFn == n && n < |s.tasks| && Undecided(s.tasks[n].pc)
  }

  ghost predicate CancelledInTime(run: seq<Action>, n: nat) {
    exists k :: CancelledAt(run, k, n)
  }

  ghost predicate Decided(run: seq<Action>, n: nat) {
    var s := After(run);
    n < |s.tasks| &&
    if Undecided(s.tasks[n].pc) then n in s.cancelled <==> CancelledInTime(run, n)
    else OutcomeOf(s.tasks[n].pc) == Cancelled <==> CancelledInTime(run, n)
  }

  lemma CancelledInTimeStep(g: seq<Action>, a: Action, n: nat)
    ensures CancelledInTime(g + [a], n) <==> CancelledInTime(g, n) || CancelledAt(g + [a], |g|, n)
  {
    var run := g + [a];
    forall k | 0 <= k < |g|
      ensures CancelledAt(run, k, n) <==> CancelledAt(g, k, n)
    {
      assert run[..k] == g[..k];
    }
    if CancelledInTime(g, n) {
      var k :| CancelledAt(g, k, n);
      assert CancelledAt(run, k, n);
    }
  }

  lemma {:induction false} TasksOnlyGrow(run: seq<Action>, k: nat)
    requires k <= |run|
    ensures |After(run[..k]).tasks| <= |After(run).tasks|
    decreases |run| - k
  {
    if k == |run| {
      assert run[..k] == run;
    } else {
      TasksOnlyGrow(run, k + 1);
      assert run[..k + 1] == run[..k] + [run[k]];
      AfterMore(run[..k], run[k]);
      IdsStay(After(run[..k]), run[k]);
    }
  }

  /** A task just accepted was not cancelled before it was there. */
  lemma NewcomerUncancelled(g: seq<Action>, n: nat)
    requires n >= |After(g).tasks|
    ensures !CancelledInTime(g, n) && n !in After(g).cancelled
  {
    Always(g);
    forall k | 0 <= k < |g|
      ensures !CancelledAt(g, k, n)
    {
      TasksOnlyGrow(g, k);
    }
  }

  /** How a step moves one task's decision. */
  lemma DecisionStep(s: State, a: Action, n: nat)
    requires Control(s) && n < |s.tasks|
    ensures var s' := Next(s, a); var pc, pc' := s.tasks[n].pc, s'.tasks[n].pc;
      && (n in s'.cancelled <==> n in s.cancelled || (a.ScannerTurn? && s.scanner.Cancelling? && s.cancelFn == n))
      && (!Undecided(pc) ==> !Undecided(pc') && OutcomeOf(pc') == OutcomeOf(pc))
      && (Undecided(pc) && !Undecided(pc') ==>
            !a.ScannerTurn? && (OutcomeOf(pc') == Cancelled <==> n in s.cancelled))
  {
  }

  /** Over any run, a task that has looked sends `cancelled` exactly when its cancel
      function was called before it looked. */
  lemma {:induction false} OutcomeDecided(run: seq<Action>, n: nat)
    requires n < |After(run).tasks|
    ensures Decided(run, n)
  {
    if |run| > 0 {
      var g, a := run[..|run| - 1], run[|run| - 1];
      assert run == g + [a];
      AfterMore(g, a);
      Always(g);
      CancelledInTimeStep(g, a, n);
      assert run[..|g|] == g;
      if n < |After(g).tasks| {
        OutcomeDecided(g, n);
        DecisionStep(After(g), a, n);
      } else {
        NewcomerUncancelled(g, n);
      }
    }
  }

  /** So does its terminal frame on the wire. */
  lemma TerminalSaysCancelledIff(run: seq<Action>, n: nat)
    requires n < |After(run).tasks| && SentTerminal(After(run).tasks[n].pc)
    ensures var fs := FramesOf(After(run).wire, n);
      |fs| > 0 && fs[|fs| - 1].Terminal? && (fs[|fs| - 1].outcome == Cancelled <==> CancelledInTime(run, n))
  {
    OneTerminalEach(run, n);
    OutcomeDecided(run, n);
  }

  // ---- the approval bridge's binding ----

  predicate DistinctIds(s: State) {
    forall i, j :: 0 <= i < j < |s.tasks| ==> s.tasks[i].id != s.tasks[j].id
  }

  /** The latest task, once spawned and until its own end, is the bound one. */
  predicate BindingHeld(s: State) {
    var n := |s.tasks|;
    n > 0 && !s.tasks[n - 1].pc.Accepted? && !s.tasks[n - 1].pc.Gone? ==> s.bound == s.tasks[n - 1].id
  }

  lemma IdsStay(s: State, a: Action)
    ensures |s.tasks| <= |Next(s, a).tasks|
    ensures forall k :: 0 <= k < |s.tasks| ==> Next(s, a).tasks[k].id == s.tasks[k].id
  {
  }

  lemma BindingStep(s: State, a: Action)
    requires Control(s) && BindingHeld(s) && DistinctIds(s)
    ensures BindingHeld(Next(s, a))
  {
    if a.TaskTurn? && a.task + 1 < |s.tasks| {
      assert s.tasks[a.task].id != s.tasks[|s.tasks| - 1].id;
    }
  }

  /** With distinct task ids an old task's end never unbinds a newer task. */
  lemma {:induction false} EndNeverUnbindsNewer(run: seq<Action>)
    requires DistinctIds(After(run))
    ensures BindingHeld(After(run))
  {
    if |run| > 0 {
      var g, a := run[..|run| - 1], run[|run| - 1];
      IdsStay(After(g), a);
      EndNeverUnbindsNewer(g);
      Always(g);
      BindingStep(After(g), a);
    }
  }

  /** The action is the end of an older task with the id of the newest, task `n`,
      after that one was spawned. */
  predicate Steals(s: State, a: Action, n: nat) {
    && a.TaskTurn? && |s.tasks| == n + 1 && !s.tasks[n].pc.Accepted?
    && a.task < n && s.tasks[a.task].pc.Unbinding? && s.tasks[a.task].id == s.tasks[n].id
  }

  ghost predicate StolenAt(run: seq<Action>, k: int, n: nat) {
    0 <= k < |run| && Steals(After(run[..k]), run[k], n)
  }

  ghost predicate Stolen(run: seq<Action>, n: nat) {
    exists k :: StolenAt(run, k, n)
  }

  lemma StolenStep(g: seq<Action>, a: Action, n: nat)
    ensures Stolen(g + [a], n) <==> Stolen(g, n) || Steals(After(g), a, n)
  {
    var run := g + [a];
    forall k | 0 <= k < |g|
      ensures StolenAt(run, k, n) <==> StolenAt(g, k, n)
    {
      assert run[..k] == g[..k];
    }
    assert run[..|g|] == g;
    assert StolenAt(run, |g|, n) <==> Steals(After(g), a, n);
    if Stolen(g, n) {
      var k :| StolenAt(g, k, n);
      assert StolenAt(run, k, n);
    }
  }

  /** The newest task is spawned and not yet at its own end. */
  predicate NewestHolds(s: State) {
    |s.tasks| > 0 && !s.tasks[|s.tasks| - 1].pc.Accepted? && !s.tasks[|s.tasks| - 1].pc.Gone?
  }

  lemma NotYetStolen(g: seq<Action>, n: nat)
    requires |After(g).tasks| <= n || (|After(g).tasks| == n + 1 && After(g).tasks[n].pc.Accepted?)
    ensures !Stolen(g, n)
  {
    forall k | 0 <= k < |g|
      ensures !StolenAt(g, k, n)
    {
      TasksOnlyGrow(g, k);
      if |After(g[..k]).tasks| == n + 1 {
        AcceptedStays(g, k, n);
      }
    }
  }

  /** A task that is still only accepted has been so ever since it was there. */
  lemma {:induction false} AcceptedStays(run: seq<Action>, k: nat, n: nat)
    requires k <= |run| && n < |After(run[..k]).tasks|
    ensures n < |After(run).tasks| && (After(run).tasks[n].pc.Accepted? ==> After(run[..k]).tasks[n].pc.Accepted?)
    decreases |run| - k
  {
    if k == |run| {
      assert run[..k] == run;
    } else {
      assert run[..k + 1] == run[..k] + [run[k]];
      AfterMore(run[..k], run[k]);
      IdsStay(After(run[..k]), run[k]);
      NextLocal(After(run[..k]), run[k], n);
      AcceptedStays(run, k + 1, n);
    }
  }

  ghost predicate BoundUnlessStolen(run: seq<Action>) {
    var s := After(run);
    NewestHolds(s) ==> (s.bound == s.tasks[|s.tasks| - 1].id <==> !Stolen(run, |s.tasks| - 1))
  }

  predicate IdsNamed(s: State) {
    forall n :: 0 <= n < |s.tasks| ==> s.tasks[n].id != ""
  }

  lemma BindingMove(s: State, a: Action)
    requires Control(s) && IdsNamed(s) && NewestHolds(Next(s, a))
    ensures IdsNamed(Next(s, a)) && |Next(s, a).tasks| == |s.tasks|
    ensures var s' := Next(s, a); var n := |s.tasks| - 1; var id := s.tasks[n].id;
      if NewestHolds(s) then
        s'.bound == id <==> s.bound == id && !Steals(s, a, n)
      else s.tasks[n].pc.Accepted? && a.ScannerTurn? && s'.bound == id
  {
  }

  lemma {:induction false} AlwaysNamed(run: seq<Action>)
    ensures IdsNamed(After(run))
  {
    if |run| > 0 {
      AlwaysNamed(run[..|run| - 1]);
      NamedStep(After(run[..|run| - 1]), run[|run| - 1]);
    }
  }

  lemma NamedStep(s: State, a: Action)
    requires IdsNamed(s)
    ensures IdsNamed(Next(s, a))
  {
  }

  lemma StillBound(g: seq<Action>, a: Action)
    requires BoundUnlessStolen(g) && NewestHolds(After(g)) && NewestHolds(Next(After(g), a))
    ensures BoundUnlessStolen(g + [a])
  {
    AfterMore(g, a);
    Always(g);
    AlwaysNamed(g);
    BindingMove(After(g), a);
    StolenStep(g, a, |After(g).tasks| - 1);
  }

  lemma NewlyBound(g: seq<Action>, a: Action)
    requires !NewestHolds(After(g)) && NewestHolds(Next(After(g), a))
    ensures BoundUnlessStolen(g + [a])
  {
    AfterMore(g, a);
    Always(g);
    AlwaysNamed(g);
    BindingMove(After(g), a);
    var n := |After(g).tasks| - 1;
    StolenStep(g, a, n);
    NotYetStolen(g, n);
  }

  lemma BoundStep(g: seq<Action>, a: Action)
    requires BoundUnlessStolen(g)
    ensures BoundUnlessStolen(g + [a])
  {
    AfterMore(g, a);
    if NewestHolds(Next(After(g), a)) {
      if NewestHolds(After(g)) {
        StillBound(g, a);
      } else {
        NewlyBound(g, a);
      }
    }
  }

  /** Ids do repeat if the client reuses one.  Over any run the newest task, once
      spawned and until its own end, is bound exactly as long as no older task with the
      same id has ended since. */
  lemma {:induction false} EndUnbindsNewerIff(run: seq<Action>)
    ensures BoundUnlessStolen(run)
  {
    if |run| > 0 {
      var g, a := run[..|run| - 1], run[|run| - 1];
      EndUnbindsNewerIff(g);
      BoundStep(g, a);
      assert run == g + [a];
    }
  }

  lemma AfterMore(run: seq<Action>, a: Action)
    ensures After(run + [a]) == Next(After(run), a)
  {
    assert (run + [a])[..|run|] == run;
  }

  lemma Played(run: seq<Action>, a: Action, s: State) returns (longer: seq<Action>)
    requires After(run) == s
    ensures longer == run + [a] && After(longer) == Next(s, a)
  {
    AfterMore(run, a);
    longer := run + [a];
  }

  /** A run that loses the binding: the id is reused right after the terminal frame. */
  lemma ReusedIdLosesBinding()
    ensures exists run :: !BindingHeld(After(run))
  {
    var r := Played([], Receive(Start("t", true)), BOOT);
    r := Played(r, ScannerTurn, State(true, 0, {}, [Task("t", Accepted)], "", Starting, []));
    r := Played(r, Finish(0, false), State(true, 0, {}, [Task("t", Working)], "t", Idle, []));
    r := Played(r, TaskTurn(0), State(true, 0, {}, [Task("t", Returned(false))], "t", Idle, []));
    r := Played(r, TaskTurn(0), State(true, 0, {}, [Task("t", Clearing(Complete))], "t", Idle, []));
    r := Played(r, TaskTurn(0), State(false, 0, {}, [Task("t", Sending(Complete))], "t", Idle, []));
    var wire := [Terminal(0, Complete)];
    var earlier := Task("t", Unbinding(Complete));
    r := Played(r, Receive(Start("t", true)), State(false, 0, {}, [earlier], "t", Idle, wire));
    r := Played(r, ScannerTurn, State(true, 1, {}, [earlier, Task("t", Accepted)], "t", Starting, wire));
    r := Played(r, TaskTurn(0), State(true, 1, {}, [earlier, Task("t", Working)], "t", Idle, wire));
    assert !BindingHeld(After(r));
  }
}
