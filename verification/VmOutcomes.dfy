/** What the VM agent's terminal frames report, traced back to what happened: how the
    graph run returned, and when a cancel arrived (cmd/harness-vm/main.go). */
module VmOutcomes {
  import opened VmConnection

  // ---- how the graph run returned ----

  /** Step `k` of the run is the return of task `n`'s graph run. */
  ghost predicate ReturnedAt(run: seq<Action>, k: int, n: nat, failed: bool) {
    && 0 <= k < |run| && run[k] == Finish(n, failed)
    && n < |After(run[..k]).tasks| && After(run[..k]).tasks[n].pc.Working?
  }

  ghost predicate GraphRun(run: seq<Action>, n: nat, failed: bool) {
    exists k :: ReturnedAt(run, k, n, failed)
  }

  ghost predicate NotYet(run: seq<Action>, n: nat) {
    !GraphRun(run, n, true) && !GraphRun(run, n, false)
  }

  /** The graph run has come back, in one way only. */
  ghost predicate CameBack(run: seq<Action>, n: nat, failed: bool) {
    GraphRun(run, n, failed) && !GraphRun(run, n, !failed)
  }

  ghost predicate Reported(run: seq<Action>, n: nat)
    requires n < |After(run).tasks|
  {
    match After(run).tasks[n].pc
    case Accepted => NotYet(run, n)
    case Working => NotYet(run, n)
    case Returned(failed) => CameBack(run, n, failed)
    case _ =>
      var o := OutcomeOf(After(run).tasks[n].pc);
      && (CameBack(run, n, true) || CameBack(run, n, false))
      && (o == Errored ==> CameBack(run, n, true))
      && (o == Complete ==> CameBack(run, n, false))
  }

  lemma GraphRunStep(g: seq<Action>, a: Action, n: nat, failed: bool)
    ensures GraphRun(g + [a], n, failed) <==>
      GraphRun(g, n, failed) || (a == Finish(n, failed) && n < |After(g).tasks| && After(g).tasks[n].pc.Working?)
  {
    var run := g + [a];
    assert run[..|g|] == g;
    assert ReturnedAt(run, |g|, n, failed) <==>
      a == Finish(n, failed) && n < |After(g).tasks| && After(g).tasks[n].pc.Working?;
    forall k | 0 <= k < |g|
      ensures ReturnedAt(run, k, n, failed) <==> ReturnedAt(g, k, n, failed)
    {
      assert run[..k] == g[..k];
    }
    if GraphRun(g, n, failed) {
      var k :| ReturnedAt(g, k, n, failed);
      assert ReturnedAt(run, k, n, failed);
    }
  }

  lemma NoReturnBefore(g: seq<Action>, n: nat)
    requires n >= |After(g).tasks|
    ensures NotYet(g, n)
  {
    forall k, failed | 0 <= k < |g|
      ensures !ReturnedAt(g, k, n, failed)
    {
      TasksOnlyGrow(g, k);
    }
  }

  /** One task's point, moved by one action. */
  lemma PointStep(s: State, a: Action, n: nat)
    requires Control(s) && n < |s.tasks|
    ensures var pc, pc' := s.tasks[n].pc, Next(s, a).tasks[n].pc;
      match pc
      case Accepted => pc' == Accepted || pc' == Working
      case Working => pc' == if a == Finish(n, true) then Returned(true) else if a == Finish(n, false) then Returned(false) else Working
      case Returned(failed) =>
        pc' == if a == TaskTurn(n) then Clearing(if n in s.cancelled then Cancelled else if failed then Errored else Complete) else pc
      case _ => !Undecided(pc') && OutcomeOf(pc') == OutcomeOf(pc)
  {
  }

  lemma ReportedStep(g: seq<Action>, a: Action, n: nat)
    requires n < |After(g).tasks| && Reported(g, n)
    ensures n < |After(g + [a]).tasks| && Reported(g + [a], n)
  {
    AfterMore(g, a);
    Always(g);
    IdsStay(After(g), a);
    PointStep(After(g), a, n);
    GraphRunStep(g, a, n, true);
    GraphRunStep(g, a, n, false);
  }

  /** Over any run: before its graph run returns a task has nothing to report; one that
      has looked and was not cancelled reports an error exactly if its graph run came
      back with one, and completion exactly if it came back well. */
  lemma {:induction false} AlwaysReported(run: seq<Action>, n: nat)
    requires n < |After(run).tasks|
    ensures Reported(run, n)
  {
    if |run| > 0 {
      var g, a := run[..|run| - 1], run[|run| - 1];
      assert run == g + [a];
      if n < |After(g).tasks| {
        AlwaysReported(g, n);
        ReportedStep(g, a, n);
      } else {
        NewcomerReported(g, a, n);
      }
    }
  }

  lemma NewcomerReported(g: seq<Action>, a: Action, n: nat)
    requires |After(g).tasks| <= n < |After(g + [a]).tasks|
    ensures Reported(g + [a], n)
  {
    AfterMore(g, a);
    Always(g);
    assert StreamOk(After(g), n);
    NewcomerFrames(After(g), a, n);
    NoReturnBefore(g, n);
    GraphRunStep(g, a, n, true);
    GraphRunStep(g, a, n, false);
  }

  /** What a task's terminal frame says is decided by two things alone: a cancel in time,
      and otherwise how the graph run came back. */
  lemma TerminalSays(run: seq<Action>, n: nat)
    requires n < |After(run).tasks| && SentTerminal(After(run).tasks[n].pc)
    ensures var fs := FramesOf(After(run).wire, n);
      && |fs| > 0
      && fs[|fs| - 1] == Terminal(n, if CancelledInTime(run, n) then Cancelled
                                     else if GraphRun(run, n, true) then Errored
                                     else Complete)
      && (CameBack(run, n, true) || CameBack(run, n, false))
  {
    OneTerminalEach(run, n);
    OutcomeDecided(run, n);
    AlwaysReported(run, n);
  }

  // ---- when a cancel takes effect ----

  /** Step `j` takes a cancel off the connection while task `n` is between winning `busy`
      and clearing it. */
  ghost predicate CancelTaken(run: seq<Action>, j: int, n: nat) {
    && 0 <= j < |run| && run[j] == Receive(Cancel)
    && var s := After(run[..j]); s.scanner.Idle? && n < |s.tasks| && InWindow(s.tasks[n].pc)
  }

  predicate NoScannerTurn(run: seq<Action>, from: int) {
    forall i :: from <= i < |run| && 0 <= i ==> !run[i].ScannerTurn?
  }

  ghost predicate TakenSince(run: seq<Action>, j: int, n: nat) {
    CancelTaken(run, j, n) && NoScannerTurn(run, j + 1)
  }

  /** The scanner has a cancel for task `n` in hand. */
  ghost predicate InHand(run: seq<Action>, n: nat) {
    exists j :: TakenSince(run, j, n)
  }

  lemma InHandStep(g: seq<Action>, a: Action, n: nat)
    ensures InHand(g + [a], n) <==>
      (InHand(g, n) && !a.ScannerTurn?) || CancelTaken(g + [a], |g|, n)
  {
    var run := g + [a];
    assert run[|g|] == a;
    forall j | 0 <= j < |g|
      ensures TakenSince(run, j, n) <==> TakenSince(g, j, n) && !a.ScannerTurn?
    {
      assert run[..j] == g[..j];
      assert forall i :: 0 <= i < |g| ==> run[i] == g[i];
    }
    assert TakenSince(run, |g|, n) <==> CancelTaken(run, |g|, n);
    if InHand(run, n) {
      var j :| TakenSince(run, j, n);
      assert 0 <= j < |run|;
      if j < |g| {
        assert TakenSince(g, j, n);
      }
    }
    if InHand(g, n) && !a.ScannerTurn? {
      var j :| TakenSince(g, j, n);
      assert TakenSince(run, j, n);
    }
  }

  lemma ScannerStep(s: State, a: Action, n: nat)
    requires Control(s)
    ensures var s' := Next(s, a);
      s'.scanner.Cancelling? && s'.cancelFn == n <==>
        || (s.scanner.Cancelling? && s.cancelFn == n && !a.ScannerTurn?)
        || (a == Receive(Cancel) && s.scanner.Idle? && n < |s.tasks| && InWindow(s.tasks[n].pc))
  {
    BusyMeansWindow(s);
  }

  lemma {:induction false} HandIff(run: seq<Action>, n: nat)
    ensures After(run).scanner.Cancelling? && After(run).cancelFn == n <==> InHand(run, n)
  {
    if |run| > 0 {
      var g, a := run[..|run| - 1], run[|run| - 1];
      assert run == g + [a];
      AfterMore(g, a);
      Always(g);
      HandIff(g, n);
      InHandStep(g, a, n);
      ScannerStep(After(g), a, n);
      assert run[..|g|] == g;
    }
  }

  /** Step `k` is the scanner's turn with a cancel for task `n` in hand, before the task
      has looked. */
  ghost predicate StoppedAt(run: seq<Action>, k: int, n: nat) {
    && 0 <= k < |run| && run[k].ScannerTurn? && InHand(run[..k], n)
    && n < |After(run[..k]).tasks| && Undecided(After(run[..k]).tasks[n].pc)
  }

  /** A task is cancelled in time exactly when a cancel was taken off the connection while
      the task was in the window, and the scanner's next turn came before the task looked.
      A cancel that finds nobody in the window, or comes while another frame is in
      hand, cancels nothing. */
  lemma CancelledInTimeIff(run: seq<Action>, n: nat)
    ensures CancelledInTime(run, n) <==> exists k :: StoppedAt(run, k, n)
  {
    forall k | 0 <= k < |run|
      ensures CancelledAt(run, k, n) <==> StoppedAt(run, k, n)
    {
      HandIff(run[..k], n);
    }
    if CancelledInTime(run, n) {
      var k :| CancelledAt(run, k, n);
      assert StoppedAt(run, k, n);
    }
    if k :| StoppedAt(run, k, n) {
      assert CancelledAt(run, k, n);
    }
  }

  /** A cancel taken while task `n` is current stops it at the scanner's next turn,
      whatever the tasks do in between. */
  lemma CancelTakesEffect(run: seq<Action>, between: seq<Action>, n: nat)
    requires var s := After(run); s.scanner.Idle? && n < |s.tasks| && InWindow(s.tasks[n].pc)
    requires NoScannerTurn(between, 0)
    ensures n in After(run + [Receive(Cancel)] + between + [ScannerTurn]).cancelled
  {
    var taken := run + [Receive(Cancel)];
    assert taken[..|run|] == run;
    var later := taken + between;
    assert later[..|run|] == run && later[|run|] == Receive(Cancel);
    assert forall i :: |run| < i < |later| ==> later[i] == between[i - |taken|];
    assert TakenSince(later, |run|, n);
    HandIff(later, n);
    AfterMore(later, ScannerTurn);
  }

  // ---- one running frame a chunk ----

  /** The chunks task `n` has streamed while its graph run was under way. */
  ghost function Streamed(run: seq<Action>, n: nat): nat {
    if |run| == 0 then 0
    else
      var g := run[..|run| - 1];
      var works := n < |After(g).tasks| && After(g).tasks[n].pc.Working?;
      Streamed(g, n) + if run[|run| - 1] == Chunk(n) && works then 1 else 0
  }

  function RunningCount(wire: seq<Frame>, n: nat): nat {
    if |wire| == 0 then 0
    else RunningCount(wire[..|wire| - 1], n) + if wire[|wire| - 1] == Running(n) then 1 else 0
  }

  lemma RunningSend(wire: seq<Frame>, f: Frame, n: nat)
    ensures RunningCount(wire + [f], n) == RunningCount(wire, n) + if f == Running(n) then 1 else 0
  {
    assert (wire + [f])[..|wire|] == wire;
  }

  lemma RunningStep(s: State, a: Action, n: nat)
    ensures RunningCount(Next(s, a).wire, n) ==
      RunningCount(s.wire, n) + if a == Chunk(n) && n < |s.tasks| && s.tasks[n].pc.Working? then 1 else 0
  {
    var s' := Next(s, a);
    if s'.wire != s.wire {
      var f := s'.wire[|s.wire|];
      assert s'.wire == s.wire + [f];
      RunningSend(s.wire, f, n);
    }
  }

  /** Every chunk streamed is on the wire as one running frame, and nothing else is. */
  lemma {:induction false} RunningPerChunk(run: seq<Action>, n: nat)
    ensures RunningCount(After(run).wire, n) == Streamed(run, n)
  {
    if |run| > 0 {
      RunningPerChunk(run[..|run| - 1], n);
      RunningStep(After(run[..|run| - 1]), run[|run| - 1], n);
    }
  }

  // ---- when the connection takes the next task ----

  ghost predicate TerminalSent(s: State, n: nat) {
    exists o :: Terminal(n, o) in FramesOf(s.wire, n)
  }

  lemma TerminalMeansSent(run: seq<Action>, n: nat)
    requires n < |After(run).tasks| && TerminalSent(After(run), n)
    ensures SentTerminal(After(run).tasks[n].pc)
  {
    OneTerminalEach(run, n);
    var fs := FramesOf(After(run).wire, n);
    var o :| Terminal(n, o) in fs;
    var k :| 0 <= k < |fs| && fs[k] == Terminal(n, o);
  }

  /** Once the client has every task's terminal frame, its next well-formed start is
      accepted: it never races the clearing of `busy`. */
  lemma StartAfterTerminal(run: seq<Action>, id: string)
    requires After(run).scanner.Idle? && id != ""
    requires forall n :: 0 <= n < |After(run).tasks| ==> TerminalSent(After(run), n)
    ensures var s, s' := After(run), After(run + [Receive(Start(id, true))]);
      s'.tasks == s.tasks + [Task(id, Accepted)] && s'.wire == s.wire
  {
    Always(run);
    AfterMore(run, Receive(Start(id, true)));
    forall n | 0 <= n < |After(run).tasks|
      ensures !InWindow(After(run).tasks[n].pc)
    {
      TerminalMeansSent(run, n);
    }
    BusyMeansWindow(After(run));
  }

  /** While some graph run is under way, or has returned and not been looked at, a start
      gets a conflict and nothing else happens. */
  lemma StartWhileWorking(run: seq<Action>, id: string, n: nat)
    requires After(run).scanner.Idle? && id != "" && n < |After(run).tasks|
    requires var pc := After(run).tasks[n].pc; pc.Working? || pc.Returned?
    ensures var s, s' := After(run), After(run + [Receive(Start(id, true))]);
      s' == s.(wire := s.wire + [Conflict(id)])
  {
    Always(run);
    AfterMore(run, Receive(Start(id, true)));
    BusyMeansWindow(After(run));
  }
}
