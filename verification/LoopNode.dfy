/** The Loop container (core/agentgraph/exec_control.go): error policies, the
    condition between iterations, the turn-pause gate. */
module LoopNode {
  import opened Wrappers
  import opened BranchTokens
  import opened BranchValues
  import BranchParser
  import opened BodyFires

  /** `gate(i)` is what waiting at the turn-pause gate before iteration i returns. */
  datatype Attrs = Attrs(body: seq<string>, condition: string, maxIterations: int, gate: nat -> Option<Failure>)

  datatype LoopError =
    | BadCap
    | GateError(err: Failure)
    | ConditionError(why: BranchError)
    | BadBody(lookup: LookupError)
    | BodyFailed(id: string, err: Failure)
    | PausedOut

  /** How one body fire, or one pass over the body, ends. */
  datatype Verdict = Go(st: Run) | AdaptedBy(st: Run) | Stopped(st: Run, err: LoopError)

  const ADAPTED_PORT := "adapted_error"

  /** The call, and under retry-once its single repetition with the same inputs. */
  function Attempted(w: World, st: Run, id: string): (Run, Outcome) {
    var s1 := st.Called(id);
    var o := w.fire(|st.calls|);
    if o.Failed? && w.policy.RetryOncePolicy? && !IsTerminal(w, |s1.calls|, o.err) then
      var s2 := s1.Emit(Retried(id, o.err)).Called(id);
      (s2, w.fire(|s1.calls|))
    else (s1, o)
  }

  /** `iter` is the 1-based iteration. */
  function FireBody(w: World, st: Run, id: string, iter: nat): Verdict {
    var bad := LookUp(w, id);
    if bad.Some? then Stopped(st, BadBody(bad.value))
    else
      var (s, o) := Attempted(w, st.Emit(Start(id, iter)), id);
      match o
      case Failed(err) =>
        if w.policy.AdaptPolicy? && !IsTerminal(w, |s.calls|, err) then
          AdaptedBy(s.Emit(Adapted(id, err)).(current := s.current[ADAPTED_PORT := w.note(id, err)]))
        else Stopped(s.Emit(Terminal(id, iter, err)), BodyFailed(id, err))
      case Returned(outputs, _, pause) =>
        if pause then Stopped(s.Emit(Complete(id, iter, |outputs|)), PausedOut)
        else Go(Completed(s, id, iter, o))
  }

  function Pass(w: World, st: Run, body: seq<string>, iter: nat): Verdict
    decreases |body|
  {
    if |body| == 0 then Go(st)
    else
      var v := FireBody(w, st, body[0], iter);
      if v.Go? then Pass(w, v.st, body[1..], iter) else v
  }

  /** Ask before iteration `done + 1`: an error, or whether to go on. */
  function Ask(w: World, a: Attrs, st: Run, done: nat, adaptedLast: bool): Result<bool, LoopError> {
    match a.gate(done)
    case Some(err) => Err(GateError(err))
    case None =>
      if a.condition != "" && done > 0 && !adaptedLast then
        match BranchParser.EvalBranch(w.host, st.current, a.condition)
        case Ok(b) => Ok(b)
        case Err(why) => Err(ConditionError(why))
      else Ok(true)
  }

  /** What is left of the loop after `done` iterations. */
  function Iterate(w: World, a: Attrs, st: Run, done: nat, adaptedLast: bool): (Run, Result<nat, LoopError>)
    decreases a.maxIterations - done
  {
    if done >= a.maxIterations then (st, Ok(done))
    else
      match Ask(w, a, st, done, adaptedLast)
      case Err(e) => (st, Err(e))
      case Ok(more) =>
        if !more then (st, Ok(done))
        else
          match Pass(w, st, a.body, done + 1)
          case Go(s) => Iterate(w, a, s, done + 1, false)
          case AdaptedBy(s) => Iterate(w, a, s, done + 1, true)
          case Stopped(s, e) => (s, Err(e))
  }

  function Execution(w: World, a: Attrs, inputs: PortValues, stored: map<string, PortValues>): (Run, Result<nat, LoopError>) {
    if a.maxIterations <= 0 then (Fresh(inputs, stored), Err(BadCap))
    else Iterate(w, a, Fresh(inputs, stored), 0, false)
  }

  /** The last body outputs on ports of their own, except where the two reserved
      names collide. */
  function Surfaced(current: PortValues, iterations: nat): PortValues {
    current + map["out" := VPorts(current), "iterations" := VInt(iterations)]
  }

  /** `Execute` as written; `st` holds its locals and the batch. */
  method Execute(w: World, a: Attrs, inputs: PortValues, stored: map<string, PortValues>)
    returns (st: Run, out: Result<PortValues, LoopError>)
    ensures st == Execution(w, a, inputs, stored).0
    ensures match Execution(w, a, inputs, stored).1
      case Ok(n) => out == Ok(Surfaced(st.current, n))
      case Err(e) => out == Err(e)
  {
    st := Fresh(inputs, stored);
    if a.maxIterations <= 0 {
      return st, Err(BadCap);
    }
    var iter, adaptedLast := 0, false;
    while iter < a.maxIterations
      invariant 0 <= iter <= a.maxIterations
      invariant Iterate(w, a, st, iter, adaptedLast) == Execution(w, a, inputs, stored)
    {
      var more := Ask(w, a, st, iter, adaptedLast);
      if more.Err? {
        return st, Err(more.error);
      }
      if !more.value {
        break;
      }
      adaptedLast := false;
      ghost var began := st;
      var k := 0;
      while k < |a.body|
        invariant 0 <= k <= |a.body| && !adaptedLast
        invariant Pass(w, began, a.body, iter + 1) == Pass(w, st, a.body[k..], iter + 1)
      {
        assert a.body[k..][1..] == a.body[k + 1..];
        var v := FireBody(w, st, a.body[k], iter + 1);
        st := v.st;
        if v.Stopped? {
          return st, Err(v.err);
        }
        if v.AdaptedBy? {
          adaptedLast := true;
          break;
        }
        k := k + 1;
      }
      iter := iter + 1;
    }
    out := Ok(Surfaced(st.current, iter));
  }

  // ---- the batch is well nested ----

  /** Calls one body fire may make. */
  function PerFire(w: World): nat {
    if w.policy.RetryOncePolicy? then 2 else 1
  }

  lemma AttemptedOpen(w: World, st: Run, id: string, iter: nat)
    requires Settled(st, iter) && iter >= 1
    ensures var (s, o) := Attempted(w, st.Emit(Start(id, iter)), id);
      Open(s, id, iter) && |s.calls| <= |st.calls| + PerFire(w)
  {
    StartOpens(st, id, iter);
    var s1 := st.Emit(Start(id, iter)).Called(id);
    var o := w.fire(|st.calls|);
    if o.Failed? {
      RetryStaysOpen(s1, id, iter, o.err);
    }
  }

  lemma FireBodySettles(w: World, st: Run, id: string, iter: nat)
    requires Settled(st, iter) && iter >= 1
    ensures var v := FireBody(w, st, id, iter);
      Settled(v.st, iter) && |v.st.calls| <= |st.calls| + PerFire(w)
  {
    if LookUp(w, id).None? {
      AttemptedOpen(w, st, id, iter);
      var (s, o) := Attempted(w, st.Emit(Start(id, iter)), id);
      match o {
        case Failed(err) =>
          CloseSettles(s, id, iter, Adapted(id, err));
          CloseSettles(s, id, iter, Terminal(id, iter, err));
        case Returned(outputs, _, _) =>
          CloseSettles(s, id, iter, Complete(id, iter, |outputs|));
          CompletedSettles(s, id, iter, o);
      }
    }
  }

  lemma {:induction false} PassSettles(w: World, st: Run, body: seq<string>, iter: nat)
    requires Settled(st, iter) && iter >= 1
    ensures var v := Pass(w, st, body, iter);
      Settled(v.st, iter) && |v.st.calls| <= |st.calls| + Budget(|body|, PerFire(w))
    decreases |body|
  {
    if |body| > 0 {
      FireBodySettles(w, st, body[0], iter);
      var v := FireBody(w, st, body[0], iter);
      if v.Go? {
        PassSettles(w, v.st, body[1..], iter);
      }
    }
  }

  lemma {:induction false} IterateSettles(w: World, a: Attrs, st: Run, done: nat, adaptedLast: bool)
    requires Settled(st, done) && done <= a.maxIterations
    ensures var (s, r) := Iterate(w, a, st, done, adaptedLast);
      && Settled(s, a.maxIterations)
      && |s.calls| <= |st.calls| + Budget(a.maxIterations - done, Budget(|a.body|, PerFire(w)))
      && (r.Ok? ==> done <= r.value <= a.maxIterations)
    decreases a.maxIterations - done
  {
    if done < a.maxIterations {
      PassSettles(w, st, a.body, done + 1);
      var v := Pass(w, st, a.body, done + 1);
      if !v.Stopped? {
        IterateSettles(w, a, v.st, done + 1, v.AdaptedBy?);
      }
    }
  }

  /** Whatever the body returns, under any policy: body starts and closes pair up one to
      one without overlap, the iterations run from 1 to the cap, every executor
      call is in the batch, and there are at most cap times body length of them, twice
      that under retry-once. */
  lemma LoopWellNested(w: World, a: Attrs, inputs: PortValues, stored: map<string, PortValues>)
    requires a.maxIterations > 0
    ensures var (s, r) := Execution(w, a, inputs, stored);
      && WellNested(s.events, a.maxIterations)
      && |s.calls| == CallsIn(s.events) <= a.maxIterations * (PerFire(w) * |a.body|)
      && (r.Ok? ==> r.value <= a.maxIterations)
  {
    IterateSettles(w, a, Fresh(inputs, stored), 0, false);
    BudgetIsProduct(|a.body|, PerFire(w));
    BudgetIsProduct(a.maxIterations, Budget(|a.body|, PerFire(w)));
    AcceptedWellNested(Execution(w, a, inputs, stored).0.events, a.maxIterations);
  }

  // ---- what each call is handed, and why the loop went on after it ----

  /** The inputs of call number `n`, from the outcomes before it alone. */
  function Handed(w: World, inputs: PortValues, calls: seq<Call>, n: nat): PortValues
    requires n <= |calls|
  {
    if n == 0 then inputs
    else
      match w.fire(n - 1)
      case Returned(outputs, _, _) => outputs
      case Failed(err) =>
        var was := Handed(w, inputs, calls, n - 1);
        if w.policy.AdaptPolicy? then was[ADAPTED_PORT := w.note(calls[n - 1].node, err)] else was
  }

  /** Why there is a call after call `k`: it returned without pausing, or it failed
      transiently and the policy either adapts or repeats that very call. */
  predicate Justified(w: World, calls: seq<Call>, k: nat)
    requires k + 1 < |calls|
  {
    match w.fire(k)
    case Returned(_, _, pause) => !pause
    case Failed(err) =>
      && !IsTerminal(w, k + 1, err)
      && (w.policy.AdaptPolicy? || (w.policy.RetryOncePolicy? && calls[k + 1] == calls[k]))
  }

  ghost predicate Traced(w: World, inputs: PortValues, calls: seq<Call>) {
    && (forall k :: 0 <= k < |calls| ==> calls[k].inputs == Handed(w, inputs, calls, k))
    && (forall k :: 0 <= k < |calls| - 1 ==> Justified(w, calls, k))
  }

  /** The last call lets the loop go on to any other one. */
  predicate Passes(w: World, n: nat) {
    n == 0 ||
    match w.fire(n - 1)
    case Returned(_, _, pause) => !pause
    case Failed(err) => w.policy.AdaptPolicy? && !IsTerminal(w, n, err)
  }

  ghost predicate Ready(w: World, inputs: PortValues, st: Run) {
    Traced(w, inputs, st.calls) && Passes(w, |st.calls|) && st.current == Handed(w, inputs, st.calls, |st.calls|)
  }

  lemma {:induction false} HandedGrows(w: World, inputs: PortValues, calls: seq<Call>, c: Call, n: nat)
    requires n <= |calls|
    ensures Handed(w, inputs, calls + [c], n) == Handed(w, inputs, calls, n)
  {
    if n > 0 {
      HandedGrows(w, inputs, calls, c, n - 1);
    }
  }

  lemma CallTraced(w: World, inputs: PortValues, calls: seq<Call>, c: Call)
    requires Traced(w, inputs, calls) && c.inputs == Handed(w, inputs, calls, |calls|)
    requires |calls| > 0 ==> Justified(w, calls + [c], |calls| - 1)
    ensures Traced(w, inputs, calls + [c])
  {
    var longer := calls + [c];
    forall k | 0 <= k < |longer|
      ensures longer[k].inputs == Handed(w, inputs, longer, k)
    {
      HandedGrows(w, inputs, calls, c, k);
    }
    forall k | 0 <= k < |longer| - 1
      ensures Justified(w, longer, k)
    {
      if k < |calls| - 1 {
        assert Justified(w, calls, k);
      }
    }
  }

  lemma FireBodyTraced(w: World, inputs: PortValues, st: Run, id: string, iter: nat)
    requires Ready(w, inputs, st)
    ensures var v := FireBody(w, st, id, iter); Traced(w, inputs, v.st.calls) && (!v.Stopped? ==> Ready(w, inputs, v.st))
  {
    if LookUp(w, id).None? {
      AttemptedTraced(w, inputs, st.Emit(Start(id, iter)), id);
    }
  }

  lemma AttemptedTraced(w: World, inputs: PortValues, st: Run, id: string)
    requires Ready(w, inputs, st)
    ensures var (s, o) := Attempted(w, st, id);
      && Traced(w, inputs, s.calls) && |s.calls| > 0 && o == w.fire(|s.calls| - 1)
      && s.calls[|s.calls| - 1] == Call(id, s.current) && s.current == st.current
  {
    var c := Call(id, st.current);
    CallTraced(w, inputs, st.calls, c);
    var o := w.fire(|st.calls|);
    if o.Failed? && w.policy.RetryOncePolicy? && !IsTerminal(w, |st.calls| + 1, o.err) {
      HandedGrows(w, inputs, st.calls, c, |st.calls|);
      CallTraced(w, inputs, st.calls + [c], c);
    }
  }

  lemma {:induction false} PassTraced(w: World, inputs: PortValues, st: Run, body: seq<string>, iter: nat)
    requires Ready(w, inputs, st)
    ensures var v := Pass(w, st, body, iter); Traced(w, inputs, v.st.calls) && (!v.Stopped? ==> Ready(w, inputs, v.st))
    decreases |body|
  {
    if |body| > 0 {
      FireBodyTraced(w, inputs, st, body[0], iter);
      var v := FireBody(w, st, body[0], iter);
      if v.Go? {
        PassTraced(w, inputs, v.st, body[1..], iter);
      }
    }
  }

  lemma {:induction false} IterateTraced(w: World, a: Attrs, inputs: PortValues, st: Run, done: nat, adaptedLast: bool)
    requires Ready(w, inputs, st)
    ensures var (s, r) := Iterate(w, a, st, done, adaptedLast);
      Traced(w, inputs, s.calls) && (r.Ok? ==> Ready(w, inputs, s))
    decreases a.maxIterations - done
  {
    if done < a.maxIterations {
      PassTraced(w, inputs, st, a.body, done + 1);
      var v := Pass(w, st, a.body, done + 1);
      if !v.Stopped? {
        IterateTraced(w, a, inputs, v.st, done + 1, v.AdaptedBy?);
      }
    }
  }

  /** Every call is handed what the calls before it produced; a pause, a terminal
      error and, unless the policy adapts or repeats the same call, any error is the
      last thing that happens; and a loop that ends well surfaces the last outputs. */
  lemma LoopThreads(w: World, a: Attrs, inputs: PortValues, stored: map<string, PortValues>)
    ensures var (s, r) := Execution(w, a, inputs, stored);
      && Traced(w, inputs, s.calls)
      && (r.Ok? ==> s.current == Handed(w, inputs, s.calls, |s.calls|) && Passes(w, |s.calls|))
  {
    if a.maxIterations > 0 {
      IterateTraced(w, a, inputs, Fresh(inputs, stored), 0, false);
    }
  }

  // ---- the order of the fires ----

  /** The nodes started, in order. */
  function StartNodes(es: seq<Event>): seq<string> {
    if |es| == 0 then []
    else
      var e := es[|es| - 1];
      StartNodes(es[..|es| - 1]) + if e.Start? then [e.node] else []
  }

  lemma StartNodesNext(es: seq<Event>, e: Event)
    ensures StartNodes(es + [e]) == StartNodes(es) + if e.Start? then [e.node] else []
  {
    assert (es + [e])[..|es|] == es;
  }

  lemma {:induction false} OwnStartsNothing(es: seq<Event>, node: string, own: seq<string>)
    ensures StartNodes(es + OwnEvents(node, own)) == StartNodes(es)
    decreases |own|
  {
    if |own| == 0 {
      assert es + OwnEvents(node, own) == es;
    } else {
      var n := |own| - 1;
      OwnStartsNothing(es, node, own[..n]);
      StartNodesNext(es + OwnEvents(node, own[..n]), Own(node, own[n]));
      assert es + OwnEvents(node, own) == es + OwnEvents(node, own[..n]) + [Own(node, own[n])];
    }
  }

  lemma FireBodyStarts(w: World, st: Run, id: string, iter: nat)
    ensures var v := FireBody(w, st, id, iter);
      StartNodes(v.st.events) == StartNodes(st.events) + if LookUp(w, id).None? then [id] else []
  {
    if LookUp(w, id).None? {
      var s0 := st.Emit(Start(id, iter));
      StartNodesNext(st.events, Start(id, iter));
      var (s, o) := Attempted(w, s0, id);
      AttemptedStarts(w, s0, id);
      match o {
        case Failed(err) =>
          StartNodesNext(s.events, Adapted(id, err));
          StartNodesNext(s.events, Terminal(id, iter, err));
        case Returned(outputs, own, _) =>
          StartNodesNext(s.events, Complete(id, iter, |outputs|));
          OwnStartsNothing(s.events, id, own);
          StartNodesNext(s.events + OwnEvents(id, own), Complete(id, iter, |outputs|));
      }
    }
  }

  lemma AttemptedStarts(w: World, st: Run, id: string)
    ensures StartNodes(Attempted(w, st, id).0.events) == StartNodes(st.events)
  {
    var o := w.fire(|st.calls|);
    if o.Failed? {
      StartNodesNext(st.events, Retried(id, o.err));
    }
  }

  lemma BodyPrefix(before: seq<string>, body: seq<string>, m: nat)
    requires |body| > 0 && m <= |body| - 1
    ensures before + [body[0]] + body[1..][..m] == before + body[..m + 1]
  {
    assert body[..m + 1] == [body[0]] + body[1..][..m];
  }

  /** A pass starts the body's nodes in the body's order, all of them if it ends well,
      and none after the one that failed, paused or could not be found. */
  lemma {:induction false} PassInOrder(w: World, st: Run, body: seq<string>, iter: nat) returns (n: nat)
    ensures var v := Pass(w, st, body, iter);
      && n <= |body| && StartNodes(v.st.events) == StartNodes(st.events) + body[..n]
      && (v.Go? ==> n == |body|) && (v.AdaptedBy? ==> n > 0)
    decreases |body|
  {
    n := 0;
    if |body| > 0 {
      FireBodyStarts(w, st, body[0], iter);
      var v := FireBody(w, st, body[0], iter);
      if v.Go? {
        var m := PassInOrder(w, v.st, body[1..], iter);
        n := m + 1;
        BodyPrefix(StartNodes(st.events), body, m);
      } else if LookUp(w, body[0]).None? {
        n := 1;
        assert body[..1] == [body[0]];
      }
    }
  }
}
