/** Why a Loop goes on and why it stops, stated over whole runs of
    core/agentgraph/exec_control.go: the condition between iterations, the gate, the
    error policies, and what the batch and the stored outputs then hold. */
module LoopStops {
  import opened Wrappers
  import opened BranchTokens
  import opened BranchValues
  import BranchParser
  import opened BodyFires
  import opened BodyTrace
  import opened LoopNode

  /** No policy helps against this failure of the `n`-th call. */
  predicate Hopeless(w: World, n: nat, err: Failure) {
    || err.kind == PausedError
    || err.kind == BudgetError
    || err.kind == CancelledError
    || err.kind == DeadlineError
    || err.kind == InvalidRequest
    || w.done(n)
  }

  predicate LastEventIs(st: Run, e: Event) {
    |st.events| > 0 && st.events[|st.events| - 1] == e
  }

  predicate AfterAdapt(st: Run) {
    |st.events| > 0 && st.events[|st.events| - 1].Adapted?
  }

  /** The latest call was of `id` and came back with `o`. */
  predicate LastCall(w: World, st: Run, id: string, o: Outcome) {
    |st.calls| > 0 && st.calls[|st.calls| - 1].node == id && w.fire(|st.calls| - 1) == o
  }

  /** The failure that ends the loop: the policy is to stop, or no policy helps, or it
      is the one repetition that failed again. */
  predicate FailedForGood(w: World, st: Run, id: string, err: Failure) {
    && LastCall(w, st, id, Failed(err))
    && |st.events| > 0 && st.events[|st.events| - 1].Terminal?
    && st.events[|st.events| - 1].node == id && st.events[|st.events| - 1].err == err
    && (|| w.policy == StopPolicy
        || Hopeless(w, |st.calls|, err)
        || (&& w.policy == RetryOncePolicy && |st.calls| > 1 && |st.events| > 1
            && w.fire(|st.calls| - 2).Failed? && st.events[|st.events| - 2] == Retried(id, w.fire(|st.calls| - 2).err)
            && !Hopeless(w, |st.calls| - 1, w.fire(|st.calls| - 2).err)))
  }

  /** How one body fire ends, and with what. */
  predicate VerdictTold(w: World, st: Run, id: string, v: Verdict) {
    match v
    case Go(s) =>
      && |s.calls| > 0 && s.calls[|s.calls| - 1].node == id && Landed(w, true, |s.calls| - 1)
      && s.current == w.fire(|s.calls| - 1).outputs && |s.events| > 0 && !AfterAdapt(s)
    case AdaptedBy(s) =>
      && w.policy == AdaptPolicy && |s.calls| > 0 && s.calls[|s.calls| - 1].node == id
      && w.fire(|s.calls| - 1).Failed? && !Hopeless(w, |s.calls|, w.fire(|s.calls| - 1).err)
      && LastEventIs(s, Adapted(id, w.fire(|s.calls| - 1).err))
      && s.current == s.calls[|s.calls| - 1].inputs["adapted_error" := w.note(id, w.fire(|s.calls| - 1).err)]
    case Stopped(s, BadBody(UnknownBody(i))) => s == st && i == id && id !in w.nodes
    case Stopped(s, BadBody(NoExecutor(kind))) => s == st && id in w.nodes && w.nodes[id] == kind && kind !in w.kinds
    case Stopped(s, BodyFailed(i, err)) => i == id && FailedForGood(w, s, id, err)
    case Stopped(s, PausedOut) =>
      && |s.calls| > 0 && s.calls[|s.calls| - 1].node == id
      && w.fire(|s.calls| - 1).Returned? && w.fire(|s.calls| - 1).pause
    case _ => false
  }

  lemma TerminalIsHopeless(w: World, n: nat, err: Failure)
    ensures IsTerminal(w, n, err) == Hopeless(w, n, err)
  {
  }

  lemma FireBodyTold(w: World, st: Run, id: string, iter: nat)
    ensures VerdictTold(w, st, id, FireBody(w, st, id, iter))
  {
    if LookUp(w, id).None? {
      var (s, o) := Attempted(w, st.Emit(Start(id, iter)), id);
      match o {
        case Failed(err) => TerminalIsHopeless(w, |s.calls|, err);
        case Returned(_, _, _) =>
      }
    }
  }

  // ---- the batch and the stored outputs ----

  ghost predicate Told(w: World, was: map<string, PortValues>, st: Run) {
    Tells(w, true, st) && StoredRight(w, true, was, st.calls, st.stored)
  }

  /** Inside a fire: the outputs are still those from before its latest call. */
  ghost predicate MidFire(w: World, was: map<string, PortValues>, st: Run, id: string) {
    && Tells(w, true, st) && Latest(st, id) && |st.events| > 0 && !st.events[|st.events| - 1].Own?
    && StoredRight(w, true, was, st.calls[..|st.calls| - 1], st.stored)
  }

  lemma StartMid(w: World, was: map<string, PortValues>, st: Run, id: string, iter: nat)
    requires Told(w, was, st)
    ensures MidFire(w, was, st.Emit(Start(id, iter)).Called(id), id)
  {
    StartTells(w, true, st, id, iter);
    assert st.Called(id).calls[..|st.calls|] == st.calls;
  }

  lemma RetryMid(w: World, was: map<string, PortValues>, st: Run, id: string, err: Failure)
    requires MidFire(w, was, st, id) && w.fire(|st.calls| - 1) == Failed(err)
    ensures MidFire(w, was, st.Emit(Retried(id, err)).Called(id), id)
  {
    var n := |st.calls| - 1;
    RetryTells(w, true, st, id, err);
    StoredNext(w, true, was, st.calls[..n], st.stored, st.calls[n]);
    assert st.calls[..n] + [st.calls[n]] == st.calls;
    assert st.Called(id).calls[..|st.calls|] == st.calls;
  }

  lemma AttemptedMid(w: World, was: map<string, PortValues>, st: Run, id: string, iter: nat)
    requires Told(w, was, st)
    ensures var (s, o) := Attempted(w, st.Emit(Start(id, iter)), id);
      MidFire(w, was, s, id) && o == w.fire(|s.calls| - 1)
  {
    var s1 := st.Emit(Start(id, iter)).Called(id);
    StartMid(w, was, st, id, iter);
    var o := w.fire(|st.calls|);
    if o.Failed? {
      RetryMid(w, was, s1, id, o.err);
    }
  }

  lemma FailureKeeps(w: World, was: map<string, PortValues>, st: Run, id: string, e: Event, err: Failure)
    requires MidFire(w, was, st, id) && w.fire(|st.calls| - 1) == Failed(err)
    requires e == Adapted(id, err) || (e.Terminal? && e.node == id && e.err == err)
    ensures Told(w, was, st.Emit(e))
  {
    var n := |st.calls| - 1;
    FailureTells(w, true, st, id, e, err);
    StoredNext(w, true, was, st.calls[..n], st.stored, st.calls[n]);
    assert st.calls[..n] + [st.calls[n]] == st.calls;
  }

  lemma ReturnKeeps(w: World, was: map<string, PortValues>, st: Run, id: string, iter: nat)
    requires MidFire(w, was, st, id) && w.fire(|st.calls| - 1).Returned?
    ensures var o := w.fire(|st.calls| - 1);
      Told(w, was, if o.pause then st.Emit(Complete(id, iter, |o.outputs|)) else Completed(st, id, iter, o))
  {
    var n := |st.calls| - 1;
    StoredNext(w, true, was, st.calls[..n], st.stored, st.calls[n]);
    assert st.calls[..n] + [st.calls[n]] == st.calls;
    if w.fire(n).pause {
      PauseTells(w, st, id, iter);
    } else {
      CompletedTells(w, true, st, id, iter);
    }
  }

  lemma FireBodyKeeps(w: World, was: map<string, PortValues>, st: Run, id: string, iter: nat)
    requires Told(w, was, st)
    ensures Told(w, was, FireBody(w, st, id, iter).st)
  {
    if LookUp(w, id).None? {
      AttemptedMid(w, was, st, id, iter);
      var (s, o) := Attempted(w, st.Emit(Start(id, iter)), id);
      match o {
        case Failed(err) =>
          FailureKeeps(w, was, s, id, Adapted(id, err), err);
          FailureKeeps(w, was, s, id, Terminal(id, iter, err), err);
          CurrentApart(w, was, s.Emit(Adapted(id, err)), s.current[ADAPTED_PORT := w.note(id, err)]);
        case Returned(_, _, _) => ReturnKeeps(w, was, s, id, iter);
      }
    }
  }

  lemma CurrentApart(w: World, was: map<string, PortValues>, st: Run, current: PortValues)
    requires Told(w, was, st)
    ensures Told(w, was, st.(current := current))
  {
  }

  lemma {:induction false} PassKeeps(w: World, was: map<string, PortValues>, st: Run, body: seq<string>, iter: nat)
    requires Told(w, was, st)
    ensures Told(w, was, Pass(w, st, body, iter).st)
    decreases |body|
  {
    if |body| > 0 {
      FireBodyKeeps(w, was, st, body[0], iter);
      var v := FireBody(w, st, body[0], iter);
      if v.Go? {
        PassKeeps(w, was, v.st, body[1..], iter);
      }
    }
  }

  lemma {:induction false} IterateKeeps(w: World, a: Attrs, was: map<string, PortValues>, st: Run, done: nat, adapted: bool)
    requires Told(w, was, st)
    ensures Told(w, was, Iterate(w, a, st, done, adapted).0)
    decreases a.maxIterations - done
  {
    if done < a.maxIterations {
      PassKeeps(w, was, st, a.body, done + 1);
      var v := Pass(w, st, a.body, done + 1);
      if !v.Stopped? {
        IterateKeeps(w, a, was, v.st, done + 1, v.AdaptedBy?);
      }
    }
  }

  /** Every event of the batch tells the truth about its call, and the run state ends
      up with each body node's last outputs that were not a pause's. */
  lemma LoopTells(w: World, a: Attrs, inputs: PortValues, stored: map<string, PortValues>)
    ensures var s := Execution(w, a, inputs, stored).0;
      Tells(w, true, s) && StoredRight(w, true, stored, s.calls, s.stored)
  {
    IterateKeeps(w, a, stored, Fresh(inputs, stored), 0, false);
  }

  // ---- why the loop stopped ----

  predicate GatesOpen(a: Attrs, n: int) {
    forall j :: 0 <= j < n ==> a.gate(j) == None
  }

  /** What each way of ending says about the run that ended so. */
  ghost predicate Ends(w: World, a: Attrs, s: Run, r: Result<nat, LoopError>) {
    match r
    case Ok(n) =>
      && n <= a.maxIterations && GatesOpen(a, n)
      && (n < a.maxIterations ==>
            && n > 0 && a.gate(n) == None && !AfterAdapt(s)
            && a.condition != "" && BranchParser.EvalBranch(w.host, s.current, a.condition) == Ok(false))
    case Err(BadCap) => a.maxIterations <= 0
    case Err(GateError(e)) => exists n: nat :: n < a.maxIterations && a.gate(n) == Some(e) && GatesOpen(a, n)
    case Err(ConditionError(why)) =>
      && a.condition != "" && BranchParser.EvalBranch(w.host, s.current, a.condition) == Err(why) && !AfterAdapt(s)
    case Err(BadBody(UnknownBody(id))) => id in a.body && id !in w.nodes
    case Err(BadBody(NoExecutor(kind))) => kind !in w.kinds && exists id :: id in a.body && id in w.nodes && w.nodes[id] == kind
    case Err(BodyFailed(id, err)) => id in a.body && FailedForGood(w, s, id, err)
    case Err(PausedOut) =>
      && |s.calls| > 0 && s.calls[|s.calls| - 1].node in a.body
      && w.fire(|s.calls| - 1).Returned? && w.fire(|s.calls| - 1).pause
  }

  lemma {:induction false} PassStops(w: World, a: Attrs, st: Run, body: seq<string>, iter: nat)
    requires forall id :: id in body ==> id in a.body
    ensures var v := Pass(w, st, body, iter);
      match v
      case Go(s) => |body| > 0 ==> !AfterAdapt(s)
      case AdaptedBy(s) => AfterAdapt(s)
      case Stopped(s, e) => Ends(w, a, s, Err(e))
    decreases |body|
  {
    if |body| > 0 {
      FireBodyTold(w, st, body[0], iter);
      var v := FireBody(w, st, body[0], iter);
      if v.Go? {
        PassStops(w, a, v.st, body[1..], iter);
        if |body| == 1 {
          assert Pass(w, st, body, iter) == v;
        }
      }
    }
  }

  lemma {:induction false} IterateEnds(w: World, a: Attrs, st: Run, done: nat, adapted: bool)
    requires done <= a.maxIterations && GatesOpen(a, done) && adapted == AfterAdapt(st)
    requires |a.body| == 0 ==> !adapted
    ensures var (s, r) := Iterate(w, a, st, done, adapted);
      Ends(w, a, s, r) && (r.Ok? ==> r.value >= done) && (r.Err? ==> r.error != BadCap)
    decreases a.maxIterations - done
  {
    if done < a.maxIterations {
      assert a.gate(done) == None ==> GatesOpen(a, done + 1);
      PassStops(w, a, st, a.body, done + 1);
      var v := Pass(w, st, a.body, done + 1);
      if Ask(w, a, st, done, adapted) == Ok(true) && !v.Stopped? {
        IterateEnds(w, a, v.st, done + 1, v.AdaptedBy?);
      }
    }
  }

  /** A loop ends well either at the cap or because its condition came out false on the
      last payload, never right after an adapt; every other ending names its cause. */
  lemma LoopEnds(w: World, a: Attrs, inputs: PortValues, stored: map<string, PortValues>)
    ensures var (s, r) := Execution(w, a, inputs, stored);
      Ends(w, a, s, r) && (a.maxIterations <= 0 <==> r == Err(BadCap))
  {
    if a.maxIterations > 0 {
      IterateEnds(w, a, Fresh(inputs, stored), 0, false);
    }
  }

  // ---- the condition held whenever the loop went round again ----

  /** The start at `p` is the first of its iteration. */
  ghost predicate Opens(es: seq<Event>, p: nat)
    requires p < |es|
  {
    es[p].Start? && forall q :: 0 <= q < p && es[q].Start? ==> es[q].iter < es[p].iter
  }

  /** If `p` opens a further iteration and does not follow an adapt, the payload its call
      is handed satisfies the condition. */
  ghost predicate OpenedBy(w: World, a: Attrs, calls: seq<Call>, es: seq<Event>, p: nat)
    requires p < |es|
  {
    Opens(es, p) && es[p].iter > 1 && a.condition != "" && !(p > 0 && es[p - 1].Adapted?) ==>
      var c := CallsIn(es[..p]);
      c < |calls| && BranchParser.EvalBranch(w.host, calls[c].inputs, a.condition) == Ok(true)
  }

  ghost predicate ConditionHeld(w: World, a: Attrs, st: Run) {
    forall p :: 0 <= p < |st.events| ==> OpenedBy(w, a, st.calls, st.events, p)
  }

  lemma OpenedKept(w: World, a: Attrs, st: Run, s: Run, p: nat)
    requires p < |st.events| && OpenedBy(w, a, st.calls, st.events, p)
    requires st.calls <= s.calls && st.events <= s.events
    ensures OpenedBy(w, a, s.calls, s.events, p)
  {
    assert s.events[..p] == st.events[..p];
    assert forall q :: 0 <= q <= p ==> s.events[q] == st.events[q];
    assert forall k :: 0 <= k < |st.calls| ==> s.calls[k] == st.calls[k];
  }

  lemma AttemptedShape(w: World, st: Run, id: string) returns (more: seq<Event>)
    ensures var s := Attempted(w, st, id).0;
      && s.events == st.events + more && NoStarts(more)
      && st.calls + [Call(id, st.current)] <= s.calls
  {
    var o := w.fire(|st.calls|);
    more := if Attempted(w, st, id).0.events == st.events then [] else [Retried(id, o.err)];
  }

  /** A fire adds its start, nothing else that starts, and its call on the payload. */
  lemma FireBodyShape(w: World, st: Run, id: string, iter: nat) returns (more: seq<Event>)
    requires LookUp(w, id).None?
    ensures var s := FireBody(w, st, id, iter).st;
      && s.events == st.events + [Start(id, iter)] + more && NoStarts(more)
      && st.calls + [Call(id, st.current)] <= s.calls
  {
    var s0 := st.Emit(Start(id, iter));
    var inner := AttemptedShape(w, s0, id);
    var (s, o) := Attempted(w, s0, id);
    match o {
      case Failed(err) =>
        more := inner + FireBody(w, st, id, iter).st.events[|s.events|..];
      case Returned(outputs, own, pause) =>
        more := inner + (if pause then [] else OwnEvents(id, own)) + [Complete(id, iter, |outputs|)];
    }
  }

  ghost predicate HasStart(es: seq<Event>, iter: nat) {
    exists q :: 0 <= q < |es| && es[q].Start? && es[q].iter == iter
  }

  /** What allows iteration `iter` to begin. */
  predicate MayOpen(w: World, a: Attrs, st: Run, iter: nat) {
    iter <= 1 || a.condition == "" || AfterAdapt(st) ||
    BranchParser.EvalBranch(w.host, st.current, a.condition) == Ok(true)
  }

  lemma FireBodyHeld(w: World, a: Attrs, st: Run, id: string, iter: nat)
    requires Settled(st, iter) && ConditionHeld(w, a, st) && (MayOpen(w, a, st, iter) || HasStart(st.events, iter))
    ensures var s := FireBody(w, st, id, iter).st;
      ConditionHeld(w, a, s) && (LookUp(w, id).None? ==> HasStart(s.events, iter))
  {
    if LookUp(w, id).None? {
      var s := FireBody(w, st, id, iter).st;
      var more := FireBodyShape(w, st, id, iter);
      var n := |st.events|;
      assert s.events[n] == Start(id, iter);
      forall p | 0 <= p < |s.events|
        ensures OpenedBy(w, a, s.calls, s.events, p)
      {
        if p < n {
          OpenedKept(w, a, st, s, p);
        } else if p == n {
          StartHeld(w, a, st, s, id, iter);
        }
      }
    }
  }

  lemma StartHeld(w: World, a: Attrs, st: Run, s: Run, id: string, iter: nat)
    requires Settled(st, iter) && (MayOpen(w, a, st, iter) || HasStart(st.events, iter))
    requires st.events + [Start(id, iter)] <= s.events && st.calls + [Call(id, st.current)] <= s.calls
    ensures OpenedBy(w, a, s.calls, s.events, |st.events|)
  {
    var n := |st.events|;
    assert s.events[..n] == st.events && s.events[n] == Start(id, iter);
    assert forall q :: 0 <= q < n ==> s.events[q] == st.events[q];
    assert s.calls[|st.calls|] == Call(id, st.current);
  }

  lemma {:induction false} PassHeld(w: World, a: Attrs, st: Run, body: seq<string>, iter: nat)
    requires Settled(st, iter) && iter >= 1 && ConditionHeld(w, a, st)
    requires MayOpen(w, a, st, iter) || HasStart(st.events, iter)
    ensures ConditionHeld(w, a, Pass(w, st, body, iter).st)
    decreases |body|
  {
    if |body| > 0 {
      FireBodyHeld(w, a, st, body[0], iter);
      FireBodySettles(w, st, body[0], iter);
      var v := FireBody(w, st, body[0], iter);
      if v.Go? {
        PassHeld(w, a, v.st, body[1..], iter);
      }
    }
  }

  lemma {:induction false} IterateHeld(w: World, a: Attrs, st: Run, done: nat, adapted: bool)
    requires Settled(st, done) && ConditionHeld(w, a, st) && (adapted ==> AfterAdapt(st))
    ensures ConditionHeld(w, a, Iterate(w, a, st, done, adapted).0)
    decreases a.maxIterations - done
  {
    if done < a.maxIterations && Ask(w, a, st, done, adapted) == Ok(true) {
      PassHeld(w, a, st, a.body, done + 1);
      PassSettles(w, st, a.body, done + 1);
      PassStops(w, a, st, a.body, done + 1);
      var v := Pass(w, st, a.body, done + 1);
      if !v.Stopped? {
        IterateHeld(w, a, v.st, done + 1, v.AdaptedBy?);
      }
    }
  }

  /** Every iteration after the first that does not follow an adapt begins with a payload
      on which the condition is true. */
  lemma LoopConditionHeld(w: World, a: Attrs, inputs: PortValues, stored: map<string, PortValues>)
    ensures ConditionHeld(w, a, Execution(w, a, inputs, stored).0)
  {
    if a.maxIterations > 0 {
      IterateHeld(w, a, Fresh(inputs, stored), 0, false);
    }
  }

  // ---- the starts of each iteration ----

  lemma FireBodyStartsOf(w: World, st: Run, id: string, iter: nat, i: nat)
    ensures StartsOf(FireBody(w, st, id, iter).st.events, i) ==
      StartsOf(st.events, i) + if LookUp(w, id).None? && i == iter then [id] else []
  {
    if LookUp(w, id).None? {
      var more := FireBodyShape(w, st, id, iter);
      var es := st.events + [Start(id, iter)];
      StartsOfMore(es, more, i);
      assert es[..|es| - 1] == st.events;
    }
  }

  /** A pass starts a prefix of the body in its own iteration, all of it if it ends well. */
  lemma {:induction false} PassStartsOf(w: World, st: Run, body: seq<string>, iter: nat, i: nat) returns (n: nat)
    ensures var v := Pass(w, st, body, iter);
      && n <= |body| && (v.Go? ==> n == |body|)
      && StartsOf(v.st.events, i) == StartsOf(st.events, i) + if i == iter then body[..n] else []
    decreases |body|
  {
    n := 0;
    if |body| > 0 {
      FireBodyStartsOf(w, st, body[0], iter, i);
      var v := FireBody(w, st, body[0], iter);
      if v.Go? {
        var m := PassStartsOf(w, v.st, body[1..], iter, i);
        n := m + 1;
        BodyPrefix(StartsOf(st.events, i), body, m);
      } else if LookUp(w, body[0]).None? {
        n := 1;
        assert body[..1] == [body[0]];
      }
    }
  }

  /** The starts of iteration `i` once `done` iterations are over: the whole body, cut
      short only by an adapt, and nothing yet for later ones. */
  ghost predicate Whole(w: World, a: Attrs, es: seq<Event>, done: nat, i: nat) {
    if i == 0 || i > done then StartsOf(es, i) == []
    else StartsOf(es, i) == a.body || (w.policy == AdaptPolicy && StartsOf(es, i) <= a.body)
  }

  lemma {:induction false} IterateStarts(w: World, a: Attrs, st: Run, done: nat, adapted: bool, i: nat)
    requires done <= a.maxIterations && Whole(w, a, st.events, done, i)
    ensures var (s, r) := Iterate(w, a, st, done, adapted);
      StartsOf(s.events, i) <= a.body && (r.Ok? ==> Whole(w, a, s.events, r.value, i))
    decreases a.maxIterations - done
  {
    if done < a.maxIterations && Ask(w, a, st, done, adapted) == Ok(true) {
      var n := PassStartsOf(w, st, a.body, done + 1, i);
      PassAdapts(w, st, a.body, done + 1);
      var v := Pass(w, st, a.body, done + 1);
      assert a.body[..n] <= a.body && (n == |a.body| ==> a.body[..n] == a.body);
      assert i == done + 1 ==> [] + a.body[..n] == a.body[..n];
      if !v.Stopped? {
        IterateStarts(w, a, v.st, done + 1, v.AdaptedBy?, i);
      }
    }
  }

  lemma {:induction false} PassAdapts(w: World, st: Run, body: seq<string>, iter: nat)
    ensures Pass(w, st, body, iter).AdaptedBy? ==> w.policy == AdaptPolicy
    decreases |body|
  {
    if |body| > 0 {
      FireBodyTold(w, st, body[0], iter);
      var v := FireBody(w, st, body[0], iter);
      if v.Go? {
        PassAdapts(w, v.st, body[1..], iter);
      }
    }
  }

  /** Each iteration starts the body's nodes in the body's order.  Up to the count a
      loop that ends well reports, every iteration starts all of them unless an adapt
      cut it short, and nothing is started beyond that count. */
  lemma LoopStartsInOrder(w: World, a: Attrs, inputs: PortValues, stored: map<string, PortValues>, i: nat)
    ensures var (s, r) := Execution(w, a, inputs, stored);
      StartsOf(s.events, i) <= a.body && (r.Ok? ==> Whole(w, a, s.events, r.value, i))
  {
    if a.maxIterations > 0 {
      IterateStarts(w, a, Fresh(inputs, stored), 0, false, i);
    }
  }

  /** The ports a loop that ends well shows: its payload under `out`, the count under
      `iterations`, and every payload port not of those two names as it is. */
  lemma SurfacedPorts(current: PortValues, n: nat, port: string)
    ensures var outs := Surfaced(current, n);
      && (port == "out" ==> port in outs && outs[port] == VPorts(current))
      && (port == "iterations" ==> port in outs && outs[port] == VInt(n))
      && (port != "out" && port != "iterations" ==>
            (port in outs <==> port in current) && (port in current ==> outs[port] == current[port]))
  {
    assert "out" != "iterations" by {
      assert |"out"| == 3 && |"iterations"| == 10;
    }
  }
}
