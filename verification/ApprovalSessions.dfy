/** Whose approvals a connection reports: what binds a task, and which approvals that
    task's frames may carry (cmd/harness-vm/approvals.go, cmd/harness-vm/approvalgate.go). */
module ApprovalSessions {
  import opened Wrappers
  import opened ApprovalBridge

  // ---- which task is bound ----

  /** Step `k` bound the task, and nothing since has bound another or ended it. */
  ghost predicate BoundBy(run: seq<Action>, k: int, id: string) {
    && 0 <= k < |run| && run[k] == Bind(id)
    && forall j :: k < j < |run| ==> !run[j].Bind? && run[j] != Unbind(id)
  }

  ghost predicate Bound(run: seq<Action>, id: string) {
    id != "" && exists k :: BoundBy(run, k, id)
  }

  lemma BoundByStep(g: seq<Action>, a: Action, k: int, id: string)
    requires k < |g|
    ensures BoundBy(g + [a], k, id) <==> BoundBy(g, k, id) && !a.Bind? && a != Unbind(id)
  {
    var run := g + [a];
    assert run[|g|] == a;
    assert forall j :: 0 <= j < |g| ==> run[j] == g[j];
  }

  lemma BoundStep(g: seq<Action>, a: Action, id: string)
    ensures Bound(g + [a], id) <==> id != "" && (a == Bind(id) || (Bound(g, id) && !a.Bind? && a != Unbind(id)))
  {
    var run := g + [a];
    assert run[|g|] == a;
    if a == Bind(id) {
      assert BoundBy(run, |g|, id);
    }
    if Bound(g, id) && !a.Bind? && a != Unbind(id) {
      var k :| BoundBy(g, k, id);
      BoundByStep(g, a, k, id);
    }
    if Bound(run, id) && a != Bind(id) {
      var k :| BoundBy(run, k, id);
      BoundByStep(g, a, k, id);
    }
  }

  lemma UnboundTask(s: System, a: Action)
    ensures var s' := Next(s, a);
      s'.bridge.taskID == match a
                          case Bind(id) => id
                          case Unbind(id) => if s.bridge.taskID == id then "" else s.bridge.taskID
                          case _ => s.bridge.taskID
  {
  }

  /** The bridge holds the task bound last, until that very task ends. */
  lemma {:induction false} BindingIs(run: seq<Action>, id: string)
    requires id != ""
    ensures After(run).bridge.taskID == id <==> Bound(run, id)
  {
    if |run| > 0 {
      var g, a := run[..|run| - 1], run[|run| - 1];
      assert run == g + [a];
      BindingIs(g, id);
      BoundStep(g, a, id);
      UnboundTask(After(g), a);
    }
  }

  // ---- which approvals it reports ----

  /** An approval raised for no session in particular is anyone's; one that names a
      session is that session's alone. */
  predicate Concerned(session: string, task: string) {
    task != "" && (session == "" || session == task)
  }

  lemma PlayedOn(run: seq<Action>, a: Action)
    ensures After(run + [a]) == Next(After(run), a)
  {
    assert (run + [a])[..|run|] == run;
  }

  lemma LookIff(b: Bridge, session: string, task: string)
    ensures b.Correlate(session) == Some(task) <==> b.taskID == task && Concerned(session, task)
  {
  }

  /** A dispatch is matched to the task bound at that moment if the approval concerns it,
      and dropped otherwise. */
  lemma DispatchMatchesIff(run: seq<Action>, req: string, task: string)
    requires req in After(run).requests && After(run).requests[req].d.DIdle?
    ensures var q := After(run).requests[req]; var d := After(run + [DispatchTurn(req)]).requests[req].d;
      && (d == DMatched(task) <==> Bound(run, task) && Concerned(q.session, task))
      && (d.DMatched? || d.DDropped?)
  {
    PlayedOn(run, DispatchTurn(req));
    LookIff(After(run).bridge, After(run).requests[req].session, task);
    if task != "" {
      BindingIs(run, task);
    }
  }

  /** A resolution of an approval the bridge never recorded is reported under the task
      bound at that moment if the approval concerns it, and kept silent otherwise. */
  lemma ResolutionMatchesIff(run: seq<Action>, req: string, task: string)
    requires req in After(run).requests && After(run).requests[req].r.RUnknown?
    ensures var q := After(run).requests[req]; var r := After(run + [ResolveTurn(req)]).requests[req].r;
      && (r == RTaken(task) <==> Bound(run, task) && Concerned(q.session, task))
      && (r.RTaken? || r.RSilent?)
  {
    PlayedOn(run, ResolveTurn(req));
    LookIff(After(run).bridge, After(run).requests[req].session, task);
    if task != "" {
      BindingIs(run, task);
    }
  }

  /** What one approval has been matched to so far concerns it. */
  predicate OwnTasks(q: Request) {
    && (q.d.DMatched? || q.d.DRecorded? || q.d.DForwarded? ==> Concerned(q.session, q.d.task))
    && (q.r.RTaken? || q.r.RDone? ==> Concerned(q.session, q.r.task))
  }

  ghost predicate OwnFrames(s: System) {
    && (forall req :: req in s.requests ==> OwnTasks(s.requests[req]))
    && (forall req :: req in s.bridge.pending ==>
          req in s.requests && Concerned(s.requests[req].session, s.bridge.pending[req]))
    && (forall f :: f in s.wire ==> f.req in s.requests && Concerned(s.requests[f.req].session, f.task))
  }

  lemma DispatchOwn(s: System, req: string)
    requires OwnFrames(s) && req in s.requests
    ensures OwnFrames(DispatchStep(s, req))
  {
  }

  lemma ResolveOwn(s: System, req: string)
    requires OwnFrames(s) && req in s.requests
    ensures OwnFrames(ResolveStep(s, req))
  {
  }

  lemma {:induction false} AlwaysOwn(run: seq<Action>)
    ensures OwnFrames(After(run))
  {
    if |run| > 0 {
      var g, a := run[..|run| - 1], run[|run| - 1];
      AlwaysOwn(g);
      match a {
        case DispatchTurn(req) => if req in After(g).requests { DispatchOwn(After(g), req); }
        case ResolveTurn(req) => if req in After(g).requests { ResolveOwn(After(g), req); }
        case _ =>
      }
    }
  }

  /** In every interleaving, whatever frame an approval gets carries a task the approval
      concerns: an approval that names a session is never shown, nor its resolution told,
      under any other task. */
  lemma FramesKeepSessions(run: seq<Action>, f: Frame)
    requires f in After(run).wire
    ensures var s := After(run);
      f.req in s.requests && f.task != "" &&
      (s.requests[f.req].session == "" || s.requests[f.req].session == f.task)
  {
    AlwaysOwn(run);
  }
}
