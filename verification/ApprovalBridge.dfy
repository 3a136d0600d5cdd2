/** The approval surface of one connection (cmd/harness-vm/approvals.go,
    cmd/harness-vm/approvalgate.go): the bridge object, and every interleaving of
    binding, dispatching and resolving. */
module ApprovalBridge {
  import opened Wrappers

  datatype Bridge = Bridge(taskID: string, pending: map<string, string>) {
    /** The task an approval is reported under; a named session must match. */
    function Correlate(session: string): Option<string> {
      if taskID == "" then None
      else if session != "" && session != taskID then None
      else Some(taskID)
    }
  }

  /** The bridge object; `Dispatch` and `ResolvedEvent` aside, each method is one
      critical section. */
  class ApprovalBridge {
    var taskID: string
    var pending: map<string, string>

    constructor ()
      ensures Value() == Bridge("", map[])
    {
      taskID, pending := "", map[];
    }

    ghost function Value(): Bridge
      reads this
    {
      Bridge(taskID, pending)
    }

    method Correlate(session: string) returns (task: Option<string>)
      ensures task == Value().Correlate(session)
    {
      if taskID == "" {
        return None;
      }
      if session != "" && session != taskID {
        return None;
      }
      return Some(taskID);
    }

    method Record(req: string, task: string)
      modifies this`pending
      ensures Value() == old(Value()).(pending := old(pending)[req := task])
    {
      pending := pending[req := task];
    }

    method TakePending(req: string) returns (task: Option<string>)
      modifies this`pending
      ensures task == if req in old(pending) then Some(old(pending)[req]) else None
      ensures Value() == old(Value()).(pending := old(pending) - {req})
    {
      task := if req in pending then Some(pending[req]) else None;
      pending := pending - {req};
    }

    /** `Dispatch` from end to end: what its three steps do when nothing intervenes. */
    method Dispatch(req: string, session: string, ghost s: System) returns (sent: Option<Frame>)
      requires s.bridge == Value() && req in s.requests
      requires s.requests[req].session == session && s.requests[req].d.DIdle?
      modifies this`pending
      ensures var s' := DispatchStep(DispatchStep(DispatchStep(s, req), req), req);
        && s'.bridge == Value() && (s'.requests[req].d.DForwarded? || s'.requests[req].d.DDropped?)
        && s'.wire == s.wire + if sent.Some? then [sent.value] else []
    {
      var task := Correlate(session);
      if task.None? {
        return None;
      }
      Record(req, task.value);
      sent := Some(Requested(req, task.value));
    }

    /** `Resolved` likewise. */
    method ResolvedEvent(req: string, session: string, ghost s: System) returns (sent: Option<Frame>)
      requires s.bridge == Value() && req in s.requests
      requires s.requests[req].session == session && s.requests[req].r.RIdle?
      modifies this`pending
      ensures var s' := ResolveStep(ResolveStep(ResolveStep(s, req), req), req);
        && s'.bridge == Value() && (s'.requests[req].r.RDone? || s'.requests[req].r.RSilent?)
        && s'.wire == s.wire + if sent.Some? then [sent.value] else []
    {
      var task := TakePending(req);
      if task.None? {
        task := Correlate(session);
        if task.None? {
          return None;
        }
      }
      sent := Some(Resolved(req, task.value));
    }

    method BeginTask(id: string)
      modifies this`taskID
      ensures Value() == old(Value()).(taskID := id)
    {
      taskID := id;
    }

    /** The `end` function a task goroutine defers. */
    method EndTask(id: string)
      modifies this`taskID
      ensures Value() == if old(taskID) == id then old(Value()).(taskID := "") else old(Value())
    {
      if taskID == id {
        taskID := "";
      }
    }
  }

  // ---- every interleaving ----

  datatype DispatchPc = DIdle | DMatched(task: string) | DRecorded(task: string) | DForwarded(task: string) | DDropped

  datatype ResolvePc = RIdle | RUnknown | RTaken(task: string) | RDone(task: string) | RSilent

  /** One approval at the registry.  `met` is where its dispatch stood when its
      resolution looked into the pending map. */
  datatype Request = Request(session: string, d: DispatchPc, r: ResolvePc, met: Option<DispatchPc>)

  datatype Frame = Requested(req: string, task: string) | Resolved(req: string, task: string)

  datatype System = System(bridge: Bridge, requests: map<string, Request>, wire: seq<Frame>)

  datatype Action =
    | Bind(id: string)
    | Unbind(id: string)
    | Raise(req: string, session: string)
    | DispatchTurn(req: string)
    | ResolveTurn(req: string)

  const BOOT := System(Bridge("", map[]), map[], [])

  function DispatchStep(s: System, req: string): System
    requires req in s.requests
  {
    var q := s.requests[req];
    match q.d
    case DIdle =>
      var pc := match s.bridge.Correlate(q.session) case None => DDropped case Some(t) => DMatched(t);
      s.(requests := s.requests[req := q.(d := pc)])
    case DMatched(t) =>
      s.(bridge := s.bridge.(pending := s.bridge.pending[req := t]), requests := s.requests[req := q.(d := DRecorded(t))])
    case DRecorded(t) =>
      s.(wire := s.wire + [Requested(req, t)], requests := s.requests[req := q.(d := DForwarded(t))])
    case _ => s
  }

  function ResolveStep(s: System, req: string): System
    requires req in s.requests
  {
    var q := s.requests[req];
    match q.r
    case RIdle =>
      var pc := if req in s.bridge.pending then RTaken(s.bridge.pending[req]) else RUnknown;
      s.(bridge := s.bridge.(pending := s.bridge.pending - {req}),
         requests := s.requests[req := q.(r := pc, met := Some(q.d))])
    case RUnknown =>
      var pc := match s.bridge.Correlate(q.session) case None => RSilent case Some(t) => RTaken(t);
      s.(requests := s.requests[req := q.(r := pc)])
    case RTaken(t) =>
      s.(wire := s.wire + [Resolved(req, t)], requests := s.requests[req := q.(r := RDone(t))])
    case _ => s
  }

  function Next(s: System, a: Action): System {
    match a
    case Bind(id) => s.(bridge := s.bridge.(taskID := id))
    case Unbind(id) => if s.bridge.taskID == id then s.(bridge := s.bridge.(taskID := "")) else s
    case Raise(req, session) =>
      if req in s.requests then s else s.(requests := s.requests[req := Request(session, DIdle, RIdle, None)])
    case DispatchTurn(req) => if req in s.requests then DispatchStep(s, req) else s
    case ResolveTurn(req) => if req in s.requests then ResolveStep(s, req) else s
  }

  function After(run: seq<Action>): System {
    if |run| == 0 then BOOT else Next(After(run[..|run| - 1]), run[|run| - 1])
  }

  function FramesOf(wire: seq<Frame>, req: string): seq<Frame> {
    if |wire| == 0 then []
    else
      FramesOf(wire[..|wire| - 1], req) + if wire[|wire| - 1].req == req then [wire[|wire| - 1]] else []
  }

  predicate Recorded(d: DispatchPc) {
    d.DRecorded? || d.DForwarded?
  }

  /** The resolution looked into the map before the dispatch had written there. */
  predicate Overtaken(q: Request) {
    q.met == Some(DIdle) || (q.met.Some? && q.met.value.DMatched?)
  }

  /** What one approval looks like at any moment of any interleaving. */
  ghost predicate RequestOk(s: System, req: string) {
    if req !in s.requests then req !in s.bridge.pending && FramesOf(s.wire, req) == []
    else
      var q := s.requests[req];
      && (q.r.RIdle? <==> q.met.None?)
      && (req in s.bridge.pending <==> Recorded(q.d) && (q.r.RIdle? || Overtaken(q)))
      && (req in s.bridge.pending ==> s.bridge.pending[req] == q.d.task)
      && (q.met.Some? && Recorded(q.met.value) ==>
            Recorded(q.d) && q.d.task == q.met.value.task && (q.r == RTaken(q.d.task) || q.r == RDone(q.d.task)))
      && (q.met.Some? && (q.met.value.DForwarded? || q.met.value.DDropped?) ==> q.d == q.met.value)
      && WireOk(q, FramesOf(s.wire, req), req)
  }

  /** One request frame once forwarded, one resolution frame once done; in that
      order unless the resolution began before the request frame was sent. */
  predicate WireOk(q: Request, fs: seq<Frame>, req: string) {
    var asked := if q.d.DForwarded? then [Requested(req, q.d.task)] else [];
    var told := if q.r.RDone? then [Resolved(req, q.r.task)] else [];
    if q.met.None? || q.met.value.DForwarded? || q.met.value.DDropped? then fs == asked + told
    else fs == asked + told || fs == told + asked
  }

  lemma FramesOfSend(wire: seq<Frame>, f: Frame, req: string)
    ensures FramesOf(wire + [f], req) == FramesOf(wire, req) + if f.req == req then [f] else []
  {
    assert (wire + [f])[..|wire|] == wire;
  }

  lemma OwnDispatch(s: System, req: string)
    requires RequestOk(s, req) && req in s.requests
    ensures RequestOk(DispatchStep(s, req), req)
  {
    var q := s.requests[req];
    if q.d.DRecorded? {
      FramesOfSend(s.wire, Requested(req, q.d.task), req);
    }
  }

  lemma OwnResolve(s: System, req: string)
    requires RequestOk(s, req) && req in s.requests
    ensures RequestOk(ResolveStep(s, req), req)
  {
    if s.requests[req].r.RTaken? {
      OwnSend(s, req);
    }
  }

  lemma OwnSend(s: System, req: string)
    requires RequestOk(s, req) && req in s.requests && s.requests[req].r.RTaken?
    ensures RequestOk(ResolveStep(s, req), req)
  {
    FramesOfSend(s.wire, Resolved(req, s.requests[req].r.task), req);
  }

  /** The approval an action works on. */
  predicate Concerns(a: Action, req: string) {
    (a.Raise? || a.DispatchTurn? || a.ResolveTurn?) && a.req == req
  }

  lemma OthersUntouched(s: System, a: Action, req: string)
    requires !Concerns(a, req)
    ensures var s' := Next(s, a);
      && (req in s'.requests <==> req in s.requests)
      && (req in s.requests ==> s'.requests[req] == s.requests[req])
      && (req in s'.bridge.pending <==> req in s.bridge.pending)
      && (req in s.bridge.pending ==> s'.bridge.pending[req] == s.bridge.pending[req])
      && FramesOf(s'.wire, req) == FramesOf(s.wire, req)
  {
    var s' := Next(s, a);
    if s'.wire != s.wire {
      var f := s'.wire[|s.wire|];
      assert s'.wire == s.wire + [f];
      FramesOfSend(s.wire, f, req);
    }
  }

  lemma NextOk(s: System, a: Action, req: string)
    requires RequestOk(s, req)
    ensures RequestOk(Next(s, a), req)
  {
    if !Concerns(a, req) {
      OthersUntouched(s, a, req);
    } else if req in s.requests {
      OwnDispatch(s, req);
      OwnResolve(s, req);
    }
  }

  lemma {:induction false} Always(run: seq<Action>, req: string)
    ensures RequestOk(After(run), req)
  {
    if |run| > 0 {
      Always(run[..|run| - 1], req);
      NextOk(After(run[..|run| - 1]), run[|run| - 1], req);
    }
  }

  /** If the registry had finished dispatching before it resolved, a forwarded
      approval gets exactly its request frame and then exactly one resolution frame
      with the same task id, whatever was bound or unbound in between. */
  lemma ForwardedThenResolved(run: seq<Action>, req: string)
    requires req in After(run).requests
    requires var q := After(run).requests[req]; q.met.Some? && q.met.value.DForwarded?
    ensures var s := After(run); var q := s.requests[req];
      && q.d == q.met.value && req !in s.bridge.pending
      && (q.r == RTaken(q.d.task) || q.r == RDone(q.d.task))
      && FramesOf(s.wire, req) == [Requested(req, q.d.task)] + (if q.r.RDone? then [Resolved(req, q.d.task)] else [])
  {
    Always(run, req);
  }

  /** While no resolution overtakes the dispatch of a recorded approval, the pending
      map holds exactly the approvals recorded and not yet resolved, each under its own
      task.  A denial without any dispatch does not count as overtaking. */
  lemma PendingExact(run: seq<Action>)
    requires forall req :: req in After(run).requests && Recorded(After(run).requests[req].d) ==>
      !Overtaken(After(run).requests[req])
    ensures var s := After(run); forall req ::
      && (req in s.bridge.pending <==> req in s.requests && Recorded(s.requests[req].d) && s.requests[req].r.RIdle?)
      && (req in s.bridge.pending ==> s.bridge.pending[req] == s.requests[req].d.task)
  {
    var s := After(run);
    forall req: string
      ensures req in s.bridge.pending <==> req in s.requests && Recorded(s.requests[req].d) && s.requests[req].r.RIdle?
      ensures req in s.bridge.pending ==> s.bridge.pending[req] == s.requests[req].d.task
    {
      Always(run, req);
    }
  }

  /** The map is documented to drain in every interleaving.  A finished approval
      stays in it exactly when it was forwarded and its resolution looked first. */
  lemma LeaksIffOvertaken(run: seq<Action>, req: string)
    requires req in After(run).requests
    requires var q := After(run).requests[req]; (q.d.DForwarded? || q.d.DDropped?) && (q.r.RDone? || q.r.RSilent?)
    ensures var s := After(run); var q := s.requests[req];
      req in s.bridge.pending <==> q.d.DForwarded? && Overtaken(q)
  {
    Always(run, req);
  }

  lemma Played(run: seq<Action>, a: Action, s: System) returns (longer: seq<Action>)
    requires After(run) == s
    ensures longer == run + [a] && After(longer) == Next(s, a)
  {
    assert (run + [a])[..|run|] == run;
    longer := run + [a];
  }

  /** Such an interleaving: another surface resolves between the bridge's match and
      its record.  The request frame then follows the resolution frame, and the map
      never drains. */
  lemma LeakHappens()
    ensures exists run ::
      "a" in After(run).bridge.pending
      && FramesOf(After(run).wire, "a") == [Resolved("a", "t"), Requested("a", "t")]
  {
    var r := OvertakingRun();
    var q := Request("", DMatched("t"), RTaken("t"), Some(DMatched("t")));
    var w := [Resolved("a", "t")];
    var b := Bridge("t", map[]);
    r := Played(r, ResolveTurn("a"), System(b, map["a" := q], []));
    q := q.(r := RDone("t"));
    r := Played(r, DispatchTurn("a"), System(b, map["a" := q], w));
    q := q.(d := DRecorded("t"));
    r := Played(r, DispatchTurn("a"), System(b.(pending := map["a" := "t"]), map["a" := q], w));
    FramesOfSend([], Resolved("a", "t"), "a");
    FramesOfSend(w, Requested("a", "t"), "a");
    assert [] + w == w;
  }

  /** Matched by the bridge, then resolved elsewhere before the match is recorded. */
  lemma OvertakingRun() returns (r: seq<Action>)
    ensures After(r) == System(Bridge("t", map[]),
                               map["a" := Request("", DMatched("t"), RTaken("t"), Some(DMatched("t")))], [])
  {
    var b := Bridge("t", map[]);
    var q := Request("", DMatched("t"), RIdle, None);
    r := Played([], Bind("t"), BOOT);
    r := Played(r, Raise("a", ""), System(b, map[], []));
    r := Played(r, DispatchTurn("a"), System(b, map["a" := Request("", DIdle, RIdle, None)], []));
    r := Played(r, ResolveTurn("a"), System(b, map["a" := q], []));
    assert b.pending - {"a"} == map[];
    r := Played(r, ResolveTurn("a"), System(b, map["a" := q.(r := RUnknown, met := Some(DMatched("t")))], []));
  }
}
