/** What a Loop and a Retry share: firing hidden body nodes, and the event batch that
    records every fire (core/agentgraph/exec_control.go). */
module BodyFires {
  import opened Wrappers
  import opened BranchValues

  datatype ErrorKind = PausedError | BudgetError | CancelledError | DeadlineError | InvalidRequest | OtherError

  datatype Failure = Failure(kind: ErrorKind, text: string)

  /** What one executor call comes back with; a panic is recovered into a failure. */
  datatype Outcome = Failed(err: Failure) | Returned(outputs: PortValues, own: seq<string>, pause: bool)

  datatype Policy = StopPolicy | RetryOncePolicy | AdaptPolicy

  datatype Phase = Began | Succeeded | Erred | Exhausted

  /** `Own` is an event of the body executor itself, nested containers included. */
  datatype Event =
    | Start(node: string, iter: nat)
    | Complete(node: string, iter: nat, outputs: nat)
    | Terminal(node: string, iter: nat, err: Failure)
    | Adapted(node: string, err: Failure)
    | Retried(node: string, err: Failure)
    | Attempt(phase: Phase, number: nat)
    | Own(node: string, text: string)

  /** Everything outside the container: the graph, the registry, the policy, what the
      n-th executor call does, and whether the context is done just after it. */
  datatype World = World(
    host: Host, nodes: map<string, string>, kinds: set<string>, policy: Policy,
    fire: nat -> Outcome, done: nat -> bool, note: (string, Failure) -> Value)

  datatype Call = Call(node: string, inputs: PortValues)

  /** The executor's locals, the run state's outputs, and the calls made so far. */
  datatype Run = Run(current: PortValues, calls: seq<Call>, events: seq<Event>, stored: map<string, PortValues>) {
    function Emit(e: Event): Run {
      this.(events := events + [e])
    }

    function Called(node: string): Run {
      this.(calls := calls + [Call(node, current)])
    }
  }

  function Fresh(inputs: PortValues, stored: map<string, PortValues>): Run {
    Run(inputs, [], [], stored)
  }

  datatype LookupError = UnknownBody(id: string) | NoExecutor(kind: string)

  function LookUp(w: World, id: string): Option<LookupError> {
    if id !in w.nodes then Some(UnknownBody(id))
    else if w.nodes[id] !in w.kinds then Some(NoExecutor(w.nodes[id]))
    else None
  }

  /** `isTerminalNodeError`, asked after the n-th call. */
  predicate IsTerminal(w: World, n: nat, err: Failure) {
    err.kind in {PausedError, BudgetError, CancelledError, DeadlineError, InvalidRequest} || w.done(n)
  }

  function OwnEvents(node: string, own: seq<string>): (es: seq<Event>)
    ensures |es| == |own|
  {
    seq(|own|, i requires 0 <= i < |own| => Own(node, own[i]))
  }

  /** A fire that came back well: its outputs are stored and threaded on. */
  function Completed(st: Run, id: string, iter: nat, o: Outcome): Run
    requires o.Returned?
  {
    st.(stored := st.stored[id := o.outputs],
        events := st.events + OwnEvents(id, o.own) + [Complete(id, iter, |o.outputs|)],
        current := o.outputs)
  }

  // ---- the batch, read by an automaton ----

  /** Between fires, remembering the last iteration; or inside one. */
  datatype Nest = Idle(last: nat) | Firing(node: string, iter: nat, retried: bool) | Broken

  function Feed(n: Nest, e: Event): Nest {
    match n
    case Idle(last) =>
      (match e
       case Start(node, iter) => if 1 <= iter && last <= iter then Firing(node, iter, false) else Broken
       case Attempt(_, _) => n
       case _ => Broken)
    case Firing(node, iter, retried) =>
      (match e
       case Own(_, _) => n
       case Retried(m, _) => if m == node && !retried then Firing(node, iter, true) else Broken
       case Adapted(m, _) => if m == node then Idle(iter) else Broken
       case Complete(m, i, _) => if m == node && i == iter then Idle(iter) else Broken
       case Terminal(m, i, _) => if m == node && i == iter then Idle(iter) else Broken
       case _ => Broken)
    case Broken => Broken
  }

  function Scan(es: seq<Event>): Nest {
    if |es| == 0 then Idle(0) else Feed(Scan(es[..|es| - 1]), es[|es| - 1])
  }

  /** Executor calls the batch accounts for: one a start, one more a retry. */
  function CallsIn(es: seq<Event>): nat {
    if |es| == 0 then 0
    else
      var e := es[|es| - 1];
      CallsIn(es[..|es| - 1]) + if e.Start? || e.Retried? then 1 else 0
  }

  lemma ScanNext(es: seq<Event>, e: Event)
    ensures Scan(es + [e]) == Feed(Scan(es), e)
    ensures CallsIn(es + [e]) == CallsIn(es) + if e.Start? || e.Retried? then 1 else 0
  {
    assert (es + [e])[..|es|] == es;
  }

  lemma {:induction false} ScanOwn(es: seq<Event>, node: string, own: seq<string>)
    requires Scan(es).Firing?
    ensures Scan(es + OwnEvents(node, own)) == Scan(es)
    ensures CallsIn(es + OwnEvents(node, own)) == CallsIn(es)
    decreases |own|
  {
    if |own| == 0 {
      assert es + OwnEvents(node, own) == es;
    } else {
      var n := |own| - 1;
      ScanOwn(es, node, own[..n]);
      ScanNext(es + OwnEvents(node, own[..n]), Own(node, own[n]));
      assert es + OwnEvents(node, own) == es + OwnEvents(node, own[..n]) + [Own(node, own[n])];
    }
  }

  /** Between fires, with every call accounted for. */
  ghost predicate Settled(st: Run, top: nat) {
    Scan(st.events).Idle? && Scan(st.events).last <= top && |st.calls| == CallsIn(st.events)
  }

  ghost predicate Open(st: Run, id: string, iter: nat) {
    Scan(st.events).Firing? && Scan(st.events).node == id && Scan(st.events).iter == iter
    && |st.calls| == CallsIn(st.events)
  }

  lemma StartOpens(st: Run, id: string, iter: nat)
    requires Settled(st, iter) && iter >= 1
    ensures Open(st.Emit(Start(id, iter)).Called(id), id, iter)
    ensures !Scan(st.Emit(Start(id, iter)).Called(id).events).retried
  {
    ScanNext(st.events, Start(id, iter));
  }

  lemma RetryStaysOpen(st: Run, id: string, iter: nat, err: Failure)
    requires Open(st, id, iter) && !Scan(st.events).retried
    ensures Open(st.Emit(Retried(id, err)).Called(id), id, iter)
  {
    ScanNext(st.events, Retried(id, err));
  }

  lemma CloseSettles(st: Run, id: string, iter: nat, e: Event)
    requires Open(st, id, iter)
    requires match e
      case Complete(m, i, _) => m == id && i == iter
      case Terminal(m, i, _) => m == id && i == iter
      case Adapted(m, _) => m == id
      case _ => false
    ensures Settled(st.Emit(e), iter)
  {
    ScanNext(st.events, e);
  }

  lemma CompletedSettles(st: Run, id: string, iter: nat, o: Outcome)
    requires Open(st, id, iter) && o.Returned?
    ensures Settled(Completed(st, id, iter, o), iter)
  {
    ScanOwn(st.events, id, o.own);
    ScanNext(st.events + OwnEvents(id, o.own), Complete(id, iter, |o.outputs|));
  }

  /** The call budget of `n` rounds of at most `each` calls, one round at a time. */
  function Budget(n: nat, each: nat): nat {
    if n == 0 then 0 else each + Budget(n - 1, each)
  }

  lemma {:induction false} BudgetIsProduct(n: nat, each: nat)
    ensures Budget(n, each) == n * each
  {
    if n > 0 {
      BudgetIsProduct(n - 1, each);
    }
  }

  // ---- what acceptance by the automaton means ----

  predicate Closes(e: Event, s: Event)
    requires s.Start?
  {
    match e
    case Complete(m, i, _) => m == s.node && i == s.iter
    case Terminal(m, i, _) => m == s.node && i == s.iter
    case Adapted(m, _) => m == s.node
    case _ => false
  }

  /** `es[p]` is a start closed by `es[q]`, with nothing in between but the body's own
      events and a retry mark. */
  ghost predicate ClosedAt(es: seq<Event>, p: int, q: int) {
    && 0 <= p < q < |es| && es[p].Start? && Closes(es[q], es[p])
    && forall k :: p < k < q ==> es[k].Own? || (es[k].Retried? && es[k].node == es[p].node)
  }

  ghost predicate OpenSince(es: seq<Event>, p: int) {
    && 0 <= p < |es| && es[p].Start? && Scan(es).Firing? && Scan(es).node == es[p].node && Scan(es).iter == es[p].iter
    && forall k :: p < k < |es| ==> es[k].Own? || (es[k].Retried? && es[k].node == es[p].node)
  }

  predicate IsClose(e: Event) {
    e.Complete? || e.Terminal? || e.Adapted?
  }

  predicate IsInner(e: Event) {
    e.Own? || e.Retried?
  }

  /** Every start has exactly one close and every close exactly one start, of the same
      node and iteration. */
  ghost predicate Paired(es: seq<Event>) {
    && (forall p :: 0 <= p < |es| && es[p].Start? ==> exists q :: ClosedAt(es, p, q))
    && (forall q :: 0 <= q < |es| && IsClose(es[q]) ==> exists p :: ClosedAt(es, p, q))
    && (forall p, q, q' :: ClosedAt(es, p, q) && ClosedAt(es, p, q') ==> q == q')
    && (forall p, p', q :: ClosedAt(es, p, q) && ClosedAt(es, p', q) ==> p == p')
  }

  /** A body's own events and retry marks lie inside fires, at most one mark in each. */
  ghost predicate Enclosed(es: seq<Event>) {
    && (forall k :: 0 <= k < |es| && IsInner(es[k]) ==> exists p, q :: p < k < q && ClosedAt(es, p, q))
    && (forall p, q, j, k :: ClosedAt(es, p, q) && p < j < k < q && es[j].Retried? ==> !es[k].Retried?)
  }

  /** Iterations start at 1, never decrease and keep to the cap. */
  ghost predicate Counted(es: seq<Event>, cap: int) {
    && (forall p :: 0 <= p < |es| && es[p].Start? ==> 1 <= es[p].iter <= cap)
    && (forall p, q :: 0 <= p <= q < |es| && es[p].Start? && es[q].Start? ==> es[p].iter <= es[q].iter)
  }

  ghost predicate WellNested(es: seq<Event>, cap: int) {
    Paired(es) && Enclosed(es) && Counted(es, cap)
  }

  /** Each body start of an accepted batch is closed, or the batch ends inside its fire. */
  lemma {:induction false} StartsClosed(es: seq<Event>, p: nat)
    requires !Scan(es).Broken? && p < |es| && es[p].Start?
    ensures OpenSince(es, p) || exists q :: ClosedAt(es, p, q)
    decreases |es|
  {
    var g, e := es[..|es| - 1], es[|es| - 1];
    if p < |g| {
      StartsClosed(g, p);
      if OpenSince(g, p) {
        if Closes(e, es[p]) {
          assert ClosedAt(es, p, |g|);
        } else {
          assert OpenSince(es, p);
        }
      } else {
        var q :| ClosedAt(g, p, q);
        assert ClosedAt(es, p, q);
      }
    } else {
      assert OpenSince(es, p);
    }
  }

  /** A batch that ends inside a fire has that fire's start. */
  lemma {:induction false} FiringStarted(es: seq<Event>) returns (p: nat)
    requires Scan(es).Firing?
    ensures OpenSince(es, p)
  {
    var g, e := es[..|es| - 1], es[|es| - 1];
    if e.Start? {
      p := |g|;
    } else {
      p := FiringStarted(g);
    }
  }

  /** Every close closes a start. */
  lemma {:induction false} ClosesMatched(es: seq<Event>, q: nat)
    requires !Scan(es).Broken? && q < |es| && IsClose(es[q])
    ensures exists p :: ClosedAt(es, p, q)
    decreases |es|
  {
    var g := es[..|es| - 1];
    if q < |g| {
      ClosesMatched(g, q);
      var p :| ClosedAt(g, p, q);
      assert ClosedAt(es, p, q);
    } else {
      var p := FiringStarted(g);
      assert ClosedAt(es, p, q);
    }
  }

  /** A body's own event or a retry mark lies inside a fire. */
  lemma {:induction false} InnerInside(es: seq<Event>, k: nat) returns (p: int)
    requires !Scan(es).Broken? && k < |es| && IsInner(es[k])
    ensures p < k && (OpenSince(es, p) || exists q :: k < q && ClosedAt(es, p, q))
    decreases |es|
  {
    var g, e := es[..|es| - 1], es[|es| - 1];
    if k == |g| {
      p := FiringStarted(g);
      assert OpenSince(es, p);
    } else {
      p := InnerInside(g, k);
      if OpenSince(g, p) {
        if Closes(e, es[p]) {
          assert ClosedAt(es, p, |g|);
        } else {
          assert OpenSince(es, p);
        }
      } else {
        var q :| k < q && ClosedAt(g, p, q);
        assert ClosedAt(es, p, q);
      }
    }
  }

  lemma {:induction false} PrefixAccepted(es: seq<Event>, n: nat)
    requires n <= |es| && !Scan(es).Broken?
    ensures !Scan(es[..n]).Broken?
    decreases |es|
  {
    if n < |es| {
      PrefixAccepted(es[..|es| - 1], n);
      assert es[..|es| - 1][..n] == es[..n];
    } else {
      assert es[..n] == es;
    }
  }

  /** Inside a fire the automaton is in it, and remembers a retry. */
  lemma {:induction false} InsideFiring(es: seq<Event>, p: nat, q: nat, m: nat, j: nat)
    requires ClosedAt(es, p, q) && p < m <= q && !Scan(es).Broken?
    ensures Scan(es[..m]).Firing?
    ensures p < j < m && es[j].Retried? ==> Scan(es[..m]).retried
    decreases m
  {
    var g := es[..m];
    PrefixAccepted(es, m);
    assert g[..m - 1] == es[..m - 1] && g[m - 1] == es[m - 1];
    if m - 1 > p {
      InsideFiring(es, p, q, m - 1, j);
    }
  }

  lemma RetriedOnce(es: seq<Event>, p: nat, q: nat, j: nat, k: nat)
    requires ClosedAt(es, p, q) && p < j < k < q && es[j].Retried? && !Scan(es).Broken?
    ensures !es[k].Retried?
  {
    InsideFiring(es, p, q, k, j);
    PrefixAccepted(es, k + 1);
    assert es[..k + 1][..k] == es[..k];
  }

  function LastIter(n: Nest): nat
    requires !n.Broken?
  {
    if n.Idle? then n.last else n.iter
  }

  lemma {:induction false} StartWithin(es: seq<Event>, p: nat)
    requires !Scan(es).Broken? && p < |es| && es[p].Start?
    ensures 1 <= es[p].iter <= LastIter(Scan(es))
    decreases |es|
  {
    if p < |es| - 1 {
      StartWithin(es[..|es| - 1], p);
    }
  }

  /** And iteration numbers are 1-based and never decrease. */
  lemma {:induction false} StartsOrdered(es: seq<Event>, p: nat, q: nat)
    requires !Scan(es).Broken? && p <= q < |es| && es[p].Start? && es[q].Start?
    ensures 1 <= es[p].iter <= es[q].iter <= LastIter(Scan(es))
    decreases |es|
  {
    var g := es[..|es| - 1];
    if q < |g| {
      StartsOrdered(g, p, q);
    } else if p < q {
      StartWithin(g, p);
    }
  }

  lemma AcceptedPaired(es: seq<Event>)
    requires Scan(es).Idle?
    ensures Paired(es)
  {
    forall p | 0 <= p < |es| && es[p].Start?
      ensures exists q :: ClosedAt(es, p, q)
    {
      StartsClosed(es, p);
    }
    forall q | 0 <= q < |es| && IsClose(es[q])
      ensures exists p :: ClosedAt(es, p, q)
    {
      ClosesMatched(es, q);
    }
    forall p, q, q' | ClosedAt(es, p, q) && ClosedAt(es, p, q')
      ensures q == q'
    {
      assert IsClose(es[q]) && IsClose(es[q']);
    }
  }

  lemma AcceptedEnclosed(es: seq<Event>)
    requires Scan(es).Idle?
    ensures Enclosed(es)
  {
    forall k | 0 <= k < |es| && IsInner(es[k])
      ensures exists p, q :: p < k < q && ClosedAt(es, p, q)
    {
      var p := InnerInside(es, k);
    }
    forall p, q, j, k | ClosedAt(es, p, q) && p < j < k < q && es[j].Retried?
      ensures !es[k].Retried?
    {
      RetriedOnce(es, p, q, j, k);
    }
  }

  lemma AcceptedCounted(es: seq<Event>, cap: int)
    requires Scan(es).Idle? && Scan(es).last <= cap
    ensures Counted(es, cap)
  {
    forall p | 0 <= p < |es| && es[p].Start?
      ensures 1 <= es[p].iter <= cap
    {
      StartWithin(es, p);
    }
    forall p, q | 0 <= p <= q < |es| && es[p].Start? && es[q].Start?
      ensures es[p].iter <= es[q].iter
    {
      StartsOrdered(es, p, q);
    }
  }

  /** What the automaton accepts and ends between fires is well nested. */
  lemma AcceptedWellNested(es: seq<Event>, cap: int)
    requires Scan(es).Idle? && Scan(es).last <= cap
    ensures WellNested(es, cap)
  {
    AcceptedPaired(es);
    AcceptedEnclosed(es);
    AcceptedCounted(es, cap);
  }
}
