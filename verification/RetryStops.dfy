/** Why a Retry goes on and why it stops, stated over whole runs of
    core/agentgraph/exec_control.go: the marks around attempts, the waits in numbers,
    the reasons for every ending, and what the batch and the stored outputs hold. */
module RetryStops {
  import opened Wrappers
  import opened BranchValues
  import opened BodyFires
  import opened BodyTrace
  import opened RetryNode

  // ---- the batch and the stored outputs ----

  ghost predicate Told(w: World, was: map<string, PortValues>, st: Run) {
    Tells(w, false, st) && StoredRight(w, false, was, st.calls, st.stored)
  }

  lemma FireOnceKeeps(w: World, was: map<string, PortValues>, st: Run, id: string, n: nat)
    requires Told(w, was, st)
    ensures Told(w, was, FireOnce(w, st, id, n).st)
  {
    if LookUp(w, id).None? {
      var s := st.Emit(Start(id, n)).Called(id);
      StartTells(w, false, st, id, n);
      StoredNext(w, false, was, st.calls, st.stored, Call(id, st.current));
      match w.fire(|st.calls|) {
        case Failed(err) => FailureTells(w, false, s, id, Terminal(id, n, err), err);
        case Returned(_, _, _) => CompletedTells(w, false, s, id, n);
      }
    }
  }

  lemma {:induction false} TryBodyKeeps(w: World, was: map<string, PortValues>, st: Run, body: seq<string>, n: nat)
    requires Told(w, was, st)
    ensures Told(w, was, TryBody(w, st, body, n).st)
    decreases |body|
  {
    if |body| > 0 {
      FireOnceKeeps(w, was, st, body[0], n);
      var t := FireOnce(w, st, body[0], n);
      if t.Through? {
        TryBodyKeeps(w, was, t.st, body[1..], n);
      }
    }
  }

  lemma MarkKeeps(w: World, was: map<string, PortValues>, st: Run, phase: Phase, n: nat)
    requires Told(w, was, st)
    ensures Told(w, was, st.Emit(Attempt(phase, n)))
  {
    MarkTells(w, false, st, phase, n);
  }

  /** One attempt, with the marks around it. */
  lemma AttemptKeeps(w: World, was: map<string, PortValues>, st: Run, body: seq<string>, n: nat)
    requires Told(w, was, st)
    ensures var s := TryBody(w, st.Emit(Attempt(Began, n)), body, n).st;
      && Told(w, was, s) && Told(w, was, s.Emit(Attempt(Succeeded, n))) && Told(w, was, s.Emit(Attempt(Erred, n)))
      && Told(w, was, s.Emit(Attempt(Erred, n)).Emit(Attempt(Exhausted, n)))
  {
    MarkKeeps(w, was, st, Began, n);
    TryBodyKeeps(w, was, st.Emit(Attempt(Began, n)), body, n);
    var s := TryBody(w, st.Emit(Attempt(Began, n)), body, n).st;
    MarkKeeps(w, was, s, Succeeded, n);
    MarkKeeps(w, was, s, Erred, n);
    MarkKeeps(w, was, s.Emit(Attempt(Erred, n)), Exhausted, n);
  }

  /** After attempt `n` came out as `t` there is another one. */
  predicate Continues(a: Attrs, t: Tried, n: nat) {
    t.FailedWith? && !IsFatal(t.err) && n < a.maxAttempts && a.cancelled(n).None?
  }

  lemma {:induction false} AttemptsKeep(w: World, a: Attrs, was: map<string, PortValues>, st: Run, waits: seq<nat>, n: nat)
    requires n <= a.maxAttempts && Told(w, was, st)
    ensures Told(w, was, Attempts(w, a, st, waits, n).0)
    decreases a.maxAttempts - n
  {
    AttemptKeeps(w, was, st, a.body, n);
    var t := TryBody(w, st.Emit(Attempt(Began, n)), a.body, n);
    if Continues(a, t, n) {
      AttemptsKeep(w, a, was, t.st.Emit(Attempt(Erred, n)), waits + [Delay(n, Base(a), Ceiling(a))], n + 1);
    }
  }

  /** Every event of the batch tells the truth about its call, and the run state ends up
      with each body node's last returned outputs, a pause's included. */
  lemma RetryTells(w: World, a: Attrs, inputs: PortValues, stored: map<string, PortValues>)
    ensures var s := Execution(w, a, inputs, stored).0;
      Tells(w, false, s) && StoredRight(w, false, stored, s.calls, s.stored)
  {
    if a.maxAttempts > 0 {
      AttemptsKeep(w, a, stored, Fresh(inputs, stored), [], 1);
    }
  }

  // ---- the marks ----

  datatype Mark = Mark(phase: Phase, number: nat)

  function Marks(es: seq<Event>): seq<Mark> {
    if |es| == 0 then []
    else
      var e := es[|es| - 1];
      Marks(es[..|es| - 1]) + if e.Attempt? then [Mark(e.phase, e.number)] else []
  }

  /** Attempts 1 to `n`, each begun and ended in an error. */
  function Rounds(n: nat): seq<Mark> {
    if n == 0 then [] else Rounds(n - 1) + [Mark(Began, n), Mark(Erred, n)]
  }

  predicate Unmarked(es: seq<Event>) {
    forall k :: 0 <= k < |es| ==> !es[k].Attempt?
  }

  lemma {:induction false} MarksMore(es: seq<Event>, more: seq<Event>)
    requires Unmarked(more)
    ensures Marks(es + more) == Marks(es)
    decreases |more|
  {
    if |more| == 0 {
      assert es + more == es;
    } else {
      var n := |more| - 1;
      MarksMore(es, more[..n]);
      assert (es + more)[..|es + more| - 1] == es + more[..n];
    }
  }

  lemma MarksNext(es: seq<Event>, e: Event)
    ensures Marks(es + [e]) == Marks(es) + if e.Attempt? then [Mark(e.phase, e.number)] else []
  {
    assert (es + [e])[..|es|] == es;
  }

  /** The marks so far are those of attempt `n` in progress. */
  predicate Opened(es: seq<Event>, n: nat) {
    n >= 1 && Marks(es) == Rounds(n - 1) + [Mark(Began, n)]
  }

  /** Every start of iteration `i` lies in attempt `i`: after its opening mark and before
      any later one. */
  ghost predicate StartsMarked(es: seq<Event>) {
    forall p :: 0 <= p < |es| && es[p].Start? ==> Opened(es[..p], es[p].iter)
  }

  lemma StartsMarkedNext(es: seq<Event>, e: Event)
    requires StartsMarked(es) && (e.Start? ==> Opened(es, e.iter))
    ensures StartsMarked(es + [e])
  {
    var longer := es + [e];
    forall p | 0 <= p < |longer| && longer[p].Start?
      ensures Opened(longer[..p], longer[p].iter)
    {
      assert longer[..p] == es[..p];
      if p == |es| {
        assert es[..p] == es;
      } else {
        assert es[p] == longer[p];
      }
    }
  }

  lemma {:induction false} StartsMarkedMore(es: seq<Event>, more: seq<Event>)
    requires StartsMarked(es) && forall k :: 0 <= k < |more| ==> !more[k].Start?
    ensures StartsMarked(es + more)
    decreases |more|
  {
    if |more| == 0 {
      assert es + more == es;
    } else {
      var n := |more| - 1;
      StartsMarkedMore(es, more[..n]);
      StartsMarkedNext(es + more[..n], more[n]);
      assert es + more[..n] + [more[n]] == es + more;
    }
  }

  /** In attempt `n`: its opening mark is the last, and every start so far is in place. */
  ghost predicate InAttempt(st: Run, n: nat) {
    StartsMarked(st.events) && Opened(st.events, n)
  }

  lemma FireOnceMarks(w: World, st: Run, id: string, n: nat)
    requires InAttempt(st, n)
    ensures InAttempt(FireOnce(w, st, id, n).st, n)
  {
    if LookUp(w, id).None? {
      var es := st.events + [Start(id, n)];
      var s := FireOnce(w, st, id, n).st;
      var o := w.fire(|st.calls|);
      var more := match o
        case Failed(err) => [Terminal(id, n, err)]
        case Returned(outputs, own, _) => OwnEvents(id, own) + [Complete(id, n, |outputs|)];
      assert s.events == es + more;
      MarksNext(st.events, Start(id, n));
      MarksMore(es, more);
      StartsMarkedNext(st.events, Start(id, n));
      StartsMarkedMore(es, more);
    }
  }

  lemma {:induction false} TryBodyMarks(w: World, st: Run, body: seq<string>, n: nat)
    requires InAttempt(st, n)
    ensures InAttempt(TryBody(w, st, body, n).st, n)
    decreases |body|
  {
    if |body| > 0 {
      FireOnceMarks(w, st, body[0], n);
      var t := FireOnce(w, st, body[0], n);
      if t.Through? {
        TryBodyMarks(w, t.st, body[1..], n);
      }
    }
  }

  /** The attempt in which a run ended, read off its waits. */
  function LastAttempt(ws: seq<nat>, r: Result<nat, RetryError>): nat {
    if r.Err? && r.error.CutShort? then |ws| else |ws| + 1
  }

  /** The marks a run ends with. */
  function FinalMarks(k: nat, r: Result<nat, RetryError>): seq<Mark> {
    match r
    case Ok(_) => [Mark(Succeeded, k)]
    case Err(Fatal(_)) => [Mark(Erred, k)]
    case Err(CutShort(_)) => [Mark(Erred, k)]
    case Err(GaveUp(_, _)) => [Mark(Erred, k), Mark(Exhausted, k)]
    case Err(BadBody(_)) => []
    case Err(BadCap) => []
  }

  ghost predicate MarkedRun(s: Run, ws: seq<nat>, r: Result<nat, RetryError>) {
    var k := LastAttempt(ws, r);
    k >= 1 && StartsMarked(s.events) && Marks(s.events) == Rounds(k - 1) + [Mark(Began, k)] + FinalMarks(k, r)
  }

  lemma EndMarks(st: Run, n: nat)
    requires InAttempt(st, n)
    ensures var head := Rounds(n - 1) + [Mark(Began, n)];
      var s1, s2 := st.Emit(Attempt(Succeeded, n)), st.Emit(Attempt(Erred, n));
      var s3 := s2.Emit(Attempt(Exhausted, n));
      && Marks(s1.events) == head + [Mark(Succeeded, n)]
      && Marks(s2.events) == head + [Mark(Erred, n)] == Rounds(n)
      && Marks(s3.events) == head + [Mark(Erred, n), Mark(Exhausted, n)]
      && StartsMarked(s1.events) && StartsMarked(s2.events) && StartsMarked(s3.events)
  {
    var s2 := st.Emit(Attempt(Erred, n));
    MarksNext(st.events, Attempt(Succeeded, n));
    MarksNext(st.events, Attempt(Erred, n));
    MarksNext(s2.events, Attempt(Exhausted, n));
    StartsMarkedNext(st.events, Attempt(Succeeded, n));
    StartsMarkedNext(st.events, Attempt(Erred, n));
    StartsMarkedNext(s2.events, Attempt(Exhausted, n));
  }

  lemma BeganOpens(st: Run, n: nat)
    requires n >= 1 && StartsMarked(st.events) && Marks(st.events) == Rounds(n - 1)
    ensures InAttempt(st.Emit(Attempt(Began, n)), n)
  {
    MarksNext(st.events, Attempt(Began, n));
    StartsMarkedNext(st.events, Attempt(Began, n));
  }

  lemma BrokeMarked(s: Run, waits: seq<nat>, n: nat, why: LookupError)
    requires InAttempt(s, n) && |waits| == n - 1
    ensures MarkedRun(s, waits, Err(BadBody(why)))
  {
    assert Marks(s.events) == Rounds(n - 1) + [Mark(Began, n)] + [];
  }

  lemma ThroughMarked(s: Run, waits: seq<nat>, n: nat)
    requires InAttempt(s, n) && |waits| == n - 1
    ensures MarkedRun(s.Emit(Attempt(Succeeded, n)), waits, Ok(n))
  {
    EndMarks(s, n);
  }

  lemma FailedMarked(s: Run, waits: seq<nat>, n: nat, err: Failure, wait: nat)
    requires InAttempt(s, n) && |waits| == n - 1
    ensures var s' := s.Emit(Attempt(Erred, n));
      && MarkedRun(s', waits, Err(Fatal(err)))
      && MarkedRun(s', waits + [wait], Err(CutShort(err)))
      && MarkedRun(s'.Emit(Attempt(Exhausted, n)), waits, Err(GaveUp(n, err)))
      && StartsMarked(s'.events) && Marks(s'.events) == Rounds(n)
  {
    EndMarks(s, n);
  }

  lemma LastMarked(w: World, a: Attrs, st: Run, waits: seq<nat>, n: nat)
    requires 1 <= n <= a.maxAttempts && |waits| == n - 1
    requires var t := TryBody(w, st.Emit(Attempt(Began, n)), a.body, n); InAttempt(t.st, n) && !Continues(a, t, n)
    ensures var (s, ws, r) := Attempts(w, a, st, waits, n); MarkedRun(s, ws, r)
  {
    var wait := Delay(n, Base(a), Ceiling(a));
    match TryBody(w, st.Emit(Attempt(Began, n)), a.body, n) {
      case Broke(s, why) => BrokeMarked(s, waits, n, why);
      case Through(s) => ThroughMarked(s, waits, n);
      case FailedWith(s, err) =>
        var e := if IsFatal(err) || n == a.maxAttempts then err else a.cancelled(n).value;
        FailedMarked(s, waits, n, e, wait);
    }
  }

  lemma {:induction false} AttemptsMarked(w: World, a: Attrs, st: Run, waits: seq<nat>, n: nat)
    requires 1 <= n <= a.maxAttempts && |waits| == n - 1
    requires StartsMarked(st.events) && Marks(st.events) == Rounds(n - 1)
    ensures var (s, ws, r) := Attempts(w, a, st, waits, n); MarkedRun(s, ws, r)
    decreases a.maxAttempts - n
  {
    BeganOpens(st, n);
    var began := st.Emit(Attempt(Began, n));
    TryBodyMarks(w, began, a.body, n);
    var t := TryBody(w, began, a.body, n);
    if Continues(a, t, n) {
      var wait := Delay(n, Base(a), Ceiling(a));
      FailedMarked(t.st, waits, n, t.err, wait);
      AttemptsMarked(w, a, t.st.Emit(Attempt(Erred, n)), waits + [wait], n + 1);
    } else {
      LastMarked(w, a, st, waits, n);
    }
  }

  /** The marks of a run are those of its failed attempts in order, then the last
      attempt's with the mark of its outcome; and every body start lies in its attempt. */
  lemma RetryMarked(w: World, a: Attrs, inputs: PortValues, stored: map<string, PortValues>)
    requires a.maxAttempts > 0
    ensures var (s, ws, r) := Execution(w, a, inputs, stored); MarkedRun(s, ws, r)
  {
    AttemptsMarked(w, a, Fresh(inputs, stored), [], 1);
  }

  // ---- why it stopped ----

  predicate LastFailed(w: World, s: Run, err: Failure) {
    |s.calls| > 0 && w.fire(|s.calls| - 1) == Failed(err)
  }

  /** Only a budget cap and a pause are not worth another attempt. */
  predicate Worthless(err: Failure) {
    err.kind in {BudgetError, PausedError}
  }

  predicate Uncut(a: Attrs, n: nat) {
    forall k :: 1 <= k < n ==> a.cancelled(k) == None
  }

  ghost predicate Ends(w: World, a: Attrs, s: Run, ws: seq<nat>, r: Result<nat, RetryError>) {
    var k := LastAttempt(ws, r);
    && Uncut(a, k) && (r != Err(BadCap) ==> 1 <= k <= a.maxAttempts)
    && match r
       case Ok(n) =>
         && n == k
         && (|a.body| > 0 ==> |s.calls| > 0 && w.fire(|s.calls| - 1).Returned? && s.current == w.fire(|s.calls| - 1).outputs)
       case Err(BadCap) => a.maxAttempts <= 0
       case Err(BadBody(UnknownBody(id))) => id in a.body && id !in w.nodes
       case Err(BadBody(NoExecutor(kind))) => kind !in w.kinds && exists id :: id in a.body && id in w.nodes && w.nodes[id] == kind
       case Err(Fatal(err)) => LastFailed(w, s, err) && Worthless(err)
       case Err(CutShort(e)) =>
         k < a.maxAttempts && a.cancelled(k) == Some(e) && exists err :: LastFailed(w, s, err) && !Worthless(err)
       case Err(GaveUp(n, err)) => n == k == a.maxAttempts && LastFailed(w, s, err) && !Worthless(err)
  }

  lemma {:induction false} TryBodyEnds(w: World, a: Attrs, st: Run, body: seq<string>, n: nat)
    requires forall id :: id in body ==> id in a.body
    ensures var t := TryBody(w, st, body, n);
      match t
      case Through(s) =>
        |body| > 0 ==> |s.calls| > 0 && w.fire(|s.calls| - 1).Returned? && s.current == w.fire(|s.calls| - 1).outputs
      case FailedWith(s, err) => LastFailed(w, s, err)
      case Broke(_, UnknownBody(id)) => id in a.body && id !in w.nodes
      case Broke(_, NoExecutor(kind)) => kind !in w.kinds && exists id :: id in a.body && id in w.nodes && w.nodes[id] == kind
    decreases |body|
  {
    if |body| > 0 {
      var t := FireOnce(w, st, body[0], n);
      if t.Through? {
        TryBodyEnds(w, a, t.st, body[1..], n);
        if |body| == 1 {
          assert TryBody(w, t.st, body[1..], n) == t;
        }
      }
    }
  }

  lemma {:induction false} AttemptsEnd(w: World, a: Attrs, st: Run, waits: seq<nat>, n: nat)
    requires 1 <= n <= a.maxAttempts && |waits| == n - 1 && Uncut(a, n)
    ensures var (s, ws, r) := Attempts(w, a, st, waits, n); Ends(w, a, s, ws, r) && r != Err(BadCap)
    decreases a.maxAttempts - n
  {
    var began := st.Emit(Attempt(Began, n));
    TryBodyEnds(w, a, began, a.body, n);
    var t := TryBody(w, began, a.body, n);
    if t.FailedWith? && !IsFatal(t.err) && n < a.maxAttempts {
      var s' := t.st.Emit(Attempt(Erred, n));
      assert LastFailed(w, s', t.err) && !Worthless(t.err);
      if a.cancelled(n).None? {
        AttemptsEnd(w, a, s', waits + [Delay(n, Base(a), Ceiling(a))], n + 1);
      }
    }
  }

  /** A Retry ends well with the first attempt whose body ran through; it ends otherwise
      for exactly the reason it names, and gives up only after the last attempt. */
  lemma RetryEnds(w: World, a: Attrs, inputs: PortValues, stored: map<string, PortValues>)
    ensures var (s, ws, r) := Execution(w, a, inputs, stored);
      Ends(w, a, s, ws, r) && (a.maxAttempts <= 0 <==> r == Err(BadCap))
  {
    if a.maxAttempts > 0 {
      AttemptsEnd(w, a, Fresh(inputs, stored), [], 1);
    }
  }

  // ---- the starts of each attempt ----

  lemma FireOnceStartsOf(w: World, st: Run, id: string, n: nat, i: nat)
    ensures StartsOf(FireOnce(w, st, id, n).st.events, i) ==
      StartsOf(st.events, i) + if LookUp(w, id).None? && i == n then [id] else []
  {
    if LookUp(w, id).None? {
      var es := st.events + [Start(id, n)];
      var o := w.fire(|st.calls|);
      var more := match o
        case Failed(err) => [Terminal(id, n, err)]
        case Returned(outputs, own, _) => OwnEvents(id, own) + [Complete(id, n, |outputs|)];
      assert FireOnce(w, st, id, n).st.events == es + more;
      StartsOfMore(es, more, i);
      assert es[..|es| - 1] == st.events;
    }
  }

  lemma StartsGrow(before: seq<string>, body: seq<string>, ours: bool, k: nat)
    requires |body| > 0 && k <= |body| - 1
    ensures before + (if ours then [body[0]] else []) + (if ours then body[1..][..k] else [])
            == before + if ours then body[..k + 1] else []
  {
    assert body[..k + 1] == [body[0]] + body[1..][..k];
  }

  lemma {:induction false} TryBodyStartsOf(w: World, st: Run, body: seq<string>, n: nat, i: nat) returns (m: nat)
    ensures var t := TryBody(w, st, body, n);
      && m <= |body| && (t.Through? ==> m == |body|)
      && StartsOf(t.st.events, i) == StartsOf(st.events, i) + if i == n then body[..m] else []
    decreases |body|
  {
    m := 0;
    if |body| > 0 {
      FireOnceStartsOf(w, st, body[0], n, i);
      var t := FireOnce(w, st, body[0], n);
      if t.Through? {
        var k := TryBodyStartsOf(w, t.st, body[1..], n, i);
        m := k + 1;
        StartsGrow(StartsOf(st.events, i), body, i == n, k);
      } else if LookUp(w, body[0]).None? {
        m := 1;
        assert body[..1] == [body[0]];
      }
    }
  }

  lemma MarkStartsOf(es: seq<Event>, phase: Phase, n: nat, i: nat)
    ensures StartsOf(es + [Attempt(phase, n)], i) == StartsOf(es, i)
  {
    StartsOfMore(es, [Attempt(phase, n)], i);
  }

  /** The starts of attempt `i` once attempts up to `n` are over. */
  predicate InOrder(body: seq<string>, es: seq<Event>, n: nat, i: nat) {
    StartsOf(es, i) <= body && (i == 0 || i > n ==> StartsOf(es, i) == [])
  }

  lemma AttemptStartsOf(w: World, body: seq<string>, st: Run, n: nat, i: nat)
    requires n >= 1 && InOrder(body, st.events, n - 1, i)
    ensures var t := TryBody(w, st.Emit(Attempt(Began, n)), body, n);
      var s' := t.st.Emit(Attempt(Erred, n));
      && InOrder(body, t.st.events, n, i) && (t.Through? && i == n ==> StartsOf(t.st.events, i) == body)
      && StartsOf(t.st.Emit(Attempt(Succeeded, n)).events, i) == StartsOf(t.st.events, i)
      && StartsOf(s'.events, i) == StartsOf(t.st.events, i)
      && StartsOf(s'.Emit(Attempt(Exhausted, n)).events, i) == StartsOf(t.st.events, i)
  {
    MarkStartsOf(st.events, Began, n, i);
    var m := TryBodyStartsOf(w, st.Emit(Attempt(Began, n)), body, n, i);
    assert [] + body[..m] == body[..m] <= body && body[..|body|] == body;
    var s := TryBody(w, st.Emit(Attempt(Began, n)), body, n).st;
    MarkStartsOf(s.events, Succeeded, n, i);
    MarkStartsOf(s.events, Erred, n, i);
    MarkStartsOf(s.Emit(Attempt(Erred, n)).events, Exhausted, n, i);
  }

  lemma {:induction false} AttemptsStartsOf(w: World, a: Attrs, st: Run, waits: seq<nat>, n: nat, i: nat)
    requires 1 <= n <= a.maxAttempts && |waits| == n - 1 && InOrder(a.body, st.events, n - 1, i)
    ensures var (s, ws, r) := Attempts(w, a, st, waits, n);
      InOrder(a.body, s.events, LastAttempt(ws, r), i) && (r == Ok(i) ==> StartsOf(s.events, i) == a.body)
    decreases a.maxAttempts - n
  {
    AttemptStartsOf(w, a.body, st, n, i);
    var t := TryBody(w, st.Emit(Attempt(Began, n)), a.body, n);
    if Continues(a, t, n) {
      AttemptsStartsOf(w, a, t.st.Emit(Attempt(Erred, n)), waits + [Delay(n, Base(a), Ceiling(a))], n + 1, i);
    }
  }

  /** Each attempt starts the body's nodes in the body's order, the one that succeeds all
      of them, and no start belongs to any other attempt. */
  lemma RetryStartsInOrder(w: World, a: Attrs, inputs: PortValues, stored: map<string, PortValues>, i: nat)
    requires a.maxAttempts > 0
    ensures var (s, ws, r) := Execution(w, a, inputs, stored);
      InOrder(a.body, s.events, LastAttempt(ws, r), i) && (r == Ok(i) ==> StartsOf(s.events, i) == a.body)
  {
    AttemptsStartsOf(w, a, Fresh(inputs, stored), [], 1, i);
  }

  // ---- the waits in numbers ----

  /** With the defaults of 50 and 5000 milliseconds filled in, the first wait is the base
      whatever the ceiling, and each later one doubles the one before up to the ceiling. */
  lemma WaitsInNumbers(w: World, a: Attrs, inputs: PortValues, stored: map<string, PortValues>, k: nat)
    requires k < |Execution(w, a, inputs, stored).1|
    ensures var ws := Execution(w, a, inputs, stored).1;
      var base, ceiling := if a.baseMs <= 0 then 50 else a.baseMs, if a.capMs <= 0 then 5000 else a.capMs;
      ws[k] == if k == 0 then base
               else if base > ceiling || 2 * ws[k - 1] > ceiling then ceiling
               else 2 * ws[k - 1]
  {
    WaitsFollowSchedule(w, a, Fresh(inputs, stored), [], 1);
    if k > 0 {
      DelayDoubles(k, Base(a), Ceiling(a));
    }
  }

  lemma DelayDoubles(n: nat, base: nat, ceiling: nat)
    requires n >= 1
    ensures var d := Delay(n, base, ceiling);
      Delay(n + 1, base, ceiling) == if base > ceiling || 2 * d > ceiling then ceiling else 2 * d
  {
    if base <= ceiling {
      DelaysGrow(n, base, ceiling);
    } else {
      Pow2Grows(base, 0, n);
    }
  }
}
