/** The Retry container (core/agentgraph/exec_control.go): bounded attempts with
    exponential backoff. */
module RetryNode {
  import opened Wrappers
  import opened BranchValues
  import opened BodyFires

  /** `cancelled(n)` is the context's error if the wait after attempt n is cut short. */
  datatype Attrs = Attrs(body: seq<string>, maxAttempts: int, baseMs: int, capMs: int, cancelled: nat -> Option<Failure>)

  datatype RetryError =
    | BadCap
    | BadBody(lookup: LookupError)
    | Fatal(err: Failure)
    | CutShort(err: Failure)
    | GaveUp(attempts: nat, err: Failure)

  datatype Tried = Through(st: Run) | FailedWith(st: Run, err: Failure) | Broke(st: Run, why: LookupError)

  function FireOnce(w: World, st: Run, id: string, attempt: nat): Tried {
    var bad := LookUp(w, id);
    if bad.Some? then Broke(st, bad.value)
    else
      var s := st.Emit(Start(id, attempt)).Called(id);
      var o := w.fire(|st.calls|);
      match o
      case Failed(err) => FailedWith(s.Emit(Terminal(id, attempt, err)), err)
      case Returned(_, _, _) => Through(Completed(s, id, attempt, o))
  }

  function TryBody(w: World, st: Run, body: seq<string>, attempt: nat): Tried
    decreases |body|
  {
    if |body| == 0 then Through(st)
    else
      var t := FireOnce(w, st, body[0], attempt);
      if t.Through? then TryBody(w, t.st, body[1..], attempt) else t
  }

  predicate IsFatal(err: Failure) {
    err.kind == BudgetError || err.kind == PausedError
  }

  function Base(a: Attrs): nat {
    if a.baseMs <= 0 then 50 else a.baseMs
  }

  function Ceiling(a: Attrs): nat {
    if a.capMs <= 0 then 5000 else a.capMs
  }

  function Pow2(n: nat): (p: nat)
    ensures p >= 1
  {
    if n == 0 then 1 else 2 * Pow2(n - 1)
  }

  function Min(a: nat, b: nat): nat {
    if a <= b then a else b
  }

  /** The wait after a failed attempt. */
  function Delay(attempt: nat, base: nat, ceiling: nat): nat {
    if attempt <= 1 then base else Min(base * Pow2(attempt - 1), ceiling)
  }

  /** What is left of the run from attempt `n` on: the state, the waits, the result. */
  function Attempts(w: World, a: Attrs, st: Run, waits: seq<nat>, n: nat): (Run, seq<nat>, Result<nat, RetryError>)
    requires n <= a.maxAttempts
    decreases a.maxAttempts - n
  {
    match TryBody(w, st.Emit(Attempt(Began, n)), a.body, n)
    case Broke(s, why) => (s, waits, Err(BadBody(why)))
    case Through(s) => (s.Emit(Attempt(Succeeded, n)), waits, Ok(n))
    case FailedWith(s, err) =>
      var s' := s.Emit(Attempt(Erred, n));
      if IsFatal(err) then (s', waits, Err(Fatal(err)))
      else if n == a.maxAttempts then (s'.Emit(Attempt(Exhausted, n)), waits, Err(GaveUp(n, err)))
      else
        var waited := waits + [Delay(n, Base(a), Ceiling(a))];
        match a.cancelled(n)
        case Some(e) => (s', waited, Err(CutShort(e)))
        case None => Attempts(w, a, s', waited, n + 1)
  }

  function Execution(w: World, a: Attrs, inputs: PortValues, stored: map<string, PortValues>)
    : (Run, seq<nat>, Result<nat, RetryError>)
  {
    if a.maxAttempts <= 0 then (Fresh(inputs, stored), [], Err(BadCap))
    else Attempts(w, a, Fresh(inputs, stored), [], 1)
  }

  /** The doubling loop; it stops as soon as the ceiling is passed. */
  method Backoff(attempt: nat, base: nat, ceiling: nat) returns (delay: nat)
    requires attempt >= 1
    ensures delay == Delay(attempt, base, ceiling)
  {
    delay := base;
    var i := 1;
    while i < attempt
      invariant 1 <= i <= attempt
      invariant delay == base * Pow2(i - 1) && (i > 1 ==> delay <= ceiling)
    {
      delay := delay * 2;
      assert Pow2(i) == 2 * Pow2(i - 1) && delay == base * Pow2(i);
      if delay > ceiling {
        Pow2Grows(base, i, attempt - 1);
        delay := ceiling;
        break;
      }
      i := i + 1;
    }
  }

  lemma {:induction false} Pow2Grows(base: nat, m: nat, n: nat)
    requires m <= n
    ensures base * Pow2(m) <= base * Pow2(n)
    decreases n - m
  {
    if m < n {
      Pow2Grows(base, m, n - 1);
      assert base * Pow2(n) == 2 * (base * Pow2(n - 1));
    }
  }

  /** `Execute` as written. */
  method Execute(w: World, a: Attrs, inputs: PortValues, stored: map<string, PortValues>)
    returns (st: Run, waits: seq<nat>, out: Result<PortValues, RetryError>)
    ensures (st, waits) == (Execution(w, a, inputs, stored).0, Execution(w, a, inputs, stored).1)
    ensures match Execution(w, a, inputs, stored).2
      case Ok(n) => out == Ok(map["out" := VPorts(st.current), "attempts" := VInt(n)])
      case Err(e) => out == Err(e)
  {
    st, waits := Fresh(inputs, stored), [];
    if a.maxAttempts <= 0 {
      return st, waits, Err(BadCap);
    }
    var attempt := 1;
    while true
      invariant 1 <= attempt <= a.maxAttempts
      invariant Attempts(w, a, st, waits, attempt) == Execution(w, a, inputs, stored)
      decreases a.maxAttempts - attempt
    {
      st := st.Emit(Attempt(Began, attempt));
      ghost var began := st;
      var stepErr: Option<Failure> := None;
      var k := 0;
      while k < |a.body|
        invariant 0 <= k <= |a.body| && stepErr.None?
        invariant TryBody(w, began, a.body, attempt) == TryBody(w, st, a.body[k..], attempt)
      {
        assert a.body[k..][1..] == a.body[k + 1..];
        var t := FireOnce(w, st, a.body[k], attempt);
        st := t.st;
        if t.Broke? {
          return st, waits, Err(BadBody(t.why));
        }
        if t.FailedWith? {
          stepErr := Some(t.err);
          break;
        }
        k := k + 1;
      }
      if stepErr.None? {
        st := st.Emit(Attempt(Succeeded, attempt));
        return st, waits, Ok(map["out" := VPorts(st.current), "attempts" := VInt(attempt)]);
      }
      st := st.Emit(Attempt(Erred, attempt));
      if IsFatal(stepErr.value) {
        return st, waits, Err(Fatal(stepErr.value));
      }
      if attempt == a.maxAttempts {
        st := st.Emit(Attempt(Exhausted, attempt));
        return st, waits, Err(GaveUp(attempt, stepErr.value));
      }
      var delay := Backoff(attempt, Base(a), Ceiling(a));
      waits := waits + [delay];
      if a.cancelled(attempt).Some? {
        return st, waits, Err(CutShort(a.cancelled(attempt).value));
      }
      attempt := attempt + 1;
    }
  }

  // ---- the batch is well nested ----

  lemma MarkSettles(st: Run, phase: Phase, n: nat, top: nat)
    requires Settled(st, top)
    ensures Settled(st.Emit(Attempt(phase, n)), top)
  {
    ScanNext(st.events, Attempt(phase, n));
  }

  lemma FireOnceSettles(w: World, st: Run, id: string, n: nat)
    requires Settled(st, n) && n >= 1
    ensures var t := FireOnce(w, st, id, n);
      Settled(t.st, n) && |t.st.calls| <= |st.calls| + 1
  {
    if LookUp(w, id).None? {
      StartOpens(st, id, n);
      var s := st.Emit(Start(id, n)).Called(id);
      match w.fire(|st.calls|) {
        case Failed(err) => CloseSettles(s, id, n, Terminal(id, n, err));
        case Returned(_, _, _) => CompletedSettles(s, id, n, w.fire(|st.calls|));
      }
    }
  }

  lemma {:induction false} TryBodySettles(w: World, st: Run, body: seq<string>, n: nat)
    requires Settled(st, n) && n >= 1
    ensures var t := TryBody(w, st, body, n);
      Settled(t.st, n) && |t.st.calls| <= |st.calls| + |body|
    decreases |body|
  {
    if |body| > 0 {
      FireOnceSettles(w, st, body[0], n);
      var t := FireOnce(w, st, body[0], n);
      if t.Through? {
        TryBodySettles(w, t.st, body[1..], n);
      }
    }
  }

  /** One attempt, with the marks around it. */
  lemma AttemptSettles(w: World, body: seq<string>, st: Run, n: nat)
    requires Settled(st, n) && n >= 1
    ensures var s := TryBody(w, st.Emit(Attempt(Began, n)), body, n).st;
      && Settled(s, n) && |s.calls| <= |st.calls| + |body|
      && Settled(s.Emit(Attempt(Succeeded, n)), n)
      && Settled(s.Emit(Attempt(Erred, n)), n)
      && Settled(s.Emit(Attempt(Erred, n)).Emit(Attempt(Exhausted, n)), n)
  {
    MarkSettles(st, Began, n, n);
    TryBodySettles(w, st.Emit(Attempt(Began, n)), body, n);
    var s := TryBody(w, st.Emit(Attempt(Began, n)), body, n).st;
    MarkSettles(s, Succeeded, n, n);
    MarkSettles(s, Erred, n, n);
    MarkSettles(s.Emit(Attempt(Erred, n)), Exhausted, n, n);
  }

  lemma {:induction false} AttemptsSettle(w: World, a: Attrs, st: Run, waits: seq<nat>, n: nat)
    requires 1 <= n <= a.maxAttempts && Settled(st, n)
    ensures var (s, _, r) := Attempts(w, a, st, waits, n);
      && Settled(s, a.maxAttempts)
      && |s.calls| <= |st.calls| + Budget(a.maxAttempts - n + 1, |a.body|)
      && (r.Ok? ==> n <= r.value <= a.maxAttempts)
    decreases a.maxAttempts - n
  {
    AttemptSettles(w, a.body, st, n);
    var t := TryBody(w, st.Emit(Attempt(Began, n)), a.body, n);
    if t.FailedWith? && !IsFatal(t.err) && n < a.maxAttempts {
      AttemptsSettle(w, a, t.st.Emit(Attempt(Erred, n)), waits + [Delay(n, Base(a), Ceiling(a))], n + 1);
    }
  }

  /** Whatever the body returns: body starts and closes pair up one to one without
      overlap, attempts run from 1 to the cap, and the executor is called at most cap
      times body length times. */
  lemma RetryWellNested(w: World, a: Attrs, inputs: PortValues, stored: map<string, PortValues>)
    requires a.maxAttempts > 0
    ensures var (s, _, r) := Execution(w, a, inputs, stored);
      && WellNested(s.events, a.maxAttempts)
      && |s.calls| == CallsIn(s.events) <= a.maxAttempts * |a.body|
      && (r.Ok? ==> 1 <= r.value <= a.maxAttempts)
  {
    AttemptsSettle(w, a, Fresh(inputs, stored), [], 1);
    BudgetIsProduct(a.maxAttempts, |a.body|);
    AcceptedWellNested(Execution(w, a, inputs, stored).0.events, a.maxAttempts);
  }

  // ---- the waits ----

  /** The waits are exactly the backoff schedule, one after every failed attempt but
      the last. */
  lemma {:induction false} WaitsFollowSchedule(w: World, a: Attrs, st: Run, waits: seq<nat>, n: nat)
    requires 1 <= n <= a.maxAttempts && |waits| == n - 1
    requires forall k :: 0 <= k < |waits| ==> waits[k] == Delay(k + 1, Base(a), Ceiling(a))
    ensures var (_, ws, r) := Attempts(w, a, st, waits, n);
      && (forall k :: 0 <= k < |ws| ==> ws[k] == Delay(k + 1, Base(a), Ceiling(a)))
      && |ws| < a.maxAttempts
      && (r.Ok? ==> |ws| == r.value - 1)
      && (r.Err? && r.error.GaveUp? ==> |ws| == a.maxAttempts - 1)
    decreases a.maxAttempts - n
  {
    if n < a.maxAttempts {
      var s' := TryBody(w, st.Emit(Attempt(Began, n)), a.body, n).st.Emit(Attempt(Erred, n));
      WaitsFollowSchedule(w, a, s', waits + [Delay(n, Base(a), Ceiling(a))], n + 1);
    }
  }

  /** A wait keeps within the ceiling unless it is the first and the base exceeds it. */
  lemma CeilingIff(attempt: nat, base: nat, ceiling: nat)
    requires attempt >= 1
    ensures Delay(attempt, base, ceiling) <= ceiling <==> attempt >= 2 || base <= ceiling
  {
  }

  /** With a base within the ceiling, later waits are never shorter. */
  lemma DelaysGrow(attempt: nat, base: nat, ceiling: nat)
    requires attempt >= 1 && base <= ceiling
    ensures Delay(attempt, base, ceiling) <= Delay(attempt + 1, base, ceiling)
    ensures Delay(attempt + 1, base, ceiling) == Min(2 * Delay(attempt, base, ceiling), ceiling)
  {
    assert base * Pow2(attempt) == 2 * (base * Pow2(attempt - 1));
    assert attempt == 1 ==> Pow2(0) == 1 && base * Pow2(0) == base;
  }

  // ---- what each call is handed ----

  /** The inputs of call number `n`: the outputs of the last call that returned, of
      whatever attempt, and the node's own inputs only if none has. */
  function HandedOn(w: World, inputs: PortValues, n: nat): PortValues {
    if n == 0 then inputs
    else
      match w.fire(n - 1)
      case Returned(outputs, _, _) => outputs
      case Failed(_) => HandedOn(w, inputs, n - 1)
  }

  /** After a failure the next call is a new attempt's first, and the failure was
      neither a pause nor a budget cap. */
  predicate Justified(w: World, body: seq<string>, calls: seq<Call>, k: nat)
    requires k + 1 < |calls|
  {
    match w.fire(k)
    case Returned(_, _, _) => true
    case Failed(err) => !IsFatal(err) && |body| > 0 && calls[k + 1].node == body[0]
  }

  ghost predicate Traced(w: World, body: seq<string>, inputs: PortValues, st: Run) {
    && (forall k :: 0 <= k < |st.calls| ==> st.calls[k].inputs == HandedOn(w, inputs, k))
    && (forall k :: 0 <= k < |st.calls| - 1 ==> Justified(w, body, st.calls, k))
    && st.current == HandedOn(w, inputs, |st.calls|)
  }

  /** The last call returned, or `id` opens a new attempt after a failure. */
  predicate MayCall(w: World, body: seq<string>, n: nat, id: string) {
    n == 0 ||
    match w.fire(n - 1)
    case Returned(_, _, _) => true
    case Failed(err) => !IsFatal(err) && |body| > 0 && id == body[0]
  }

  lemma FireOnceTraced(w: World, body: seq<string>, inputs: PortValues, st: Run, id: string, n: nat)
    requires Traced(w, body, inputs, st) && MayCall(w, body, |st.calls|, id)
    ensures var t := FireOnce(w, st, id, n);
      && Traced(w, body, inputs, t.st)
      && (t.Through? ==> |t.st.calls| > 0 && w.fire(|t.st.calls| - 1).Returned?)
      && (t.FailedWith? ==> |t.st.calls| > 0 && w.fire(|t.st.calls| - 1) == Failed(t.err))
  {
    var s := st.Called(id);
    forall k | 0 <= k < |s.calls| - 1
      ensures Justified(w, body, s.calls, k)
    {
      if k < |st.calls| - 1 {
        assert Justified(w, body, st.calls, k);
      }
    }
  }

  lemma {:induction false} TryBodyTraced(w: World, body: seq<string>, inputs: PortValues, st: Run, rest: seq<string>, n: nat)
    requires Traced(w, body, inputs, st)
    requires |rest| > 0 ==> MayCall(w, body, |st.calls|, rest[0])
    ensures var t := TryBody(w, st, rest, n);
      && Traced(w, body, inputs, t.st)
      && (t.FailedWith? ==> |rest| > 0 && |t.st.calls| > 0 && w.fire(|t.st.calls| - 1) == Failed(t.err))
    decreases |rest|
  {
    if |rest| > 0 {
      FireOnceTraced(w, body, inputs, st, rest[0], n);
      var t := FireOnce(w, st, rest[0], n);
      if t.Through? {
        TryBodyTraced(w, body, inputs, t.st, rest[1..], n);
      }
    }
  }

  lemma {:induction false} AttemptsTraced(w: World, a: Attrs, inputs: PortValues, st: Run, waits: seq<nat>, n: nat)
    requires 1 <= n <= a.maxAttempts && Traced(w, a.body, inputs, st)
    requires |a.body| > 0 ==> MayCall(w, a.body, |st.calls|, a.body[0])
    ensures Traced(w, a.body, inputs, Attempts(w, a, st, waits, n).0)
    decreases a.maxAttempts - n
  {
    var began := st.Emit(Attempt(Began, n));
    TryBodyTraced(w, a.body, inputs, began, a.body, n);
    var t := TryBody(w, began, a.body, n);
    if t.FailedWith? && !IsFatal(t.err) && n < a.maxAttempts {
      AttemptsTraced(w, a, inputs, t.st.Emit(Attempt(Erred, n)), waits + [Delay(n, Base(a), Ceiling(a))], n + 1);
    }
  }

  /** The payload is never reset between attempts: a call gets the node's inputs only
      while nothing has returned yet. */
  lemma RetryThreads(w: World, a: Attrs, inputs: PortValues, stored: map<string, PortValues>)
    ensures Traced(w, a.body, inputs, Execution(w, a, inputs, stored).0)
  {
    if a.maxAttempts > 0 {
      AttemptsTraced(w, a, inputs, Fresh(inputs, stored), [], 1);
    }
  }

  /** A concrete second attempt that starts from the first one's leftovers. */
  lemma NotReset(w: World, x: PortValues, inputs: PortValues)
    requires w.nodes == map["a" := "tool", "b" := "tool"] && w.kinds == {"tool"}
    requires w.fire(0) == Returned(x, [], false)
    requires w.fire(1).Failed? && w.fire(1).err.kind.OtherError?
    requires w.fire(2).Returned? && w.fire(3).Returned?
    ensures var calls := Execution(w, Attrs(["a", "b"], 2, 0, 0, _ => None), inputs, map[]).0.calls;
      |calls| == 4 && calls[0] == Call("a", inputs) && calls[2] == Call("a", x)
  {
    var a := Attrs(["a", "b"], 2, 0, 0, _ => None);
    var body := a.body;
    assert body[1..] == ["b"] && body[1..][1..] == [];
    var st := Fresh(inputs, map[]).Emit(Attempt(Began, 1));
    var t1 := FireOnce(w, st, "a", 1);
    var t2 := FireOnce(w, t1.st, "b", 1);
    assert TryBody(w, t1.st, body[1..], 1) == t2;
    assert TryBody(w, st, body, 1) == t2;
    var s2 := t2.st.Emit(Attempt(Erred, 1)).Emit(Attempt(Began, 2));
    var t3 := FireOnce(w, s2, "a", 2);
    var t4 := FireOnce(w, t3.st, "b", 2);
    assert TryBody(w, t4.st, body[1..][1..], 2) == t4;
    assert TryBody(w, t3.st, body[1..], 2) == t4;
    assert TryBody(w, s2, body, 2) == t4;
  }

  // ---- a pause inside a Retry is not one ----

  /** The same executors, except in whether they ask to pause. */
  ghost predicate SameButPauses(w: World, v: World) {
    && w.nodes == v.nodes && w.kinds == v.kinds
    && forall n ::
         match (w.fire(n), v.fire(n))
         case (Failed(e), Failed(f)) => e == f
         case (Returned(x, own, _), Returned(y, own', _)) => x == y && own == own'
         case _ => false
  }

  lemma {:induction false} TryBodyPauseBlind(w: World, v: World, st: Run, body: seq<string>, n: nat)
    requires SameButPauses(w, v)
    ensures TryBody(w, st, body, n) == TryBody(v, st, body, n)
    decreases |body|
  {
    if |body| > 0 {
      var t := FireOnce(w, st, body[0], n);
      assert t == FireOnce(v, st, body[0], n);
      if t.Through? {
        TryBodyPauseBlind(w, v, t.st, body[1..], n);
      }
    }
  }

  lemma {:induction false} AttemptsPauseBlind(w: World, v: World, a: Attrs, st: Run, waits: seq<nat>, n: nat)
    requires SameButPauses(w, v) && n <= a.maxAttempts
    ensures Attempts(w, a, st, waits, n) == Attempts(v, a, st, waits, n)
    decreases a.maxAttempts - n
  {
    var began := st.Emit(Attempt(Began, n));
    TryBodyPauseBlind(w, v, began, a.body, n);
    if n < a.maxAttempts {
      AttemptsPauseBlind(w, v, a, TryBody(w, began, a.body, n).st.Emit(Attempt(Erred, n)),
                         waits + [Delay(n, Base(a), Ceiling(a))], n + 1);
    }
  }

  /** Unlike a Loop, a Retry never looks at a body's pause request: whether bodies ask
      to pause changes nothing in its run. */
  lemma RetryIgnoresPause(w: World, v: World, a: Attrs, inputs: PortValues, stored: map<string, PortValues>)
    requires SameButPauses(w, v)
    ensures Execution(w, a, inputs, stored) == Execution(v, a, inputs, stored)
  {
    if a.maxAttempts > 0 {
      AttemptsPauseBlind(w, v, a, Fresh(inputs, stored), [], 1);
    }
  }
}
