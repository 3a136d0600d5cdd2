/** Parallel tool dispatch (core/agentgraph/exec_dispatch.go): a bounded pool of
    goroutines over the calls of one turn, the shared repeat counter, the lock
    that serialises mutating tools, and the ordered aggregation. */
module ToolDispatch {
  import opened Wrappers
  import opened Lru
  import opened DoomLoop

  /** One requested call.  `key` is its doom-loop key; `passes` says whether
      validation, policy and hooks let it through to the tool. */
  datatype Call = Call(id: string, tool: string, key: string, mutating: bool, passes: bool)

  datatype ToolResult = ToolResult(content: string, isError: bool)

  datatype Pc = Waiting | Launched | Touched | Calling | Finished(result: ToolResult)

  /** `outcomes[i]`: written only by the goroutine of call `i`. */
  datatype Slot = Slot(call: Call, pc: Pc, repeats: nat)

  datatype State = State(slots: seq<Slot>, launched: nat, limit: nat, counts: Counts, cap: nat, lock: Option<nat>)

  datatype Action =
    | Launch                             // the next goroutine starts
    | Touch(i: nat)                      // RecordToolCall
    | Reject(i: nat, r: ToolResult)      // refused before the tool
    | Enter(i: nat)                      // the tool call begins, under the lock if mutating
    | Settle(i: nat, r: ToolResult)      // it returns
    | Panic(i: nat, r: ToolResult)       // it panics and is recovered

  function Clamp(maxConcurrent: int): nat {
    if maxConcurrent <= 0 then 4 else if maxConcurrent > 16 then 16 else maxConcurrent
  }

  function Begin(calls: seq<Call>, maxConcurrent: int, counts: Counts, cap: nat): State {
    State(seq(|calls|, i requires 0 <= i < |calls| => Slot(calls[i], Waiting, 0)), 0, Clamp(maxConcurrent), counts, cap, None)
  }

  predicate Active(pc: Pc) {
    pc.Launched? || pc.Touched? || pc.Calling?
  }

  function ActiveCount(slots: seq<Slot>): nat {
    if |slots| == 0 then 0
    else ActiveCount(slots[..|slots| - 1]) + if Active(slots[|slots| - 1].pc) then 1 else 0
  }

  function Put(s: State, i: nat, slot: Slot): State
    requires i < |s.slots|
  {
    s.(slots := s.slots[i := slot])
  }

  predicate Enabled(s: State, a: Action) {
    match a
    case Launch => s.launched < |s.slots| && ActiveCount(s.slots) < s.limit
    case Touch(i) => i < |s.slots| && s.slots[i].pc.Launched?
    case Reject(i, _) => i < |s.slots| && s.slots[i].pc.Touched? && !s.slots[i].call.passes
    case Enter(i) =>
      i < |s.slots| && s.slots[i].pc.Touched? && s.slots[i].call.passes && (s.slots[i].call.mutating ==> s.lock.None?)
    case Settle(i, _) => i < |s.slots| && s.slots[i].pc.Calling?
    case Panic(i, _) => i < |s.slots| && s.slots[i].pc.Calling?
  }

  /** An action that is not enabled does nothing.  A panic skips the unlock that
      follows the tool call. */
  function Next(s: State, a: Action): State {
    if !Enabled(s, a) then s
    else
      match a
      case Launch =>
        Put(s, s.launched, s.slots[s.launched].(pc := if s.slots[s.launched].pc.Waiting? then Launched else s.slots[s.launched].pc))
          .(launched := s.launched + 1)
      case Touch(i) =>
        var (counts, n) := TouchTable(s.counts, s.slots[i].call.key, s.cap);
        Put(s, i, s.slots[i].(pc := Touched, repeats := n)).(counts := counts)
      case Reject(i, r) => Put(s, i, s.slots[i].(pc := Finished(r)))
      case Enter(i) =>
        Put(s, i, s.slots[i].(pc := Calling)).(lock := if s.slots[i].call.mutating then Some(i) else s.lock)
      case Settle(i, r) =>
        Put(s, i, s.slots[i].(pc := Finished(r))).(lock := if s.slots[i].call.mutating then None else s.lock)
      case Panic(i, r) => Put(s, i, s.slots[i].(pc := Finished(r)))
  }

  function After(s: State, run: seq<Action>): State {
    if |run| == 0 then s else Next(After(s, run[..|run| - 1]), run[|run| - 1])
  }

  predicate AllDone(s: State) {
    s.launched == |s.slots| && forall i :: 0 <= i < |s.slots| ==> s.slots[i].pc.Finished?
  }

  // ---- slots keep their calls ----

  /** Only a mutating call that got through to its tool, and is running or panicked
      there, holds the lock. */
  predicate Holder(s: State, h: nat) {
    h < |s.slots| && s.slots[h].call.mutating && s.slots[h].call.passes && (s.slots[h].pc.Calling? || s.slots[h].pc.Finished?)
  }

  ghost predicate Shape(s: State, calls: seq<Call>) {
    && |s.slots| == |calls| && s.launched <= |calls| && 1 <= s.limit
    && (forall i :: 0 <= i < |calls| ==> s.slots[i].call == calls[i])
    && (forall i :: 0 <= i < |calls| ==> (s.slots[i].pc.Waiting? <==> i >= s.launched))
    // a mutating tool runs only while its own call holds the lock
    && (forall i :: 0 <= i < |calls| && s.slots[i].pc.Calling? && calls[i].mutating ==> s.lock == Some(i))
    && (forall i :: 0 <= i < |calls| && s.slots[i].pc.Calling? ==> calls[i].passes)
    && (s.lock.Some? ==> Holder(s, s.lock.value))
  }

  lemma NextShape(s: State, a: Action, calls: seq<Call>)
    requires Shape(s, calls)
    ensures Shape(Next(s, a), calls)
  {
  }

  lemma {:induction false} ShapeAlways(calls: seq<Call>, maxConcurrent: int, counts: Counts, cap: nat, run: seq<Action>)
    ensures Shape(After(Begin(calls, maxConcurrent, counts, cap), run), calls)
  {
    if |run| > 0 {
      ShapeAlways(calls, maxConcurrent, counts, cap, run[..|run| - 1]);
      NextShape(After(Begin(calls, maxConcurrent, counts, cap), run[..|run| - 1]), run[|run| - 1], calls);
    }
  }

  /** Two mutating tools are never inside their calls at once. */
  lemma MutatingSerialised(calls: seq<Call>, maxConcurrent: int, counts: Counts, cap: nat, run: seq<Action>, i: nat, j: nat)
    requires i < |calls| && j < |calls| && calls[i].mutating && calls[j].mutating
    requires var s := After(Begin(calls, maxConcurrent, counts, cap), run);
      |s.slots| == |calls| && s.slots[i].pc.Calling? && s.slots[j].pc.Calling?
    ensures i == j
  {
    ShapeAlways(calls, maxConcurrent, counts, cap, run);
  }

  predicate Delivers(a: Action, i: nat, r: ToolResult) {
    a == Reject(i, r) || a == Settle(i, r) || a == Panic(i, r)
  }

  /** Step `k` of the run is taken, not refused, and delivers `r` for call `i`. */
  ghost predicate DeliveredAt(b: State, run: seq<Action>, k: int, i: nat, r: ToolResult) {
    0 <= k < |run| && Enabled(After(b, run[..k]), run[k]) && Delivers(run[k], i, r)
  }

  /** Whatever the schedule, slot `i` belongs to call `i`, and a finished slot holds
      what a step taken for call `i` delivered. */
  lemma {:induction false} ResultsBelong(calls: seq<Call>, maxConcurrent: int, counts: Counts, cap: nat, run: seq<Action>, i: nat)
    requires i < |calls|
    ensures var b := Begin(calls, maxConcurrent, counts, cap); var s := After(b, run);
      && |s.slots| == |calls| && s.slots[i].call == calls[i]
      && (s.slots[i].pc.Finished? ==> exists k :: DeliveredAt(b, run, k, i, s.slots[i].pc.result))
  {
    var b := Begin(calls, maxConcurrent, counts, cap);
    ShapeAlways(calls, maxConcurrent, counts, cap, run);
    if |run| > 0 {
      var n := |run| - 1;
      var g, s, s' := run[..n], After(b, run[..n]), After(b, run);
      ShapeAlways(calls, maxConcurrent, counts, cap, g);
      ResultsBelong(calls, maxConcurrent, counts, cap, g, i);
      if s'.slots[i].pc.Finished? {
        var r := s'.slots[i].pc.result;
        if s.slots[i].pc == s'.slots[i].pc {
          var k :| DeliveredAt(b, g, k, i, r);
          assert g[..k] == run[..k];
          assert DeliveredAt(b, run, k, i, r);
        } else {
          assert DeliveredAt(b, run, n, i, r);
        }
      }
    }
  }

  datatype Milestone = Recorded | Entered | Answered

  /** The step is one of this kind for call `i`. */
  predicate Marks(a: Action, i: nat, m: Milestone) {
    match m
    case Recorded => a == Touch(i)
    case Entered => a == Enter(i)
    case Answered => (a.Reject? || a.Settle? || a.Panic?) && a.i == i
  }

  /** How many steps of a kind the run takes for call `i`; refused ones do not count. */
  function Taken(b: State, run: seq<Action>, i: nat, m: Milestone): nat {
    if |run| == 0 then 0
    else
      var g, a := run[..|run| - 1], run[|run| - 1];
      Taken(b, g, i, m) + Unit(Marks(a, i, m) && Enabled(After(b, g), a))
  }

  /** How many there should be by the time a call stands at `pc`. */
  function Due(pc: Pc, passes: bool, m: Milestone): nat {
    match m
    case Recorded => Unit(HasTouched(pc))
    case Entered => Unit(pc.Calling? || (pc.Finished? && passes))
    case Answered => Unit(pc.Finished?)
  }

  lemma StepDue(s: State, a: Action, calls: seq<Call>, i: nat, m: Milestone)
    requires Shape(s, calls) && i < |calls|
    ensures Due(Next(s, a).slots[i].pc, calls[i].passes, m) ==
      Due(s.slots[i].pc, calls[i].passes, m) + Unit(Marks(a, i, m) && Enabled(s, a))
  {
  }

  /** No call is lost or repeated: each is recorded once, its tool is entered exactly
      once if the call passes and never if it does not, and it is answered once. */
  lemma {:induction false} EachCallOnce(calls: seq<Call>, maxConcurrent: int, counts: Counts, cap: nat,
                                        run: seq<Action>, i: nat, m: Milestone)
    requires i < |calls|
    ensures var b := Begin(calls, maxConcurrent, counts, cap);
      && |After(b, run).slots| == |calls|
      && Taken(b, run, i, m) == Due(After(b, run).slots[i].pc, calls[i].passes, m)
  {
    ShapeAlways(calls, maxConcurrent, counts, cap, run);
    if |run| > 0 {
      var g := run[..|run| - 1];
      EachCallOnce(calls, maxConcurrent, counts, cap, g, i, m);
      ShapeAlways(calls, maxConcurrent, counts, cap, g);
      StepDue(After(Begin(calls, maxConcurrent, counts, cap), g), run[|run| - 1], calls, i, m);
    }
  }

  // ---- repeat counts do not depend on the schedule ----

  function Count(t: Counts, k: string): nat {
    match Find(t, k) case None => 0 case Some(c) => c
  }

  predicate HasTouched(pc: Pc) {
    !pc.Waiting? && !pc.Launched?
  }

  predicate TouchedWith(slot: Slot, k: string) {
    HasTouched(slot.pc) && slot.call.key == k
  }

  predicate ToldOf(slot: Slot, k: string, m: nat) {
    TouchedWith(slot, k) && slot.repeats == m
  }

  /** How many calls have recorded the key `k`. */
  function Touches(slots: seq<Slot>, k: string): nat {
    if |slots| == 0 then 0 else Touches(slots[..|slots| - 1], k) + Unit(TouchedWith(slots[|slots| - 1], k))
  }

  /** How many calls were told that `k` now stands at `m`. */
  function Reports(slots: seq<Slot>, k: string, m: nat): nat {
    if |slots| == 0 then 0 else Reports(slots[..|slots| - 1], k, m) + Unit(ToldOf(slots[|slots| - 1], k, m))
  }

  function KeysOf(calls: seq<Call>): set<string> {
    set c | c in calls :: c.key
  }

  /** All distinct keys, old and new, fit in the bounded history. */
  ghost predicate Fits(calls: seq<Call>, counts: Counts, cap: nat) {
    NoDup(Keys(counts)) && |SetOf(Keys(counts)) + KeysOf(calls)| <= cap
  }

  /** Replacing one slot exchanges only that slot's contribution. */
  lemma {:induction false} SlotSwap(slots: seq<Slot>, i: nat, slot: Slot, k: string, m: nat)
    requires i < |slots|
    ensures Touches(slots[i := slot], k) + Unit(TouchedWith(slots[i], k)) == Touches(slots, k) + Unit(TouchedWith(slot, k))
    ensures Reports(slots[i := slot], k, m) + Unit(ToldOf(slots[i], k, m)) == Reports(slots, k, m) + Unit(ToldOf(slot, k, m))
  {
    var n := |slots| - 1;
    if i == n {
      assert slots[i := slot][..n] == slots[..n];
    } else {
      assert slots[i := slot][..n] == slots[..n][i := slot];
      SlotSwap(slots[..n], i, slot, k, m);
    }
  }

  lemma {:induction false} NoDupSize<T>(s: seq<T>)
    requires NoDup(s)
    ensures |SetOf(s)| == |s|
  {
    if |s| > 0 {
      NoDupSize(s[1..]);
      assert SetOf(s) == {s[0]} + SetOf(s[1..]);
      assert s[0] !in s[1..];
    }
  }

  /** A touch that fits evicts nobody: one count goes up by one. */
  lemma TouchFits(t: Counts, k: string, cap: nat, all: set<string>)
    requires NoDup(Keys(t)) && SetOf(Keys(t)) <= all && k in all && |all| <= cap
    ensures var (t', n) := TouchTable(t, k, cap);
      && NoDup(Keys(t')) && SetOf(Keys(t')) <= all
      && n == Count(t, k) + 1
      && forall j :: Count(t', j) == Count(t, j) + if j == k then 1 else 0
  {
    var (t', n) := TouchTable(t, k, cap);
    var ks := Keys(t);
    FindIffKey(t, k);
    UpsertKeys(t, k, n, cap);
    NoDupSize(ks);
    if k !in ks {
      SubsetSize(SetOf(ks) + {k}, all);
      assert |SetOf(ks) + {k}| == |ks| + 1;
    }
    RemoveNoDup(ks, k);
    forall j | j != k
      ensures Count(t', j) == Count(t, j)
    {
      CountOther(t, k, n, cap, j);
    }
  }

  /** Nobody else's count changes when the table has room or the key is known. */
  lemma CountOther(t: Counts, k: string, n: nat, cap: nat, j: string)
    requires NoDup(Keys(t)) && j != k && (k in Keys(t) || |t| < cap)
    ensures Count(Upsert(t, k, n, cap), j) == Count(t, j)
  {
    UpsertOthers(t, k, n, cap, j);
    FindIffKey(t, j);
    RemoveNoDup(Keys(t), k);
  }

  /** Each key's stored count is its old count plus the calls that recorded it, and
      those calls were told the numbers in between, each once. */
  ghost predicate CountOk(s: State, counts: Counts, k: string, m: nat) {
    && Count(s.counts, k) == Count(counts, k) + Touches(s.slots, k)
    && Reports(s.slots, k, m) == Unit(Count(counts, k) < m <= Count(counts, k) + Touches(s.slots, k))
  }

  ghost predicate KeysOk(s: State, calls: seq<Call>, counts: Counts) {
    NoDup(Keys(s.counts)) && SetOf(Keys(s.counts)) <= SetOf(Keys(counts)) + KeysOf(calls)
  }

  lemma NextCounts(s: State, a: Action, calls: seq<Call>, counts: Counts, k: string, m: nat)
    requires Shape(s, calls) && KeysOk(s, calls, counts) && CountOk(s, counts, k, m) && Fits(calls, counts, s.cap)
    ensures KeysOk(Next(s, a), calls, counts) && CountOk(Next(s, a), counts, k, m)
  {
    if Enabled(s, a) {
      var i := if a.Launch? then s.launched else a.i;
      var slot := Next(s, a).slots[i];
      assert Next(s, a).slots == s.slots[i := slot];
      SlotSwap(s.slots, i, slot, k, m);
      if a.Touch? {
        assert s.slots[i].call in calls;
        TouchFits(s.counts, s.slots[i].call.key, s.cap, SetOf(Keys(counts)) + KeysOf(calls));
      }
    }
  }

  lemma CapStays(s: State, a: Action)
    ensures Next(s, a).cap == s.cap
  {
  }

  lemma {:induction false} NothingTouched(slots: seq<Slot>, k: string, m: nat)
    requires forall i :: 0 <= i < |slots| ==> !HasTouched(slots[i].pc)
    ensures Touches(slots, k) == 0 && Reports(slots, k, m) == 0
  {
    if |slots| > 0 {
      NothingTouched(slots[..|slots| - 1], k, m);
    }
  }

  lemma {:induction false} CountsAlways(calls: seq<Call>, maxConcurrent: int, counts: Counts, cap: nat, run: seq<Action>, k: string, m: nat)
    requires Fits(calls, counts, cap)
    ensures var s := After(Begin(calls, maxConcurrent, counts, cap), run);
      s.cap == cap && KeysOk(s, calls, counts) && CountOk(s, counts, k, m)
  {
    var b := Begin(calls, maxConcurrent, counts, cap);
    if |run| == 0 {
      NothingTouched(b.slots, k, m);
    } else {
      CountsAlways(calls, maxConcurrent, counts, cap, run[..|run| - 1], k, m);
      ShapeAlways(calls, maxConcurrent, counts, cap, run[..|run| - 1]);
      CapStays(After(b, run[..|run| - 1]), run[|run| - 1]);
      NextCounts(After(b, run[..|run| - 1]), run[|run| - 1], calls, counts, k, m);
    }
  }

  /** The counted calls among the reports: those at or past the threshold. */
  function Hits(slots: seq<Slot>, threshold: nat): seq<(string, nat)> {
    if |slots| == 0 then []
    else
      var l := slots[|slots| - 1];
      Hits(slots[..|slots| - 1], threshold) + if l.repeats >= threshold then [(l.call.key, l.repeats)] else []
  }

  datatype Message = Message(role: string, name: string, toolCallID: string, content: string, isError: bool)

  /** The loop after `grp.Wait()`: results, tool messages and hits in call order. */
  method Aggregate(slots: seq<Slot>, threshold: nat)
    returns (results: seq<ToolResult>, toolMsgs: seq<Message>, hits: seq<(string, nat)>, shouldReplan: bool)
    requires forall i :: 0 <= i < |slots| ==> slots[i].pc.Finished?
    ensures |results| == |slots| == |toolMsgs|
    ensures forall i :: 0 <= i < |slots| ==> results[i] == slots[i].pc.result
    ensures forall i :: 0 <= i < |slots| ==>
      toolMsgs[i] == Message("tool", slots[i].call.tool, slots[i].call.id, results[i].content, results[i].isError)
    ensures hits == Hits(slots, threshold)
    ensures shouldReplan <==> exists i :: 0 <= i < |slots| && slots[i].repeats >= threshold
  {
    results, toolMsgs, hits := [], [], [];
    for n := 0 to |slots|
      invariant |results| == n == |toolMsgs|
      invariant forall i :: 0 <= i < n ==> results[i] == slots[i].pc.result
      invariant forall i :: 0 <= i < n ==>
        toolMsgs[i] == Message("tool", slots[i].call.tool, slots[i].call.id, results[i].content, results[i].isError)
      invariant hits == Hits(slots[..n], threshold)
      invariant hits != [] <==> exists i :: 0 <= i < n && slots[i].repeats >= threshold
    {
      var oc := slots[n];
      results := results + [oc.pc.result];
      toolMsgs := toolMsgs + [Message("tool", oc.call.tool, oc.call.id, oc.pc.result.content, oc.pc.result.isError)];
      if oc.repeats >= threshold {
        hits := hits + [(oc.call.key, oc.repeats)];
      }
      assert slots[..n + 1][..n] == slots[..n];
    }
    assert slots[..|slots|] == slots;
    shouldReplan := |hits| > 0;
  }

  lemma {:induction false} HitsFromReports(slots: seq<Slot>, threshold: nat, k: string, m: nat)
    requires forall i :: 0 <= i < |slots| ==> HasTouched(slots[i].pc)
    ensures multiset(Hits(slots, threshold))[(k, m)] == if m >= threshold then Reports(slots, k, m) else 0
  {
    if |slots| > 0 {
      HitsFromReports(slots[..|slots| - 1], threshold, k, m);
    }
  }

  lemma {:induction false} SameTouches(slots: seq<Slot>, slots': seq<Slot>, k: string)
    requires |slots| == |slots'|
    requires forall i :: 0 <= i < |slots| ==> HasTouched(slots[i].pc) && HasTouched(slots'[i].pc) && slots[i].call == slots'[i].call
    ensures Touches(slots, k) == Touches(slots', k)
  {
    if |slots| > 0 {
      SameTouches(slots[..|slots| - 1], slots'[..|slots'| - 1], k);
    }
  }

  /** Any two complete schedules of the same calls, with any pool sizes, raise the
      same doom-loop hits as a multiset of (tool call, repeat count) pairs, and so
      agree on `should_replan`, as long as the distinct keys fit in the history. */
  lemma ScheduleIndependent(calls: seq<Call>, counts: Counts, cap: nat, max1: int, run1: seq<Action>, max2: int, run2: seq<Action>, threshold: nat)
    requires Fits(calls, counts, cap)
    requires AllDone(After(Begin(calls, max1, counts, cap), run1))
    requires AllDone(After(Begin(calls, max2, counts, cap), run2))
    ensures var h1 := Hits(After(Begin(calls, max1, counts, cap), run1).slots, threshold);
      var h2 := Hits(After(Begin(calls, max2, counts, cap), run2).slots, threshold);
      multiset(h1) == multiset(h2) && (h1 == [] <==> h2 == [])
  {
    var s1, s2 := After(Begin(calls, max1, counts, cap), run1), After(Begin(calls, max2, counts, cap), run2);
    ShapeAlways(calls, max1, counts, cap, run1);
    ShapeAlways(calls, max2, counts, cap, run2);
    var h1, h2 := Hits(s1.slots, threshold), Hits(s2.slots, threshold);
    forall p: (string, nat)
      ensures multiset(h1)[p] == multiset(h2)[p]
    {
      CountsAlways(calls, max1, counts, cap, run1, p.0, p.1);
      CountsAlways(calls, max2, counts, cap, run2, p.0, p.1);
      SameTouches(s1.slots, s2.slots, p.0);
      HitsFromReports(s1.slots, threshold, p.0, p.1);
      HitsFromReports(s2.slots, threshold, p.0, p.1);
    }
    assert multiset(h1) == multiset(h2);
    assert |h1| == |multiset(h1)| == |multiset(h2)| == |h2|;
  }

  // ---- does the fan-out always come to an end? ----

  function Weight(pc: Pc): nat {
    match pc
    case Waiting => 4
    case Launched => 3
    case Touched => 2
    case Calling => 1
    case Finished(_) => 0
  }

  function Left(slots: seq<Slot>): nat {
    if |slots| == 0 then 0 else Left(slots[..|slots| - 1]) + Weight(slots[|slots| - 1].pc)
  }

  lemma {:induction false} LeftSwap(slots: seq<Slot>, i: nat, slot: Slot)
    requires i < |slots|
    ensures Left(slots[i := slot]) + Weight(slots[i].pc) == Left(slots) + Weight(slot.pc)
    ensures ActiveCount(slots[i := slot]) + Unit(Active(slots[i].pc)) == ActiveCount(slots) + Unit(Active(slot.pc))
  {
    var n := |slots| - 1;
    if i == n {
      assert slots[i := slot][..n] == slots[..n];
    } else {
      assert slots[i := slot][..n] == slots[..n][i := slot];
      LeftSwap(slots[..n], i, slot);
    }
  }

  lemma {:induction false} NoneActive(slots: seq<Slot>)
    requires forall i :: 0 <= i < |slots| ==> !Active(slots[i].pc)
    ensures ActiveCount(slots) == 0
  {
    if |slots| > 0 {
      NoneActive(slots[..|slots| - 1]);
    }
  }

  /** The pool never runs more goroutines than its limit. */
  lemma {:induction false} PoolBounded(calls: seq<Call>, maxConcurrent: int, counts: Counts, cap: nat, run: seq<Action>)
    ensures ActiveCount(After(Begin(calls, maxConcurrent, counts, cap), run).slots) <= Clamp(maxConcurrent) <= 16
    ensures After(Begin(calls, maxConcurrent, counts, cap), run).limit == Clamp(maxConcurrent)
  {
    var b := Begin(calls, maxConcurrent, counts, cap);
    if |run| == 0 {
      NoneActive(b.slots);
    } else {
      var s, a := After(b, run[..|run| - 1]), run[|run| - 1];
      PoolBounded(calls, maxConcurrent, counts, cap, run[..|run| - 1]);
      ShapeAlways(calls, maxConcurrent, counts, cap, run[..|run| - 1]);
      if Enabled(s, a) {
        var i := if a.Launch? then s.launched else a.i;
        LeftSwap(s.slots, i, Next(s, a).slots[i]);
      }
    }
  }

  /** The lock was left behind by a call that panicked. */
  predicate StuckLock(s: State) {
    s.lock.Some? && s.lock.value < |s.slots| && s.slots[s.lock.value].pc.Finished?
  }

  /** A mutating call that will reach its tool is still to come. */
  predicate AwaitsLock(slot: Slot) {
    slot.call.mutating && slot.call.passes && !slot.pc.Finished?
  }

  ghost predicate Deadlocked(s: State) {
    StuckLock(s) && exists i :: 0 <= i < |s.slots| && AwaitsLock(s.slots[i])
  }

  lemma DeadlockStays(s: State, a: Action, calls: seq<Call>)
    requires Shape(s, calls) && Deadlocked(s)
    ensures Deadlocked(Next(s, a)) && !AllDone(s)
  {
    var i :| 0 <= i < |s.slots| && AwaitsLock(s.slots[i]);
    assert !s.slots[i].pc.Calling?;
    assert AwaitsLock(Next(s, a).slots[i]);
  }

  /** Short of a deadlock some goroutine can always take a step towards the end. */
  lemma Progress(s: State, calls: seq<Call>) returns (a: Action)
    requires Shape(s, calls) && !Deadlocked(s) && !AllDone(s)
    ensures Enabled(s, a) && !Deadlocked(Next(s, a)) && Left(Next(s, a).slots) < Left(s.slots)
  {
    a := NextUp(s, calls);
    StepLowers(s, a, calls);
    StepKeepsFree(s, a, if a.Launch? then s.launched else a.i);
  }

  /** Something other than a panic can happen next. */
  lemma NextUp(s: State, calls: seq<Call>) returns (a: Action)
    requires Shape(s, calls) && !Deadlocked(s) && !AllDone(s)
    ensures Enabled(s, a) && !a.Panic?
  {
    var r := ToolResult("", false);
    if i :| 0 <= i < |s.slots| && s.slots[i].pc.Calling? {
      a := Settle(i, r);
    } else if i :| 0 <= i < |s.slots| && s.slots[i].pc.Touched? {
      a := if s.slots[i].call.passes then Enter(i) else Reject(i, r);
      assert s.slots[i].call.passes && s.slots[i].call.mutating ==> AwaitsLock(s.slots[i]);
    } else if i :| 0 <= i < |s.slots| && s.slots[i].pc.Launched? {
      a := Touch(i);
    } else {
      NoneActive(s.slots);
      a := Launch;
    }
  }

  /** Any step but a panic keeps a state free of deadlock free. */
  lemma StepKeepsFree(s: State, a: Action, i: nat)
    requires Enabled(s, a) && !a.Panic? && !Deadlocked(s) && i < |s.slots|
    requires i == if a.Launch? then s.launched else a.i
    requires s.lock.Some? ==> Holder(s, s.lock.value)
    requires a.Settle? && s.slots[i].call.mutating ==> s.lock == Some(i)
    requires a.Launch? ==> s.slots[i].pc.Waiting?
    ensures !Deadlocked(Next(s, a))
  {
    var s' := Next(s, a);
    assert |s'.slots| == |s.slots|;
    forall j | 0 <= j < |s.slots|
      ensures AwaitsLock(s'.slots[j]) ==> AwaitsLock(s.slots[j])
    {
    }
    assert StuckLock(s') ==> StuckLock(s);
  }

  // ---- on every schedule ----

  /** How many steps of a run are taken; refused ones do not count. */
  function StepsTaken(b: State, run: seq<Action>): nat {
    if |run| == 0 then 0
    else
      var g := run[..|run| - 1];
      StepsTaken(b, g) + Unit(Enabled(After(b, g), run[|run| - 1]))
  }

  /** Every step taken uses something up. */
  lemma StepLowers(s: State, a: Action, calls: seq<Call>)
    requires Shape(s, calls) && Enabled(s, a)
    ensures Left(Next(s, a).slots) < Left(s.slots)
  {
    var i := if a.Launch? then s.launched else a.i;
    LeftSwap(s.slots, i, Next(s, a).slots[i]);
  }

  lemma {:induction false} LeftFresh(slots: seq<Slot>)
    ensures Left(slots) <= 4 * |slots|
  {
    if |slots| > 0 {
      LeftFresh(slots[..|slots| - 1]);
    }
  }

  /** No schedule goes on for ever: at most four steps a call are taken. */
  lemma {:induction false} StepsBounded(calls: seq<Call>, maxConcurrent: int, counts: Counts, cap: nat, run: seq<Action>)
    ensures var b := Begin(calls, maxConcurrent, counts, cap);
      StepsTaken(b, run) + Left(After(b, run).slots) <= 4 * |calls|
  {
    var b := Begin(calls, maxConcurrent, counts, cap);
    if |run| == 0 {
      LeftFresh(b.slots);
    } else {
      var g, a := run[..|run| - 1], run[|run| - 1];
      StepsBounded(calls, maxConcurrent, counts, cap, g);
      ShapeAlways(calls, maxConcurrent, counts, cap, g);
      if Enabled(After(b, g), a) {
        StepLowers(After(b, g), a, calls);
      }
    }
  }

  ghost predicate Halted(s: State) {
    forall a :: !Enabled(s, a)
  }

  /** A schedule that cannot go on has answered every call or is deadlocked. */
  lemma HaltedMeans(s: State, calls: seq<Call>)
    requires Shape(s, calls) && Halted(s)
    ensures AllDone(s) || Deadlocked(s)
  {
    if !AllDone(s) && !Deadlocked(s) {
      var a := Progress(s, calls);
    }
  }

  /** Any schedule can be carried on until it cannot go on. */
  lemma {:induction false} RunOut(s: State, calls: seq<Call>) returns (more: seq<Action>)
    requires Shape(s, calls)
    ensures Halted(After(s, more))
    decreases Left(s.slots)
  {
    if Halted(s) {
      more := [];
    } else {
      var a :| Enabled(s, a);
      StepLowers(s, a, calls);
      NextShape(s, a, calls);
      var rest := RunOut(Next(s, a), calls);
      more := [a] + rest;
      AfterAppend(s, [a], rest);
      assert [a][..0] == [];
      assert After(s, [a]) == Next(After(s, []), a);
    }
  }

  lemma {:induction false} AfterAppend(s: State, a: seq<Action>, b: seq<Action>)
    ensures After(s, a + b) == After(After(s, a), b)
  {
    if |b| == 0 {
      assert a + b == a;
    } else {
      assert (a + b)[..|a + b| - 1] == a + b[..|b| - 1];
      AfterAppend(s, a, b[..|b| - 1]);
    }
  }

  lemma {:induction false} DriveToEnd(s: State, calls: seq<Call>) returns (more: seq<Action>)
    requires Shape(s, calls) && !Deadlocked(s)
    ensures AllDone(After(s, more))
    decreases Left(s.slots)
  {
    if AllDone(s) {
      more := [];
    } else {
      var a := Progress(s, calls);
      NextShape(s, a, calls);
      var rest := DriveToEnd(Next(s, a), calls);
      more := [a] + rest;
      AfterAppend(s, [a], rest);
      assert [a][..0] == [];
      assert After(s, [a]) == Next(After(s, []), a);
    }
  }

  lemma {:induction false} DeadlockForever(s: State, calls: seq<Call>, more: seq<Action>)
    requires Shape(s, calls) && Deadlocked(s)
    ensures Shape(After(s, more), calls) && Deadlocked(After(s, more)) && !AllDone(After(s, more))
  {
    if |more| > 0 {
      DeadlockForever(s, calls, more[..|more| - 1]);
      NextShape(After(s, more[..|more| - 1]), more[|more| - 1], calls);
      DeadlockStays(After(s, more[..|more| - 1]), more[|more| - 1], calls);
      DeadlockStays(After(s, more), Launch, calls);
    } else {
      DeadlockStays(s, Launch, calls);
    }
  }

  ghost predicate CanFinish(s: State) {
    exists more :: AllDone(After(s, more))
  }

  /** A panicking tool is documented not to stop its siblings.  From a given point the
      fan-out can be brought to its end exactly when no panicked mutating call has left
      the lock behind while another mutating call still needs it; otherwise no schedule
      whatever finishes. */
  lemma FinishesIff(calls: seq<Call>, maxConcurrent: int, counts: Counts, cap: nat, run: seq<Action>)
    ensures var s := After(Begin(calls, maxConcurrent, counts, cap), run);
      CanFinish(s) <==> !Deadlocked(s)
  {
    var s := After(Begin(calls, maxConcurrent, counts, cap), run);
    ShapeAlways(calls, maxConcurrent, counts, cap, run);
    if Deadlocked(s) {
      forall more
        ensures !AllDone(After(s, more))
      {
        DeadlockForever(s, calls, more);
      }
    } else {
      var more := DriveToEnd(s, calls);
      assert AllDone(After(s, more));
    }
  }

  // ---- which batches can deadlock at all ----

  predicate Serial(c: Call) {
    c.mutating && c.passes
  }

  /** Two calls of the batch reach mutating tools. */
  predicate TwoSerial(calls: seq<Call>) {
    exists i, j :: 0 <= i < j < |calls| && Serial(calls[i]) && Serial(calls[j])
  }

  /** The first `n` calls are answered and the others not yet begun. */
  ghost predicate AnsweredUpTo(s: State, calls: seq<Call>, n: nat) {
    && Shape(s, calls) && s.launched == n && s.lock.None?
    && (forall k :: 0 <= k < n ==> s.slots[k].pc.Finished?)
  }

  lemma Stepped(b: State, run: seq<Action>, a: Action, s: State) returns (longer: seq<Action>)
    requires After(b, run) == s
    ensures longer == run + [a] && After(b, longer) == Next(s, a)
  {
    longer := run + [a];
    assert longer[..|run|] == run;
  }

  /** The next call is launched and recorded. */
  lemma BeginNext(b: State, run: seq<Action>, calls: seq<Call>, n: nat) returns (longer: seq<Action>)
    requires AnsweredUpTo(After(b, run), calls, n) && n < |calls|
    ensures BegunAt(After(b, longer), calls, n)
  {
    var s0 := After(b, run);
    NoneActive(s0.slots);
    longer := Stepped(b, run, Launch, s0);
    NextShape(s0, Launch, calls);
    var s1 := After(b, longer);
    longer := Stepped(b, longer, Touch(n), s1);
    NextShape(s1, Touch(n), calls);
  }

  /** The call at `n` is begun and the ones before it answered. */
  ghost predicate BegunAt(s: State, calls: seq<Call>, n: nat) {
    && Shape(s, calls) && n < |calls| && s.launched == n + 1 && s.lock.None? && s.slots[n].pc.Touched?
    && (forall k :: 0 <= k < n ==> s.slots[k].pc.Finished?)
  }

  lemma RejectEnds(s: State, calls: seq<Call>, n: nat, r: ToolResult)
    requires BegunAt(s, calls, n) && !calls[n].passes
    ensures AnsweredUpTo(Next(s, Reject(n, r)), calls, n + 1)
  {
    NextShape(s, Reject(n, r), calls);
  }

  lemma CallEnters(s: State, calls: seq<Call>, n: nat)
    requires BegunAt(s, calls, n) && calls[n].passes
    ensures var s' := Next(s, Enter(n));
      && Shape(s', calls) && s'.launched == n + 1 && s'.slots[n].pc.Calling?
      && s'.lock == (if calls[n].mutating then Some(n) else None)
      && (forall k :: 0 <= k < n ==> s'.slots[k].pc.Finished?)
  {
    NextShape(s, Enter(n), calls);
  }

  lemma CallEnds(s: State, calls: seq<Call>, n: nat, r: ToolResult)
    requires Shape(s, calls) && n < |calls| && s.launched == n + 1 && s.slots[n].pc.Calling?
    requires s.lock == if calls[n].mutating then Some(n) else None
    requires forall k :: 0 <= k < n ==> s.slots[k].pc.Finished?
    ensures AnsweredUpTo(Next(s, Settle(n, r)), calls, n + 1)
    ensures calls[n].mutating ==>
      var s' := Next(s, Panic(n, r)); Shape(s', calls) && StuckLock(s') && s'.launched == n + 1
  {
    NextShape(s, Settle(n, r), calls);
    NextShape(s, Panic(n, r), calls);
  }

  /** And answered. */
  lemma AnswerNext(b: State, run: seq<Action>, calls: seq<Call>, n: nat) returns (longer: seq<Action>)
    requires AnsweredUpTo(After(b, run), calls, n) && n < |calls|
    ensures AnsweredUpTo(After(b, longer), calls, n + 1)
  {
    var r := ToolResult("", false);
    longer := BeginNext(b, run, calls, n);
    var s := After(b, longer);
    if calls[n].passes {
      CallEnters(s, calls, n);
      longer := Stepped(b, longer, Enter(n), s);
      CallEnds(Next(s, Enter(n)), calls, n, r);
      longer := Stepped(b, longer, Settle(n, r), Next(s, Enter(n)));
    } else {
      RejectEnds(s, calls, n, r);
      longer := Stepped(b, longer, Reject(n, r), s);
    }
  }

  /** Or it panics. */
  lemma PanicNext(b: State, run: seq<Action>, calls: seq<Call>, n: nat) returns (longer: seq<Action>)
    requires AnsweredUpTo(After(b, run), calls, n) && n < |calls| && Serial(calls[n])
    ensures Shape(After(b, longer), calls) && StuckLock(After(b, longer)) && After(b, longer).launched == n + 1
  {
    var r := ToolResult("", true);
    longer := BeginNext(b, run, calls, n);
    var s := After(b, longer);
    CallEnters(s, calls, n);
    longer := Stepped(b, longer, Enter(n), s);
    CallEnds(Next(s, Enter(n)), calls, n, r);
    longer := Stepped(b, longer, Panic(n, r), Next(s, Enter(n)));
  }

  /** Any number of calls can be answered one after the other. */
  lemma {:induction false} AnswerFirst(calls: seq<Call>, maxConcurrent: int, counts: Counts, cap: nat, n: nat)
    returns (run: seq<Action>)
    requires n <= |calls|
    ensures AnsweredUpTo(After(Begin(calls, maxConcurrent, counts, cap), run), calls, n)
  {
    var b := Begin(calls, maxConcurrent, counts, cap);
    if n == 0 {
      run := [];
    } else {
      run := AnswerFirst(calls, maxConcurrent, counts, cap, n - 1);
      run := AnswerNext(b, run, calls, n - 1);
    }
  }

  ghost predicate CanDeadlock(b: State) {
    exists run :: Deadlocked(After(b, run))
  }

  /** A batch can deadlock, by some schedule in which a tool panics, exactly when two of
      its calls reach mutating tools; the pool size does not matter. */
  lemma DeadlockIff(calls: seq<Call>, maxConcurrent: int, counts: Counts, cap: nat)
    ensures CanDeadlock(Begin(calls, maxConcurrent, counts, cap)) <==> TwoSerial(calls)
  {
    var b := Begin(calls, maxConcurrent, counts, cap);
    if TwoSerial(calls) {
      var i, j :| 0 <= i < j < |calls| && Serial(calls[i]) && Serial(calls[j]);
      var run := AnswerFirst(calls, maxConcurrent, counts, cap, i);
      run := PanicNext(b, run, calls, i);
      assert AwaitsLock(After(b, run).slots[j]);
      assert Deadlocked(After(b, run));
    } else {
      forall run
        ensures !Deadlocked(After(b, run))
      {
        ShapeAlways(calls, maxConcurrent, counts, cap, run);
        NoDeadlock(After(b, run), calls);
      }
    }
  }

  lemma NoDeadlock(s: State, calls: seq<Call>)
    requires Shape(s, calls) && !TwoSerial(calls)
    ensures !Deadlocked(s)
  {
    if StuckLock(s) {
      var h := s.lock.value;
      forall i | 0 <= i < |s.slots|
        ensures !AwaitsLock(s.slots[i])
      {
        assert Serial(calls[h]);
        assert Serial(calls[i]) ==> i == h;
      }
    }
  }

  /** So every reachable state of a batch can be brought to its end exactly when at most
      one call of the batch reaches a mutating tool. */
  lemma AlwaysFinishesIff(calls: seq<Call>, maxConcurrent: int, counts: Counts, cap: nat)
    ensures (forall run :: CanFinish(After(Begin(calls, maxConcurrent, counts, cap), run))) <==> !TwoSerial(calls)
  {
    var b := Begin(calls, maxConcurrent, counts, cap);
    DeadlockIff(calls, maxConcurrent, counts, cap);
    if TwoSerial(calls) {
      var run :| Deadlocked(After(b, run));
      FinishesIff(calls, maxConcurrent, counts, cap, run);
      assert !CanFinish(After(b, run));
    } else {
      forall run
        ensures CanFinish(After(b, run))
      {
        FinishesIff(calls, maxConcurrent, counts, cap, run);
        ShapeAlways(calls, maxConcurrent, counts, cap, run);
        NoDeadlock(After(b, run), calls);
      }
    }
  }

  /** Siblings go on whatever the schedule: every schedule that is carried on until it
      cannot go on has answered every call, exactly when at most one call of the batch
      reaches a mutating tool. */
  lemma EveryScheduleFinishesIff(calls: seq<Call>, maxConcurrent: int, counts: Counts, cap: nat)
    ensures EverySchedule(Begin(calls, maxConcurrent, counts, cap)) <==> !TwoSerial(calls)
  {
    var b := Begin(calls, maxConcurrent, counts, cap);
    DeadlockIff(calls, maxConcurrent, counts, cap);
    if TwoSerial(calls) {
      var run :| Deadlocked(After(b, run));
      ShapeAlways(calls, maxConcurrent, counts, cap, run);
      var more := RunOut(After(b, run), calls);
      DeadlockForever(After(b, run), calls, more);
      AfterAppend(b, run, more);
      assert Halted(After(b, run + more)) && !AllDone(After(b, run + more));
    } else {
      forall run | Halted(After(b, run))
        ensures AllDone(After(b, run))
      {
        ShapeAlways(calls, maxConcurrent, counts, cap, run);
        HaltedMeans(After(b, run), calls);
        NoDeadlock(After(b, run), calls);
      }
    }
  }

  ghost predicate EverySchedule(b: State) {
    forall run :: Halted(After(b, run)) ==> AllDone(After(b, run))
  }

  /** For one, two mutating calls. */
  lemma PanicDeadlocks(counts: Counts, cap: nat)
    ensures var c := Call("1", "write", "k", true, true);
      CanDeadlock(Begin([c, c.(id := "2")], 2, counts, cap))
  {
    var c := Call("1", "write", "k", true, true);
    var calls := [c, c.(id := "2")];
    assert Serial(calls[0]) && Serial(calls[1]);
    assert TwoSerial(calls);
    DeadlockIff(calls, 2, counts, cap);
  }

  // ---- the pool can be filled ----

  /** The requested concurrency: 4 if none is asked for, and 16 at most. */
  function Allowed(maxConcurrent: int): nat {
    if maxConcurrent in {1, 2, 3, 4, 5, 6, 7, 8, 9, 10, 11, 12, 13, 14, 15} then maxConcurrent
    else if maxConcurrent < 1 then 4
    else 16
  }

  function Launches(n: nat): seq<Action> {
    seq(n, i => Launch)
  }

  lemma {:induction false} LaunchedActive(slots: seq<Slot>, n: nat)
    requires n <= |slots|
    requires forall i :: 0 <= i < |slots| ==> slots[i].pc == if i < n then Launched else Waiting
    ensures ActiveCount(slots) == n
    decreases |slots|
  {
    if |slots| > 0 {
      var k := |slots| - 1;
      LaunchedActive(slots[..k], if n > k then k else n);
    }
  }

  /** The first `n` calls are launched, and nothing else has happened. */
  predicate Filled(s: State, n: nat) {
    s.launched == n <= |s.slots| && forall i :: 0 <= i < |s.slots| ==> s.slots[i].pc == if i < n then Launched else Waiting
  }

  lemma LaunchOne(s: State, n: nat)
    requires Filled(s, n) && n < |s.slots| && n < s.limit
    ensures var t := Next(s, Launch); Filled(t, n + 1) && t.limit == s.limit && |t.slots| == |s.slots|
  {
    LaunchedActive(s.slots, n);
  }

  lemma {:induction false} LaunchesFill(s: State, n: nat)
    requires Filled(s, 0) && n <= |s.slots| && n <= s.limit
    ensures var t := After(s, Launches(n)); Filled(t, n) && t.limit == s.limit && |t.slots| == |s.slots|
  {
    if n > 0 {
      LaunchesFill(s, n - 1);
      var run := Launches(n);
      assert run[..n - 1] == Launches(n - 1) && run[n - 1] == Launch;
      LaunchOne(After(s, Launches(n - 1)), n - 1);
    }
  }

  /** The bound on the pool is exact: as many calls as are allowed, or all there are, can
      be under way at once. */
  lemma PoolFills(calls: seq<Call>, maxConcurrent: int, counts: Counts, cap: nat)
    ensures var n := if |calls| < Allowed(maxConcurrent) then |calls| else Allowed(maxConcurrent);
      ActiveCount(After(Begin(calls, maxConcurrent, counts, cap), Launches(n)).slots) == n
  {
    var s := Begin(calls, maxConcurrent, counts, cap);
    assert s.limit == Allowed(maxConcurrent);
    var n := if |calls| < s.limit then |calls| else s.limit;
    LaunchesFill(s, n);
    LaunchedActive(After(s, Launches(n)).slots, n);
  }

  /** And never more, in any run. */
  lemma PoolNeverExceeds(calls: seq<Call>, maxConcurrent: int, counts: Counts, cap: nat, run: seq<Action>)
    ensures ActiveCount(After(Begin(calls, maxConcurrent, counts, cap), run).slots) <= Allowed(maxConcurrent)
  {
    PoolBounded(calls, maxConcurrent, counts, cap, run);
  }
}
