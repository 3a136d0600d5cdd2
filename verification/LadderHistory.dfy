/** What a ladder node's next fire does, told from the effects seen so far and nothing
    else (core/agentgraph/exec_escalation_ladder.go): no rung is skipped, none is taken
    twice, and each fire answers for exactly one. */
module LadderHistory {
  import opened Wrappers
  import opened BranchValues
  import opened RunState
  import opened EscalationLadder

  /** Where a node stands, as anyone watching its effects can tell. */
  datatype Standing = Retries(n: nat) | ToEscalate | ToReplan | ToAsk | Over

  /** A node stands where its latest fire left it. */
  function StandingAfter(e: Effect): Standing {
    match e
    case Backtrack(_, n) => Retries(if n < 0 then 0 else n)
    case Escalated(_) => ToReplan
    case Replanned(_) => ToAsk
    case GaveUp(_) => Over
    case Answered(_) => Over
    case Paused => ToAsk
    case Failed(rung) => StandingAt(rung)
    case Panicked(rung) => StandingAt(rung)
  }

  function StandingAt(rung: int): Standing {
    if rung == 1 then ToEscalate else if rung == 2 then ToReplan else if rung == 3 then ToAsk else Over
  }

  /** The latest effect of `node` in a run of fires. */
  function LastOwn(calls: seq<Call>, node: string): Option<Effect> {
    if |calls| == 0 then None
    else if calls[|calls| - 1].node == node then Some(LastEffect(calls))
    else LastOwn(calls[..|calls| - 1], node)
  }

  function Stands(calls: seq<Call>, node: string): Standing {
    match LastOwn(calls, node)
    case None => Retries(0)
    case Some(e) => StandingAfter(e)
  }

  /** The effect uses up the run's one escalation. */
  predicate Spends(e: Effect) {
    e.Escalated? || e == Panicked(1)
  }

  /** Some fire of any node has used it up. */
  predicate SlotSpent(calls: seq<Call>) {
    |calls| > 0 && (Spends(LastEffect(calls)) || SlotSpent(calls[..|calls| - 1]))
  }

  function LastEvents(calls: seq<Call>): seq<Event>
    requires |calls| > 0
  {
    FireOnce(MemoryAfter(calls[..|calls| - 1]), calls[|calls| - 1]).1.events
  }

  datatype Doing = Doing(effect: Effect, events: seq<Event>)

  /** The events of a rung passed through on the way to `d`; a panic keeps none. */
  function Preceded(e: Event, d: Doing): Doing {
    if d.effect.Panicked? then d else d.(events := [e] + d.events)
  }

  /** Asking: a withheld question gives the draft back, a recorded answer is passed on,
      and otherwise the question is parked if it can be. */
  function Asks(w: World): Doing {
    if w.withhold then Doing(GaveUp(w.draft), [AskRung(true)])
    else if w.answer.Some? then Doing(Answered(w.answer.value), [AskAnswered, AskRung(false)])
    else if w.pendingOk then Doing(Paused, [AskPending, AskRung(false)])
    else Doing(Failed(3), [])
  }

  function Replans(w: World): Doing {
    match w.replan
    case Text(t) => Doing(Replanned(t), [ReplanRung, PlanCreated])
    case Refused => Doing(Failed(2), [])
    case Panics => Doing(Panicked(2), [])
  }

  function Escalates(w: World): Doing {
    match w.escalation
    case Text(t) => Doing(Escalated(t), [EscalateRung(false), EscalateTriggered])
    case Refused => Doing(Failed(1), [EscalateRung(false)])
    case Panics => Doing(Panicked(1), [])
  }

  /** With the escalation used up by anyone, the rung is passed over. */
  function FromEscalate(spent: bool, w: World): Doing {
    if spent then Preceded(EscalateRung(true), Replans(w)) else Escalates(w)
  }

  /** Backtracks are numbered 1, 2, ... up to `max_retries`, 1 if not positive. */
  function FromRetry(n: nat, spent: bool, c: Call): Doing {
    var max := if c.attrs.maxRetriesAttr <= 0 then 1 else c.attrs.maxRetriesAttr;
    if n < max then Doing(Backtrack(c.attrs.upstream, n + 1), [RetryRung(n + 1, max)])
    else Preceded(RetryRung(n + 1, max), FromEscalate(spent, c.world))
  }

  /** What the next fire does, by where its node stands and whether the run's one
      escalation is used up. */
  function Does(s: Standing, spent: bool, c: Call): Doing {
    match s
    case Retries(n) => FromRetry(n, spent, c)
    case ToEscalate => FromEscalate(spent, c.world)
    case ToReplan => Replans(c.world)
    case ToAsk => Asks(c.world)
    case Over => Doing(Failed(4), [])
  }

  // ---- the stored state is the standing ----

  predicate Keeps(mem: Memory, node: string, s: Standing) {
    match s
    case Retries(n) => RungOf(mem, node) == 0 && AttemptsOf(mem, node) == n
    case ToEscalate => RungOf(mem, node) == 1
    case ToReplan => RungOf(mem, node) == 2
    case ToAsk => RungOf(mem, node) == 3
    case Over => RungOf(mem, node) == 4
  }

  /** A fire at `f` ended as `d`, after the events `f` had, and left the node's state and
      the slot accordingly. */
  ghost predicate EndsAs(mem: Memory, f: Fire, d: Doing) {
    var (m, g) := Complete(mem, f);
    && g.pc == Done(d.effect) && g.events == (if d.effect.Panicked? then [] else f.events + d.events)
    && Keeps(m, f.node, StandingAfter(d.effect))
    && m.Fired(GLOBAL_KEY) == (mem.Fired(GLOBAL_KEY) || Spends(d.effect))
  }

  lemma StoredRung(mem: Memory, node: string, rung: int, attempts: int)
    ensures var m := mem.With(StateKey(node), Stored(rung, attempts));
      RungOf(m, node) == rung && AttemptsOf(m, node) == attempts && m.Fired(GLOBAL_KEY) == mem.Fired(GLOBAL_KEY)
  {
    KeysApart(node, node);
  }

  lemma SlotApart(mem: Memory, node: string)
    ensures RungOf(mem.Claimed(GLOBAL_KEY), node) == RungOf(mem, node)
    ensures RungOf(mem.Claimed(GLOBAL_KEY).Released(GLOBAL_KEY), node) == RungOf(mem, node)
    ensures mem.Claimed(GLOBAL_KEY).Fired(GLOBAL_KEY) && !mem.Claimed(GLOBAL_KEY).Released(GLOBAL_KEY).Fired(GLOBAL_KEY)
  {
    KeysApart(node, node);
  }

  lemma AskEnds(mem: Memory, f: Fire)
    requires f.pc.Asking? && RungOf(mem, f.node) == 3
    ensures EndsAs(mem, f, Asks(f.world))
  {
    CompleteStep(mem, f);
    StoredRung(mem, f.node, EXHAUSTED, f.attempts);
  }

  lemma ReplanEnds(mem: Memory, f: Fire)
    requires f.pc.Replanning? && RungOf(mem, f.node) == 2
    ensures EndsAs(mem, f, Replans(f.world))
  {
    CompleteStep(mem, f);
    StoredRung(mem, f.node, ASK, f.attempts);
  }

  lemma EscalateEnds(mem: Memory, f: Fire)
    requires f.pc.Escalating? && RungOf(mem, f.node) == 1
    ensures EndsAs(mem, f, FromEscalate(mem.Fired(GLOBAL_KEY), f.world))
  {
    CompleteStep(mem, f);
    SlotApart(mem, f.node);
    var (m, g) := Micro(mem, f);
    CompleteStep(m, g);
    if mem.Fired(GLOBAL_KEY) {
      StoredRung(m, f.node, REPLAN, f.attempts);
      var (m', g') := Micro(m, g);
      ReplanEnds(m', g');
    } else {
      StoredRung(m, f.node, REPLAN, f.attempts);
    }
  }

  lemma RetryEnds(mem: Memory, f: Fire, n: nat, c: Call)
    requires f.pc.Retrying? && f.attempts == n && f.node == c.node && f.attrs == c.attrs && f.world == c.world
    ensures EndsAs(mem, f, FromRetry(n, mem.Fired(GLOBAL_KEY), c))
  {
    CompleteStep(mem, f);
    var (m, g) := Micro(mem, f);
    if g.pc.Done? {
      StoredRung(mem, f.node, RETRY, n + 1);
    } else {
      StoredRung(mem, f.node, ESCALATE, n + 1);
      EscalateEnds(m, g);
    }
  }

  lemma FireEnds(mem: Memory, c: Call, s: Standing)
    requires Keeps(mem, c.node, s)
    ensures EndsAs(mem, Begin(c.node, c.attrs, c.world), Does(s, mem.Fired(GLOBAL_KEY), c))
  {
    var f := Begin(c.node, c.attrs, c.world);
    CompleteStep(mem, f);
    var (m, g) := Micro(mem, f);
    match s {
      case Retries(n) => RetryEnds(m, g, n, c);
      case ToEscalate => EscalateEnds(m, g);
      case ToReplan => ReplanEnds(m, g);
      case ToAsk => AskEnds(m, g);
      case Over =>
    }
  }

  lemma FireDoes(mem: Memory, c: Call, s: Standing)
    requires Keeps(mem, c.node, s)
    ensures var d, g := Does(s, mem.Fired(GLOBAL_KEY), c), FireOnce(mem, c).1;
      g.pc.effect == d.effect && g.events == d.events
  {
    FireEnds(mem, c, s);
    var d := Does(s, mem.Fired(GLOBAL_KEY), c);
    assert [] + d.events == d.events;
    PanicsSilently(s, mem.Fired(GLOBAL_KEY), c);
  }

  lemma PanicsSilently(s: Standing, spent: bool, c: Call)
    ensures Does(s, spent, c).effect.Panicked? ==> Does(s, spent, c).events == []
  {
  }

  lemma {:induction false} StandingKept(calls: seq<Call>, node: string)
    ensures Keeps(MemoryAfter(calls), node, Stands(calls, node))
    ensures MemoryAfter(calls).Fired(GLOBAL_KEY) == SlotSpent(calls)
  {
    if |calls| > 0 {
      var g, c := calls[..|calls| - 1], calls[|calls| - 1];
      StandingKept(g, node);
      StandingKept(g, c.node);
      AlwaysWellStored(g, c.node);
      FireLowers(MemoryAfter(g), Begin(c.node, c.attrs, c.world), node);
      FireEnds(MemoryAfter(g), c, Stands(g, c.node));
    }
  }

  /** After any run of fires of any nodes, the next fire does exactly what its node's
      latest effect, the run's one escalation and its own world determine. */
  lemma NextFire(calls: seq<Call>, c: Call)
    ensures var d := Does(Stands(calls, c.node), SlotSpent(calls), c);
      LastEffect(calls + [c]) == d.effect && LastEvents(calls + [c]) == d.events
  {
    var longer := calls + [c];
    assert longer[..|longer| - 1] == calls && longer[|longer| - 1] == c;
    StandingKept(calls, c.node);
    FireDoes(MemoryAfter(calls), c, Stands(calls, c.node));
  }

  // ---- rung by rung, with any other nodes' fires in between ----

  predicate NoneOf(calls: seq<Call>, node: string) {
    forall k :: 0 <= k < |calls| ==> calls[k].node != node
  }

  lemma {:induction false} LastOwnSkips(g: seq<Call>, between: seq<Call>, node: string)
    requires NoneOf(between, node)
    ensures LastOwn(g + between, node) == LastOwn(g, node)
    decreases |between|
  {
    if |between| == 0 {
      assert g + between == g;
    } else {
      var n := |between| - 1;
      LastOwnSkips(g, between[..n], node);
      assert (g + between)[..|g + between| - 1] == g + between[..n];
    }
  }

  /** The fire before `d` of the same node came out as `e`; what other nodes did in
      between matters only through the slot. */
  lemma FireAfter(g: seq<Call>, c: Call, between: seq<Call>, d: Call)
    requires c.node == d.node && NoneOf(between, d.node)
    ensures var run := g + [c] + between;
      LastEffect(run + [d]) == Does(StandingAfter(LastEffect(g + [c])), SlotSpent(run), d).effect
  {
    LastOwnSkips(g + [c], between, d.node);
    NextFire(g + [c] + between, d);
  }

  lemma {:induction false} SlotSpentIff(calls: seq<Call>)
    ensures SlotSpent(calls) <==> exists k :: 0 < k <= |calls| && Spends(LastEffect(calls[..k]))
  {
    if |calls| > 0 {
      var g := calls[..|calls| - 1];
      SlotSpentIff(g);
      assert calls[..|calls|] == calls;
      forall k | 0 < k <= |g|
        ensures g[..k] == calls[..k]
      {
      }
      if Spends(LastEffect(calls)) {
        assert Spends(LastEffect(calls[..|calls|]));
      } else if SlotSpent(g) {
        var k :| 0 < k <= |g| && Spends(LastEffect(g[..k]));
        assert Spends(LastEffect(calls[..k]));
      }
    }
  }

  /** The first fire of a node asks for backtrack 1. */
  lemma FirstFire(calls: seq<Call>, c: Call)
    requires NoneOf(calls, c.node)
    ensures LastEffect(calls + [c]) == Backtrack(c.attrs.upstream, 1)
  {
    assert [] + calls == calls;
    LastOwnSkips([], calls, c.node);
    NextFire(calls, c);
  }

  /** After backtrack `n`: the next one while it does not exceed `max_retries`, which is
      1 if not set; then escalation, unless any node has used the run's one up. */
  lemma AfterBacktrack(g: seq<Call>, c: Call, between: seq<Call>, d: Call)
    requires c.node == d.node && NoneOf(between, d.node) && LastEffect(g + [c]).Backtrack?
    ensures var n, e := LastEffect(g + [c]).attempt, LastEffect(g + [c] + between + [d]);
      var max := if d.attrs.maxRetriesAttr <= 0 then 1 else d.attrs.maxRetriesAttr;
      if n < max then e == Backtrack(d.attrs.upstream, n + 1)
      else if SlotSpent(g + [c] + between) then e == Replans(d.world).effect
      else e == match d.world.escalation
                case Text(t) => Escalated(t)
                case Refused => Failed(ESCALATE)
                case Panics => Panicked(ESCALATE)
  {
    BacktracksPositive(g + [c]);
    FireAfter(g, c, between, d);
  }

  /** After an escalation that came back, and after a replan that did not, the plan. */
  lemma AfterEscalation(g: seq<Call>, c: Call, between: seq<Call>, d: Call)
    requires c.node == d.node && NoneOf(between, d.node)
    requires var e := LastEffect(g + [c]); e.Escalated? || e == Failed(REPLAN) || e == Panicked(REPLAN)
    ensures LastEffect(g + [c] + between + [d]) == match d.world.replan
      case Text(t) => Replanned(t)
      case Refused => Failed(REPLAN)
      case Panics => Panicked(REPLAN)
  {
    FireAfter(g, c, between, d);
  }

  /** An escalation that failed is tried again while the slot is free. */
  lemma AfterFailedEscalation(g: seq<Call>, c: Call, between: seq<Call>, d: Call)
    requires c.node == d.node && NoneOf(between, d.node) && LastEffect(g + [c]) == Failed(ESCALATE)
    ensures LastEffect(g + [c] + between + [d]) ==
      if SlotSpent(g + [c] + between) then Replans(d.world).effect
      else match d.world.escalation
           case Text(t) => Escalated(t)
           case Refused => Failed(ESCALATE)
           case Panics => Panicked(ESCALATE)
  {
    FireAfter(g, c, between, d);
  }

  /** After a plan, and after a question left open, the user is asked. */
  lemma AfterReplan(g: seq<Call>, c: Call, between: seq<Call>, d: Call)
    requires c.node == d.node && NoneOf(between, d.node)
    requires var e := LastEffect(g + [c]); e.Replanned? || e.Paused? || e == Failed(ASK)
    ensures LastEffect(g + [c] + between + [d]) ==
      if d.world.withhold then GaveUp(d.world.draft)
      else if d.world.answer.Some? then Answered(d.world.answer.value)
      else if d.world.pendingOk then Paused
      else Failed(ASK)
  {
    FireAfter(g, c, between, d);
  }

  /** And once answered, or given up, every further fire fails. */
  lemma AfterTheEnd(g: seq<Call>, c: Call, between: seq<Call>, d: Call)
    requires c.node == d.node && NoneOf(between, d.node)
    requires var e := LastEffect(g + [c]); e.Answered? || e.GaveUp? || e == Failed(EXHAUSTED)
    ensures LastEffect(g + [c] + between + [d]) == Failed(EXHAUSTED)
  {
    FireAfter(g, c, between, d);
  }

  /** Backtracks of a run are numbered from 1. */
  lemma BacktracksPositive(calls: seq<Call>)
    requires |calls| > 0 && LastEffect(calls).Backtrack?
    ensures LastEffect(calls).attempt >= 1
  {
    var g, c := calls[..|calls| - 1], calls[|calls| - 1];
    assert g + [c] == calls;
    NextFire(g, c);
  }
}
