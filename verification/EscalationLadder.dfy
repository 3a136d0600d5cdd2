/** The escalation ladder: retry, escalate, replan, ask
    (core/agentgraph/exec_escalation_ladder.go). */
module EscalationLadder {
  import opened Wrappers
  import opened BranchValues
  import opened RunState

  const RETRY := 0
  const ESCALATE := 1
  const REPLAN := 2
  const ASK := 3
  const EXHAUSTED := 4

  const GLOBAL_KEY := "__ladder_escalated_global__"

  function StateKey(node: string): string {
    "__ladder__" + node
  }

  datatype Attrs = Attrs(targetModel: string, upstream: string, maxRetriesAttr: int) {
    function MaxRetries(): nat {
      if maxRetriesAttr <= 0 then 1 else maxRetriesAttr
    }
  }

  /** What a model call comes to. */
  datatype Reply = Text(text: string) | Refused | Panics

  /** What the outside world does during one fire: the two model calls, the ask
      policy, a possible recorded answer, and whether parking the question works. */
  datatype World = World(
    draft: string,
    escalation: Reply,
    replan: Reply,
    withhold: bool,
    answer: Option<string>,
    pendingOk: bool)

  datatype Event =
    | RetryRung(attempt: int, max: nat)
    | EscalateRung(alreadyUsed: bool)
    | EscalateTriggered
    | ReplanRung
    | PlanCreated
    | AskRung(skipped: bool)
    | AskAnswered
    | AskPending

  datatype Effect =
    | Backtrack(target: string, attempt: int)
    | Escalated(text: string)
    | Replanned(text: string)
    | GaveUp(text: string)
    | Answered(text: string)
    | Paused
    | Failed(rung: int)
    | Panicked(rung: int)
  {
    /** The fire neither errored nor paused. */
    predicate Acts() {
      !Paused? && !Failed? && !Panicked?
    }
  }

  function Stored(rung: int, attempts: int): PortValues {
    map["rung" := VInt(rung), "retry_attempts" := VInt(attempts)]
  }

  function RungOf(mem: Memory, node: string): int {
    IntPort(mem.Outputs(StateKey(node)), "rung")
  }

  function AttemptsOf(mem: Memory, node: string): int {
    IntPort(mem.Outputs(StateKey(node)), "retry_attempts")
  }

  // ---- one fire, as a sequence of critical sections ----

  datatype Pc = Start | Retrying | Escalating | Calling | Spent | Replanning | Asking | Done(effect: Effect)

  /** A fire in progress: its node, its surroundings and its local variables. */
  datatype Fire = Fire(node: string, attrs: Attrs, world: World, pc: Pc, rung: int, attempts: int, events: seq<Event>)

  function Begin(node: string, attrs: Attrs, world: World): Fire {
    Fire(node, attrs, world, Start, 0, 0, [])
  }

  function PcOfRung(rung: int): Pc {
    if rung == RETRY then Retrying
    else if rung == ESCALATE then Escalating
    else if rung == REPLAN then Replanning
    else if rung == ASK then Asking
    else Done(Failed(rung))
  }

  /** The kernel turns a panic into an error and drops the fire's events; the fire's own
      clean-up does not run. */
  function Recovered(f: Fire, rung: int): Fire {
    f.(pc := Done(Panicked(rung)), events := [])
  }

  /** One critical section of `Execute`; slow model calls happen between them. */
  function Micro(mem: Memory, f: Fire): (Memory, Fire) {
    var key := StateKey(f.node);
    match f.pc
    case Start =>
      var rung := RungOf(mem, f.node);
      (mem, f.(pc := PcOfRung(rung), rung := rung, attempts := AttemptsOf(mem, f.node)))
    case Retrying =>
      var n := f.attempts + 1;
      var g := f.(attempts := n, events := f.events + [RetryRung(n, f.attrs.MaxRetries())]);
      if n <= f.attrs.MaxRetries() then
        (mem.With(key, Stored(RETRY, n)), g.(pc := Done(Backtrack(f.attrs.upstream, n))))
      else
        (mem.With(key, Stored(ESCALATE, n)), g.(pc := Escalating, rung := ESCALATE))
    case Escalating =>
      var claimed := !mem.Fired(GLOBAL_KEY);
      (mem.Claimed(GLOBAL_KEY),
       f.(pc := if claimed then Calling else Spent, events := f.events + [EscalateRung(!claimed)]))
    case Calling =>
      (match f.world.escalation
       case Text(text) =>
         (mem.With(key, Stored(REPLAN, f.attempts)),
          f.(pc := Done(Escalated(text)), events := f.events + [EscalateTriggered]))
       case Refused => (mem.Released(GLOBAL_KEY), f.(pc := Done(Failed(ESCALATE))))
       case Panics => (mem, Recovered(f, ESCALATE)))
    case Spent =>
      (mem.With(key, Stored(REPLAN, f.attempts)), f.(pc := Replanning, rung := REPLAN))
    case Replanning =>
      (match f.world.replan
       case Text(text) =>
         (mem.With(key, Stored(ASK, f.attempts)),
          f.(pc := Done(Replanned(text)), events := f.events + [ReplanRung, PlanCreated]))
       case Refused => (mem, f.(pc := Done(Failed(REPLAN))))
       case Panics => (mem, Recovered(f, REPLAN)))
    case Asking =>
      if f.world.withhold then
        (mem.With(key, Stored(EXHAUSTED, f.attempts)),
         f.(pc := Done(GaveUp(f.world.draft)), events := f.events + [AskRung(true)]))
      else if f.world.answer.Some? then
        (mem.With(key, Stored(EXHAUSTED, f.attempts)),
         f.(pc := Done(Answered(f.world.answer.value)), events := f.events + [AskAnswered, AskRung(false)]))
      else if !f.world.pendingOk then (mem, f.(pc := Done(Failed(ASK))))
      else (mem, f.(pc := Done(Paused), events := f.events + [AskPending, AskRung(false)]))
    case Done(_) => (mem, f)
  }

  function Rank(pc: Pc): nat {
    match pc
    case Start => 6
    case Retrying => 5
    case Escalating => 4
    case Calling => 3
    case Spent => 3
    case Replanning => 2
    case Asking => 1
    case Done(_) => 0
  }

  /** A fire run to its end without interference. */
  function Complete(mem: Memory, f: Fire): (r: (Memory, Fire))
    ensures r.1.pc.Done?
    decreases Rank(f.pc)
  {
    if f.pc.Done? then (mem, f)
    else
      var n := Micro(mem, f);
      Complete(n.0, n.1)
  }

  lemma CompleteStep(mem: Memory, f: Fire)
    ensures Complete(mem, f) == Complete(Micro(mem, f).0, Micro(mem, f).1)
  {
  }

  /** A fire's locals at the top of one rung of `Execute`. */
  function At(node: string, a: Attrs, w: World, rung: int, attempts: int, events: seq<Event>): Fire {
    Fire(node, a, w, PcOfRung(rung), rung, attempts, events)
  }

  /** `Execute` as written, with the required attrs present; a panic is recovered by the
      kernel around it. */
  method Execute(state: RunState, node: string, a: Attrs, w: World) returns (effect: Effect, events: seq<Event>)
    modifies state
    ensures var r := Complete(old(state.Value()), Begin(node, a, w));
      state.Value() == r.0 && Done(effect) == r.1.pc && events == r.1.events
  {
    events := [];
    CompleteStep(state.Value(), Begin(node, a, w));
    var st := state.Outputs(StateKey(node));
    var rung, retryAttempts := IntPort(st, "rung"), IntPort(st, "retry_attempts");
    var done: Option<Effect> := None;
    if rung == RETRY {
      rung, retryAttempts, done, events := RetryTurn(state, node, a, w, retryAttempts);
    }
    if done.None? && rung == ESCALATE {
      rung, done, events := EscalateTurn(state, node, a, w, retryAttempts, events);
    }
    if done.None? && rung == REPLAN {
      done, events := ReplanTurn(state, node, a, w, retryAttempts, events);
    }
    if done.None? && rung == ASK {
      done, events := AskTurn(state, node, a, w, retryAttempts, events);
    }
    effect := if done.Some? then done.value else Failed(rung);
  }

  method RetryTurn(state: RunState, node: string, a: Attrs, w: World, attempts: int)
    returns (rung: int, retryAttempts: int, done: Option<Effect>, events: seq<Event>)
    modifies state
    ensures var r := Complete(old(state.Value()), At(node, a, w, RETRY, attempts, []));
      if done.Some? then state.Value() == r.0 && Done(done.value) == r.1.pc && events == r.1.events
      else rung == ESCALATE && Complete(state.Value(), At(node, a, w, rung, retryAttempts, events)) == r
  {
    CompleteStep(state.Value(), At(node, a, w, RETRY, attempts, []));
    var maxRetries := a.maxRetriesAttr;
    if maxRetries <= 0 {
      maxRetries := 1;
    }
    retryAttempts := attempts + 1;
    events := [RetryRung(retryAttempts, maxRetries)];
    assert [] + events == events;
    if retryAttempts <= maxRetries {
      state.SetOutputs(StateKey(node), Stored(RETRY, retryAttempts));
      return RETRY, retryAttempts, Some(Backtrack(a.upstream, retryAttempts)), events;
    }
    rung, done := ESCALATE, None;
    state.SetOutputs(StateKey(node), Stored(rung, retryAttempts));
  }

  method EscalateTurn(state: RunState, node: string, a: Attrs, w: World, attempts: int, before: seq<Event>)
    returns (rung: int, done: Option<Effect>, events: seq<Event>)
    modifies state
    ensures var r := Complete(old(state.Value()), At(node, a, w, ESCALATE, attempts, before));
      if done.Some? then state.Value() == r.0 && Done(done.value) == r.1.pc && events == r.1.events
      else rung == REPLAN && Complete(state.Value(), At(node, a, w, rung, attempts, events)) == r
  {
    CompleteStep(state.Value(), At(node, a, w, ESCALATE, attempts, before));
    rung := ESCALATE;
    var claimed := state.CompareAndSetOnce(GLOBAL_KEY);
    events := before + [EscalateRung(!claimed)];
    CompleteStep(state.Value(), Fire(node, a, w, if claimed then Calling else Spent, ESCALATE, attempts, events));
    if claimed {
      match w.escalation {
        case Text(text) =>
          state.SetOutputs(StateKey(node), Stored(REPLAN, attempts));
          return rung, Some(Escalated(text)), events + [EscalateTriggered];
        case Refused =>
          state.ReleaseOnce(GLOBAL_KEY);
          return rung, Some(Failed(ESCALATE)), events;
        case Panics =>
          return rung, Some(Panicked(ESCALATE)), [];
      }
    }
    rung, done := REPLAN, None;
    state.SetOutputs(StateKey(node), Stored(rung, attempts));
  }

  method ReplanTurn(state: RunState, node: string, a: Attrs, w: World, attempts: int, before: seq<Event>)
    returns (done: Option<Effect>, events: seq<Event>)
    modifies state
    ensures var r := Complete(old(state.Value()), At(node, a, w, REPLAN, attempts, before));
      done.Some? && state.Value() == r.0 && Done(done.value) == r.1.pc && events == r.1.events
  {
    CompleteStep(state.Value(), At(node, a, w, REPLAN, attempts, before));
    match w.replan {
      case Text(text) =>
        state.SetOutputs(StateKey(node), Stored(ASK, attempts));
        return Some(Replanned(text)), before + [ReplanRung, PlanCreated];
      case Refused =>
        return Some(Failed(REPLAN)), before;
      case Panics =>
        return Some(Panicked(REPLAN)), [];
    }
  }

  method AskTurn(state: RunState, node: string, a: Attrs, w: World, attempts: int, before: seq<Event>)
    returns (done: Option<Effect>, events: seq<Event>)
    modifies state
    ensures var r := Complete(old(state.Value()), At(node, a, w, ASK, attempts, before));
      done.Some? && state.Value() == r.0 && Done(done.value) == r.1.pc && events == r.1.events
  {
    CompleteStep(state.Value(), At(node, a, w, ASK, attempts, before));
    if w.withhold {
      state.SetOutputs(StateKey(node), Stored(EXHAUSTED, attempts));
      return Some(GaveUp(w.draft)), before + [AskRung(true)];
    }
    if w.answer.Some? {
      state.SetOutputs(StateKey(node), Stored(EXHAUSTED, attempts));
      return Some(Answered(w.answer.value)), before + [AskAnswered, AskRung(false)];
    }
    if !w.pendingOk {
      return Some(Failed(ASK)), before;
    }
    return Some(Paused), before + [AskPending, AskRung(false)];
  }

  // ---- the rungs of one node over a run of fires ----

  /** How many more acting fires a node's stored state allows. */
  function Potential(mem: Memory, node: string, max: nat): nat {
    var rung, n := RungOf(mem, node), AttemptsOf(mem, node);
    if rung == RETRY then 3 + (if n < 0 then max else if n < max then max - n else 0)
    else if rung == ESCALATE then 3
    else if rung == REPLAN then 2
    else if rung == ASK then 1
    else 0
  }

  /** How many more backtracks it allows. */
  function RetriesLeft(mem: Memory, node: string, max: nat): nat {
    var n := AttemptsOf(mem, node);
    if RungOf(mem, node) != RETRY || n >= max then 0 else if n < 0 then max else max - n
  }

  /** State keys of different nodes differ, and none is the shared slot's key. */
  lemma KeysApart(a: string, b: string)
    ensures StateKey(a) == StateKey(b) ==> a == b
    ensures StateKey(a) != GLOBAL_KEY
  {
    if StateKey(a) == StateKey(b) {
      assert StateKey(a)[10..] == a && StateKey(b)[10..] == b;
    }
    assert StateKey(a)[9] == '_' && GLOBAL_KEY[9] == 'e';
  }

  /** Stored states only ever come from `Stored`. */
  ghost predicate WellStored(mem: Memory, node: string) {
    0 <= RungOf(mem, node) <= EXHAUSTED && AttemptsOf(mem, node) >= 0
  }

  /** One critical section of a node's fire moves that node's rung only upwards and
      leaves every other node's rung state alone. */
  lemma MicroRungs(mem: Memory, f: Fire, other: string)
    requires WellStored(mem, f.node) && LocalsAgree(mem, f)
    ensures var n := Micro(mem, f);
      && WellStored(n.0, f.node) && LocalsAgree(n.0, n.1)
      && RungOf(mem, f.node) <= RungOf(n.0, f.node)
      && (other != f.node ==> n.0.Outputs(StateKey(other)) == mem.Outputs(StateKey(other)))
  {
    KeysApart(f.node, other);
    KeysApart(other, f.node);
  }

  /** The fire's locals match the memory it will overwrite. */
  ghost predicate LocalsAgree(mem: Memory, f: Fire) {
    && (!f.pc.Start? && !f.pc.Done? ==> f.rung == RungOf(mem, f.node) && f.attempts == AttemptsOf(mem, f.node))
    && (f.pc.Retrying? ==> f.rung == RETRY)
    && (f.pc.Escalating? || f.pc.Calling? || f.pc.Spent? ==> f.rung == ESCALATE)
    && (f.pc.Replanning? ==> f.rung == REPLAN)
    && (f.pc.Asking? ==> f.rung == ASK)
  }

  /** One critical section lowers what its node may still do by what it does. */
  lemma MicroLowers(mem: Memory, f: Fire, max: nat)
    requires WellStored(mem, f.node) && LocalsAgree(mem, f) && !f.pc.Done? && f.attrs.MaxRetries() == max
    ensures var n := Micro(mem, f); var ended := n.1.pc.Done?;
      && Potential(n.0, f.node, max) + Unit(ended && n.1.pc.effect.Acts()) <= Potential(mem, f.node, max)
      && RetriesLeft(n.0, f.node, max) + Unit(ended && n.1.pc.effect.Backtrack?) <= RetriesLeft(mem, f.node, max)
  {
    KeysApart(f.node, f.node);
  }

  /** A whole fire: rungs only rise, an acting fire lowers the potential, a
      backtrack lowers the retries left, nothing raises either. */
  lemma {:induction false} FireLowers(mem: Memory, f: Fire, other: string)
    requires WellStored(mem, f.node) && LocalsAgree(mem, f) && !f.pc.Done?
    ensures var r := Complete(mem, f); var max := f.attrs.MaxRetries();
      && WellStored(r.0, f.node)
      && RungOf(mem, f.node) <= RungOf(r.0, f.node)
      && Potential(r.0, f.node, max) + Unit(r.1.pc.effect.Acts()) <= Potential(mem, f.node, max)
      && RetriesLeft(r.0, f.node, max) + Unit(r.1.pc.effect.Backtrack?) <= RetriesLeft(mem, f.node, max)
      && (other != f.node ==> r.0.Outputs(StateKey(other)) == mem.Outputs(StateKey(other)))
    decreases Rank(f.pc)
  {
    var n := Micro(mem, f);
    MicroRungs(mem, f, other);
    MicroLowers(mem, f, f.attrs.MaxRetries());
    CompleteStep(mem, f);
    if !n.1.pc.Done? {
      FireLowers(n.0, n.1, other);
    }
  }

  datatype Call = Call(node: string, attrs: Attrs, world: World)

  function FireOnce(mem: Memory, c: Call): (Memory, Fire) {
    Complete(mem, Begin(c.node, c.attrs, c.world))
  }

  const EMPTY := Memory(map[], {})

  function MemoryAfter(calls: seq<Call>): Memory {
    if |calls| == 0 then EMPTY
    else FireOnce(MemoryAfter(calls[..|calls| - 1]), calls[|calls| - 1]).0
  }

  function LastEffect(calls: seq<Call>): Effect
    requires |calls| > 0
  {
    FireOnce(MemoryAfter(calls[..|calls| - 1]), calls[|calls| - 1]).1.pc.effect
  }

  /** Fires of `node` that neither errored nor paused. */
  function ActingFires(calls: seq<Call>, node: string): nat {
    if |calls| == 0 then 0
    else
      ActingFires(calls[..|calls| - 1], node)
      + Unit(calls[|calls| - 1].node == node && LastEffect(calls).Acts())
  }

  /** Backtracks requested by `node`. */
  function Backtracks(calls: seq<Call>, node: string): nat {
    if |calls| == 0 then 0
    else
      Backtracks(calls[..|calls| - 1], node)
      + Unit(calls[|calls| - 1].node == node && LastEffect(calls).Backtrack?)
  }

  /** Over any run of fires of any ladder nodes, a node's rung never falls, it asks
      for at most `max_retries` backtracks, and at most `max_retries + 3` of its
      fires do anything but fail or pause. */
  lemma {:induction false} LadderBounded(calls: seq<Call>, node: string, max: nat)
    requires forall c :: c in calls && c.node == node ==> c.attrs.MaxRetries() == max
    ensures ActingFires(calls, node) + Potential(MemoryAfter(calls), node, max) <= max + 3
    ensures Backtracks(calls, node) + RetriesLeft(MemoryAfter(calls), node, max) <= max
    ensures ActingFires(calls, node) <= max + 3 && Backtracks(calls, node) <= max
    ensures |calls| > 0 ==> RungOf(MemoryAfter(calls[..|calls| - 1]), node) <= RungOf(MemoryAfter(calls), node)
  {
    if |calls| > 0 {
      var g, c := calls[..|calls| - 1], calls[|calls| - 1];
      LadderBounded(g, node, max);
      AlwaysWellStored(g, node);
      AlwaysWellStored(g, c.node);
      FireLowers(MemoryAfter(g), Begin(c.node, c.attrs, c.world), node);
    }
  }

  lemma {:induction false} AlwaysWellStored(calls: seq<Call>, node: string)
    ensures WellStored(MemoryAfter(calls), node)
  {
    if |calls| > 0 {
      var g, c := calls[..|calls| - 1], calls[|calls| - 1];
      AlwaysWellStored(g, node);
      AlwaysWellStored(g, c.node);
      FireLowers(MemoryAfter(g), Begin(c.node, c.attrs, c.world), node);
    }
  }
}
