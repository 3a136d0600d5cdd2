/** Ladder nodes firing concurrently over one run state
    (core/agentgraph/exec_escalation_ladder.go, core/agentgraph/executor.go): every
    interleaving of the critical sections, with model calls taking any time. */
module LadderProtocol {
  import opened Wrappers
  import opened BranchValues
  import opened RunState
  import opened EscalationLadder

  /** Shared memory and every fire ever begun, by fire id. */
  datatype System = System(mem: Memory, fires: map<nat, Fire>)

  datatype Action = Spawn(id: nat, call: Call) | Turn(id: nat)

  const BOOT := System(EMPTY, map[])

  function Next(s: System, a: Action): System {
    match a
    case Spawn(id, c) =>
      if id in s.fires then s else s.(fires := s.fires[id := Begin(c.node, c.attrs, c.world)])
    case Turn(id) =>
      if id !in s.fires then s
      else
        var (mem, f) := Micro(s.mem, s.fires[id]);
        System(mem, s.fires[id := f])
  }

  function After(run: seq<Action>): System {
    if |run| == 0 then BOOT else Next(After(run[..|run| - 1]), run[|run| - 1])
  }

  /** The fire is inside its escalation call. */
  predicate InFlight(s: System, id: nat) {
    id in s.fires && s.fires[id].pc.Calling?
  }

  predicate Succeeded(s: System, id: nat) {
    id in s.fires && s.fires[id].pc.Done? && s.fires[id].pc.effect.Escalated?
  }

  /** Its escalation call panicked, so nothing released its claim. */
  predicate Stranded(s: System, id: nat) {
    id in s.fires && s.fires[id].pc == Done(Panicked(ESCALATE))
  }

  predicate Claimant(s: System, id: nat) {
    InFlight(s, id) || Succeeded(s, id) || Stranded(s, id)
  }

  /** The slot is taken exactly when a call is in flight, has succeeded or has panicked,
      and that is true of at most one fire. */
  ghost predicate SlotOk(s: System) {
    && (s.mem.Fired(GLOBAL_KEY) <==> exists id :: Claimant(s, id))
    && (forall a, b :: Claimant(s, a) && Claimant(s, b) ==> a == b)
  }

  /** One turn changes at most its own fire's standing, and the slot with it. */
  lemma TurnEffect(s: System, id: nat)
    requires id in s.fires
    ensures var s' := Next(s, Turn(id));
      && (forall b :: b != id ==> (Claimant(s', b) <==> Claimant(s, b)))
      && (Claimant(s, id) && !Claimant(s', id) ==> !s'.mem.Fired(GLOBAL_KEY))
      && (!Claimant(s, id) && Claimant(s', id) ==> !s.mem.Fired(GLOBAL_KEY) && s'.mem.Fired(GLOBAL_KEY))
      && ((Claimant(s, id) <==> Claimant(s', id)) ==> (s'.mem.Fired(GLOBAL_KEY) <==> s.mem.Fired(GLOBAL_KEY)))
  {
    KeysApart(s.fires[id].node, s.fires[id].node);
  }

  lemma NextSlot(s: System, a: Action)
    requires SlotOk(s)
    ensures SlotOk(Next(s, a))
  {
    var s' := Next(s, a);
    match a {
      case Spawn(id, c) =>
        assert forall b :: Claimant(s', b) <==> Claimant(s, b);
      case Turn(id) =>
        if id in s.fires {
          TurnEffect(s, id);
          if s.mem.Fired(GLOBAL_KEY) {
            var h :| Claimant(s, h);
            assert Claimant(s', h) || h == id;
          }
        }
    }
  }

  /** In every interleaving at most one escalation call is in flight, has succeeded or
      has panicked, and the slot is free whenever none is. */
  lemma {:induction false} OneEscalation(run: seq<Action>)
    ensures SlotOk(After(run))
  {
    if |run| > 0 {
      OneEscalation(run[..|run| - 1]);
      NextSlot(After(run[..|run| - 1]), run[|run| - 1]);
    }
  }

  /** A call that comes back with an error frees the slot it held and no other fire's: when a fire
      releases, it was the slot's only claimant, and afterwards there is none. */
  lemma FailureFrees(run: seq<Action>, id: nat)
    requires var s := After(run); id in s.fires && s.fires[id].pc.Calling? && s.fires[id].world.escalation.Refused?
    ensures var s, s' := After(run), After(run + [Turn(id)]);
      && s.mem.Fired(GLOBAL_KEY) && (forall b :: Claimant(s, b) ==> b == id)
      && !s'.mem.Fired(GLOBAL_KEY) && (forall b :: !Claimant(s', b))
  {
    OneEscalation(run);
    OneEscalation(run + [Turn(id)]);
    assert (run + [Turn(id)])[..|run|] == run;
    TurnEffect(After(run), id);
    assert Claimant(After(run), id);
  }

  lemma DoneStays(s: System, a: Action, id: nat)
    requires id in s.fires && s.fires[id].pc.Done?
    ensures id in Next(s, a).fires && Next(s, a).fires[id] == s.fires[id]
  {
  }

  /** Once a call has succeeded, or panicked, no later fire ever starts one. */
  lemma {:induction false} SuccessIsFinal(run: seq<Action>, more: seq<Action>, id: nat)
    requires var s := After(run); Claimant(s, id) && s.fires[id].pc.Done?
    ensures Claimant(After(run + more), id) && After(run + more).fires[id] == After(run).fires[id]
    ensures forall b :: Claimant(After(run + more), b) ==> b == id
    decreases |more|
  {
    if |more| == 0 {
      assert run + more == run;
    } else {
      var m, a := more[..|more| - 1], more[|more| - 1];
      assert (run + more)[..|run + more| - 1] == run + m;
      SuccessIsFinal(run, m, id);
      DoneStays(After(run + m), a, id);
      assert After(run + more) == Next(After(run + m), a);
    }
    assert Claimant(After(run + more), id);
    OneEscalation(run + more);
  }

  /** The documentation wants a failed attempt never to strand the slot: it is to be free
      whenever no call is in flight and none has succeeded. */
  ghost predicate NotStranded(s: System) {
    s.mem.Fired(GLOBAL_KEY) ==> exists id :: InFlight(s, id) || Succeeded(s, id)
  }

  /** At any point of any interleaving that holds exactly when no escalation call has
      panicked so far. */
  lemma StrandedIff(run: seq<Action>)
    ensures NotStranded(After(run)) <==> forall id :: !Stranded(After(run), id)
  {
    var s := After(run);
    OneEscalation(run);
    if id :| Stranded(s, id) {
      assert Claimant(s, id);
      assert forall b :: Claimant(s, b) ==> b == id;
      assert forall b :: InFlight(s, b) || Succeeded(s, b) ==> Claimant(s, b);
    } else if s.mem.Fired(GLOBAL_KEY) {
      var id :| Claimant(s, id);
      assert !Stranded(s, id);
      assert InFlight(s, id) || Succeeded(s, id);
    }
  }

  /** And then it is stranded for the rest of the run: no call ever starts again. */
  lemma StrandedForever(run: seq<Action>, more: seq<Action>, id: nat)
    requires Stranded(After(run), id)
    ensures var s := After(run + more);
      Stranded(s, id) && s.mem.Fired(GLOBAL_KEY) && forall b :: !InFlight(s, b) && !Succeeded(s, b)
  {
    SuccessIsFinal(run, more, id);
    OneEscalation(run + more);
    var s := After(run + more);
    forall b
      ensures !InFlight(s, b) && !Succeeded(s, b)
    {
      if Claimant(s, b) {
        assert b == id;
      }
    }
  }

  lemma Played(run: seq<Action>, a: Action, s: System) returns (longer: seq<Action>)
    requires After(run) == s
    ensures longer == run + [a] && After(longer) == Next(s, a)
  {
    longer := run + [a];
    assert longer[..|run|] == run;
  }

  lemma TurnTaken(run: seq<Action>, id: nat, mem: Memory, f: Fire) returns (longer: seq<Action>)
    requires After(run).mem == mem && id in After(run).fires && After(run).fires[id] == f
    ensures After(longer).mem == Micro(mem, f).0
    ensures id in After(longer).fires && After(longer).fires[id] == Micro(mem, f).1
    ensures After(longer).fires.Keys == After(run).fires.Keys
  {
    longer := Played(run, Turn(id), After(run));
    assert After(longer).fires.Keys == After(run).fires.Keys + {id} == After(run).fires.Keys;
  }

  /** It happens: a node that has used up its retry escalates, and the call panics. */
  lemma PanicStrandsSlot()
    ensures exists run :: !NotStranded(After(run))
  {
    var a := Attrs("m", "up", 1);
    var c := Call("n", a, World("", Panics, Refused, false, None, false));
    var key := StateKey("n");
    KeysApart("n", "n");
    var run := Played([], Spawn(0, c), BOOT);
    var f := Begin("n", a, c.world);
    run := TurnTaken(run, 0, EMPTY, f);
    run := TurnTaken(run, 0, EMPTY, Micro(EMPTY, f).1);
    var mem := EMPTY.With(key, Stored(RETRY, 1));
    assert After(run).mem == mem;
    run := Played(run, Spawn(1, c), After(run));
    run := Escalating(run, 1, mem, f);
    assert Stranded(After(run), 1);
    StrandedIff(run);
  }

  lemma Escalating(run: seq<Action>, id: nat, mem: Memory, f: Fire) returns (longer: seq<Action>)
    requires After(run).mem == mem && id in After(run).fires && After(run).fires[id] == f
    requires f.pc.Start? && f.attrs.MaxRetries() == 1 && f.world.escalation.Panics?
    requires RungOf(mem, f.node) == RETRY && AttemptsOf(mem, f.node) == 1 && !mem.Fired(GLOBAL_KEY)
    ensures Stranded(After(longer), id)
  {
    var key := StateKey(f.node);
    KeysApart(f.node, f.node);
    var f1 := f.(pc := Retrying, rung := RETRY, attempts := 1);
    longer := TurnTaken(run, id, mem, f);
    var n2 := Micro(mem, f1);
    longer := TurnTaken(longer, id, mem, f1);
    assert n2.0.Outputs(GLOBAL_KEY) == mem.Outputs(GLOBAL_KEY);
    var n3 := Micro(n2.0, n2.1);
    longer := TurnTaken(longer, id, n2.0, n2.1);
    assert n3.1.pc.Calling?;
    longer := TurnTaken(longer, id, n3.0, n3.1);
  }

  // ---- rungs, when a node is never fired twice at once ----

  predicate Live(s: System, id: nat) {
    id in s.fires && !s.fires[id].pc.Done?
  }

  /** The kernel fires a node only when no earlier fire of it is still running. */
  predicate Orderly(s: System, a: Action) {
    a.Spawn? ==> forall id :: id in s.fires && s.fires[id].node == a.call.node ==> s.fires[id].pc.Done?
  }

  ghost predicate OrderlyRun(run: seq<Action>) {
    forall k :: 0 <= k < |run| ==> Orderly(After(run[..k]), run[k])
  }

  lemma OrderlyPrefix(run: seq<Action>)
    requires |run| > 0 && OrderlyRun(run)
    ensures OrderlyRun(run[..|run| - 1]) && Orderly(After(run[..|run| - 1]), run[|run| - 1])
  {
    var g := run[..|run| - 1];
    assert forall k :: 0 <= k < |g| ==> g[..k] == run[..k] && g[k] == run[k];
  }

  ghost predicate RungsOk(s: System) {
    && (forall node :: WellStored(s.mem, node))
    && (forall id :: Live(s, id) ==> LocalsAgree(s.mem, s.fires[id]))
    && (forall a, b :: Live(s, a) && Live(s, b) && s.fires[a].node == s.fires[b].node ==> a == b)
  }

  lemma TurnRungs(s: System, id: nat)
    requires RungsOk(s) && id in s.fires
    ensures RungsOk(Next(s, Turn(id)))
    ensures forall node :: RungOf(s.mem, node) <= RungOf(Next(s, Turn(id)).mem, node)
  {
    var s' := Next(s, Turn(id));
    var f := s.fires[id];
    if Live(s, id) {
      forall node
        ensures RungOf(s.mem, node) <= RungOf(s'.mem, node) && WellStored(s'.mem, node)
        ensures node != f.node ==> s'.mem.Outputs(StateKey(node)) == s.mem.Outputs(StateKey(node))
      {
        MicroRungs(s.mem, f, node);
        assert WellStored(s.mem, node);
      }
      MicroRungs(s.mem, f, f.node);
    } else {
      assert s' == s;
    }
  }

  /** While no node is fired twice at once, no interleaving lowers any node's rung. */
  lemma {:induction false} RungsNeverFall(run: seq<Action>)
    requires OrderlyRun(run)
    ensures RungsOk(After(run))
    ensures |run| > 0 ==> forall node :: RungOf(After(run[..|run| - 1]).mem, node) <= RungOf(After(run).mem, node)
  {
    if |run| > 0 {
      OrderlyPrefix(run);
      RungsNeverFall(run[..|run| - 1]);
      StepRungs(After(run[..|run| - 1]), run[|run| - 1]);
    }
  }

  lemma StepRungs(s: System, a: Action)
    requires RungsOk(s) && Orderly(s, a)
    ensures RungsOk(Next(s, a))
    ensures forall node :: RungOf(s.mem, node) <= RungOf(Next(s, a).mem, node)
  {
    if a.Turn? && a.id in s.fires {
      TurnRungs(s, a.id);
    }
  }

  // ---- the bounds hold in every orderly interleaving ----

  /** The step ends a fire of `node`. */
  predicate Ends(s: System, a: Action, node: string) {
    && a.Turn? && Live(s, a.id) && s.fires[a.id].node == node
    && Micro(s.mem, s.fires[a.id]).1.pc.Done?
  }

  function EffectOf(s: System, a: Action, node: string): Effect
    requires Ends(s, a, node)
  {
    Micro(s.mem, s.fires[a.id]).1.pc.effect
  }

  /** Fires of `node` ended so far that neither erred nor paused. */
  function ActingEnded(run: seq<Action>, node: string): nat {
    if |run| == 0 then 0
    else
      var s, a := After(run[..|run| - 1]), run[|run| - 1];
      ActingEnded(run[..|run| - 1], node) + Unit(Ends(s, a, node) && EffectOf(s, a, node).Acts())
  }

  /** Backtracks requested by `node` so far. */
  function BacktracksEnded(run: seq<Action>, node: string): nat {
    if |run| == 0 then 0
    else
      var s, a := After(run[..|run| - 1]), run[|run| - 1];
      BacktracksEnded(run[..|run| - 1], node) + Unit(Ends(s, a, node) && EffectOf(s, a, node).Backtrack?)
  }

  /** All fires of `node` have the same `max_retries`. */
  predicate SharesMax(s: System, node: string, max: nat) {
    forall id :: id in s.fires && s.fires[id].node == node ==> s.fires[id].attrs.MaxRetries() == max
  }

  lemma StepKeepsFires(s: System, a: Action, node: string, max: nat)
    requires SharesMax(Next(s, a), node, max)
    ensures SharesMax(s, node, max)
  {
    forall id | id in s.fires
      ensures id in Next(s, a).fires
      ensures Next(s, a).fires[id].node == s.fires[id].node && Next(s, a).fires[id].attrs == s.fires[id].attrs
    {
    }
  }

  lemma StepLowers(s: System, a: Action, node: string, max: nat)
    requires RungsOk(s) && SharesMax(s, node, max)
    ensures var mem := Next(s, a).mem; var ends := Ends(s, a, node);
      && Potential(mem, node, max) + Unit(ends && EffectOf(s, a, node).Acts()) <= Potential(s.mem, node, max)
      && RetriesLeft(mem, node, max) + Unit(ends && EffectOf(s, a, node).Backtrack?) <= RetriesLeft(s.mem, node, max)
  {
    if a.Turn? && Live(s, a.id) {
      var f := s.fires[a.id];
      if f.node == node {
        MicroLowers(s.mem, f, max);
      } else {
        assert WellStored(s.mem, f.node);
        MicroRungs(s.mem, f, node);
      }
    }
  }

  /** While no node is fired twice at once, however the ladder nodes interleave, a node
      asks for at most `max_retries` backtracks, and at most `max_retries + 3` of its
      fires do anything but fail, panic or pause. */
  lemma {:induction false} RunBounded(run: seq<Action>, node: string, max: nat)
    requires OrderlyRun(run) && SharesMax(After(run), node, max)
    ensures ActingEnded(run, node) + Potential(After(run).mem, node, max) <= max + 3
    ensures BacktracksEnded(run, node) + RetriesLeft(After(run).mem, node, max) <= max
    ensures ActingEnded(run, node) <= max + 3 && BacktracksEnded(run, node) <= max
  {
    if |run| > 0 {
      var g, a := run[..|run| - 1], run[|run| - 1];
      OrderlyPrefix(run);
      StepKeepsFires(After(g), a, node, max);
      RunBounded(g, node, max);
      RungsNeverFall(g);
      StepLowers(After(g), a, node, max);
    }
  }
}
