/** The router node: how a choice is resolved, the anti-thrash counter it keeps in run
    state, and the ports it leaves for the kernel (core/agentgraph/exec_router.go). */
module Router {
  import opened Wrappers
  import opened BranchValues
  import opened RunState
  import EdgeLiveness

  datatype Attrs = Attrs(choices: map<string, string>, defaultChoice: string, replanChoice: string,
                         mode: string, maxSame: int, fallback: bool)

  /** What reading the source node and asking the model would give, and how many
      doom-loop hits the inputs carry. */
  datatype World = World(fused: Option<string>, asked: Result<string, string>, hits: nat)

  datatype Source = DoomLoop | Llm | SourceNode | DefaultSource | ThrashGuard | NoSource

  datatype Event =
    | Override(reason: Source, overridden: string, choice: string, count: int)
    | Chose(choice: string, source: Source, consecutive: int, target: string)

  datatype RouterError = EmptyMenu | BadDefault | ModelFailed(why: string)

  datatype Routed = Routed(choice: string, source: Source, outputs: PortValues, events: seq<Event>)

  const STANDALONE := "standalone"
  const PREFIX := "__router__"

  function StateKey(node: string): string {
    PREFIX + node
  }

  function In(inputs: PortValues): Value {
    if "in" in inputs then inputs["in"] else Nil
  }

  predicate ReplanForced(a: Attrs, inputs: PortValues) {
    a.replanChoice != "" && a.replanChoice in a.choices && "should_replan" in inputs && Truthy(inputs["should_replan"])
  }

  /** The choice before the thrash guard, and where it came from. */
  function Stated(a: Attrs, w: World): Result<(string, Source), RouterError> {
    var ask := match w.asked case Ok(c) => Ok((c, Llm)) case Err(why) => Err(ModelFailed(why));
    if a.mode == STANDALONE then ask
    else if w.fused.Some? then Ok((w.fused.value, SourceNode))
    else if a.fallback then ask
    else Ok(("", NoSource))
  }

  function Valid(a: Attrs, stated: (string, Source)): (string, Source) {
    if stated.0 in a.choices then stated else (a.defaultChoice, DefaultSource)
  }

  predicate Thrashes(a: Attrs, outs: PortValues, choice: string) {
    && a.maxSame > 0 && choice != a.defaultChoice
    && StringPort(outs, "choice") == choice && IntPort(outs, "consecutive") + 1 > a.maxSame
  }

  /** `routerFinish`: count, store, write the ports. */
  function Finished(mem: Memory, node: string, a: Attrs, inputs: PortValues, choice: string, source: Source,
                    events: seq<Event>): (Memory, Routed) {
    var prev := mem.Outputs(StateKey(node));
    var n := if StringPort(prev, "choice") == choice then IntPort(prev, "consecutive") + 1 else 1;
    var target := if choice in a.choices then a.choices[choice] else "";
    (mem.With(StateKey(node), map["choice" := VString(choice), "consecutive" := VInt(n)]),
     Routed(choice, source, Ports(inputs, choice), events + [Chose(choice, source, n, target)]))
  }

  /** The inbound payload first, then the canonical ports, then the choice's own. */
  function Ports(inputs: PortValues, choice: string): PortValues {
    inputs["out" := In(inputs)]["next" := VString(choice)][choice := In(inputs)]
  }

  function Fire(mem: Memory, node: string, a: Attrs, inputs: PortValues, w: World): (Memory, Result<Routed, RouterError>) {
    if |a.choices| == 0 then (mem, Err(EmptyMenu))
    else if a.defaultChoice !in a.choices then (mem, Err(BadDefault))
    else if ReplanForced(a, inputs) then
      var stated := match w.fused case Some(c) => c case None => "";
      var (m, r) := Finished(mem, node, a, inputs, a.replanChoice, DoomLoop, [Override(DoomLoop, stated, a.replanChoice, w.hits)]);
      (m, Ok(r))
    else
      match Stated(a, w)
      case Err(e) => (mem, Err(e))
      case Ok(s) =>
        var (c, source) := Valid(a, s);
        var prev := mem.Outputs(StateKey(node));
        if Thrashes(a, prev, c) then
          var (m, r) := Finished(mem, node, a, inputs, a.defaultChoice, ThrashGuard,
                                 [Override(ThrashGuard, c, a.defaultChoice, IntPort(prev, "consecutive") + 1)]);
          (m, Ok(r))
        else
          var (m, r) := Finished(mem, node, a, inputs, c, source, []);
          (m, Ok(r))
  }

  /** `Execute` as written, over the run state it shares with every other node. */
  method Execute(state: RunState, node: string, a: Attrs, inputs: PortValues, w: World)
    returns (r: Result<Routed, RouterError>)
    modifies state
    ensures (state.Value(), r) == Fire(old(state.Value()), node, a, inputs, w)
  {
    if |a.choices| == 0 {
      return Err(EmptyMenu);
    }
    if a.defaultChoice !in a.choices {
      return Err(BadDefault);
    }
    if a.replanChoice != "" && a.replanChoice in a.choices && "should_replan" in inputs && Truthy(inputs["should_replan"]) {
      var overridden := if w.fused.Some? then w.fused.value else "";
      var routed := Finish(state, node, a, inputs, a.replanChoice, DoomLoop,
                           [Override(DoomLoop, overridden, a.replanChoice, w.hits)]);
      return Ok(routed);
    }
    var picked := Pick(a, w);
    if picked.Err? {
      return Err(picked.error);
    }
    var choice, source := picked.value.0, picked.value.1;
    if choice !in a.choices {
      choice, source := a.defaultChoice, DefaultSource;
    }
    var events := [];
    if a.maxSame > 0 && choice != a.defaultChoice {
      var prev := state.Outputs(StateKey(node));
      var last, consecutive := StringPort(prev, "choice"), IntPort(prev, "consecutive");
      if last == choice && consecutive + 1 > a.maxSame {
        events := [Override(ThrashGuard, choice, a.defaultChoice, consecutive + 1)];
        choice, source := a.defaultChoice, ThrashGuard;
      }
    }
    var routed := Finish(state, node, a, inputs, choice, source, events);
    return Ok(routed);
  }

  method Pick(a: Attrs, w: World) returns (r: Result<(string, Source), RouterError>)
    ensures r == Stated(a, w)
  {
    if a.mode != STANDALONE && w.fused.Some? {
      return Ok((w.fused.value, SourceNode));
    }
    if a.mode == STANDALONE || a.fallback {
      if w.asked.Err? {
        return Err(ModelFailed(w.asked.error));
      }
      return Ok((w.asked.value, Llm));
    }
    return Ok(("", NoSource));
  }

  method Finish(state: RunState, node: string, a: Attrs, inputs: PortValues, choice: string, source: Source,
                events: seq<Event>) returns (r: Routed)
    modifies state
    ensures (state.Value(), r) == Finished(old(state.Value()), node, a, inputs, choice, source, events)
  {
    var prev := state.Outputs(StateKey(node));
    var last, consecutive := StringPort(prev, "choice"), IntPort(prev, "consecutive");
    if last == choice {
      consecutive := consecutive + 1;
    } else {
      consecutive := 1;
    }
    state.SetOutputs(StateKey(node), map["choice" := VString(choice), "consecutive" := VInt(consecutive)]);
    var outs := inputs["out" := In(inputs)];
    outs := outs["next" := VString(choice)];
    outs := outs[choice := In(inputs)];
    var target := if choice in a.choices then a.choices[choice] else "";
    r := Routed(choice, source, outs, events + [Chose(choice, source, consecutive, target)]);
  }

  // ---- whole runs: many routers and other nodes over one run state ----

  /** A router fires, or some other node stores its outputs. */
  datatype Step = Fires(node: string, inputs: PortValues, w: World) | Stores(id: string, outs: PortValues)

  predicate OwnKey(id: string) {
    |id| >= |PREFIX| && id[..|PREFIX|] == PREFIX
  }

  const EMPTY := Memory(map[], {})

  function Next(menus: string -> Attrs, mem: Memory, s: Step): Memory {
    match s
    case Fires(node, inputs, w) => Fire(mem, node, menus(node), inputs, w).0
    case Stores(id, outs) => if OwnKey(id) then mem else mem.With(id, outs)
  }

  function After(menus: string -> Attrs, run: seq<Step>): Memory {
    if |run| == 0 then EMPTY else Next(menus, After(menus, run[..|run| - 1]), run[|run| - 1])
  }

  function Outcome(menus: string -> Attrs, run: seq<Step>, s: Step): Result<Routed, RouterError>
    requires s.Fires?
  {
    Fire(After(menus, run), s.node, menus(s.node), s.inputs, s.w).1
  }

  /** The choices one router has resolved, in order. */
  function Choices(menus: string -> Attrs, run: seq<Step>, node: string): seq<string> {
    if |run| == 0 then []
    else
      var g, s := run[..|run| - 1], run[|run| - 1];
      var before := Choices(menus, g, node);
      if s.Fires? && s.node == node && Outcome(menus, g, s).Ok? then before + [Outcome(menus, g, s).value.choice]
      else before
  }

  /** How many equal choices stand at the end. */
  function TrailingRun(cs: seq<string>): nat {
    if |cs| == 0 then 0
    else if |cs| > 1 && cs[|cs| - 2] == cs[|cs| - 1] then 1 + TrailingRun(cs[..|cs| - 1])
    else 1
  }

  lemma {:induction false} TrailingRunMeans(cs: seq<string>)
    requires |cs| > 0
    ensures var n := TrailingRun(cs);
      && 1 <= n <= |cs| && (forall i :: |cs| - n <= i < |cs| ==> cs[i] == cs[|cs| - 1])
      && (n < |cs| ==> cs[|cs| - n - 1] != cs[|cs| - 1])
  {
    if |cs| > 1 {
      TrailingRunMeans(cs[..|cs| - 1]);
    }
  }

  /** What the state key holds is the last choice and the length of its run. */
  ghost predicate Counted(mem: Memory, node: string, cs: seq<string>) {
    var outs := mem.Outputs(StateKey(node));
    if |cs| == 0 then outs == map[]
    else outs == map["choice" := VString(cs[|cs| - 1]), "consecutive" := VInt(TrailingRun(cs))]
  }

  lemma KeysApart(a: string, b: string)
    ensures StateKey(a) == StateKey(b) <==> a == b
    ensures OwnKey(StateKey(a))
  {
    assert StateKey(a)[|PREFIX|..] == a && StateKey(b)[|PREFIX|..] == b;
    assert StateKey(a)[..|PREFIX|] == PREFIX;
  }

  lemma FinishedCounts(mem: Memory, node: string, a: Attrs, inputs: PortValues, choice: string, source: Source,
                       events: seq<Event>, cs: seq<string>)
    requires Counted(mem, node, cs)
    ensures var (m, r) := Finished(mem, node, a, inputs, choice, source, events);
      Counted(m, node, cs + [choice]) && r.choice == choice
  {
    assert (cs + [choice])[..|cs|] == cs;
  }

  lemma FireCounts(mem: Memory, node: string, a: Attrs, inputs: PortValues, w: World, cs: seq<string>)
    requires Counted(mem, node, cs)
    ensures var (m, r) := Fire(mem, node, a, inputs, w);
      if r.Ok? then Counted(m, node, cs + [r.value.choice]) else m == mem
    ensures forall id :: id != StateKey(node) ==> Fire(mem, node, a, inputs, w).0.Outputs(id) == mem.Outputs(id)
  {
    var (m, r) := Fire(mem, node, a, inputs, w);
    if r.Ok? {
      FinishedCounts(mem, node, a, inputs, r.value.choice, r.value.source, r.value.events[..|r.value.events| - 1], cs);
    }
  }

  /** Over any run, each router's stored counter is the length of the trailing run of
      equal choices it has resolved. */
  lemma {:induction false} CounterIsTrailingRun(menus: string -> Attrs, run: seq<Step>, node: string)
    ensures Counted(After(menus, run), node, Choices(menus, run, node))
  {
    if |run| > 0 {
      var g, s := run[..|run| - 1], run[|run| - 1];
      CounterIsTrailingRun(menus, g, node);
      match s {
        case Fires(other, inputs, w) =>
          KeysApart(node, other);
          if other == node {
            FireCounts(After(menus, g), node, menus(node), inputs, w, Choices(menus, g, node));
          } else {
            CounterIsTrailingRun(menus, g, other);
            FireCounts(After(menus, g), other, menus(other), inputs, w, Choices(menus, g, other));
          }
        case Stores(id, outs) => KeysApart(node, node);
      }
    }
  }

  /** Every resolved choice is on the menu. */
  lemma {:induction false} ChoicesDeclared(menus: string -> Attrs, run: seq<Step>, node: string)
    ensures forall c :: c in Choices(menus, run, node) ==> c in menus(node).choices
  {
    if |run| > 0 {
      ChoicesDeclared(menus, run[..|run| - 1], node);
    }
  }

  /** The guard steps in exactly when resolving the stated choice would make the
      router's trailing run of it exceed the cap; otherwise the stated choice stands. */
  lemma ThrashGuardIff(menus: string -> Attrs, run: seq<Step>, s: Step)
    requires s.Fires? && Outcome(menus, run, s).Ok? && !ReplanForced(menus(s.node), s.inputs)
    ensures var a := menus(s.node); var r := Outcome(menus, run, s).value; var cs := Choices(menus, run, s.node);
      Stated(a, s.w).Ok? &&
      var c := Valid(a, Stated(a, s.w).value).0;
      && (r.source.ThrashGuard? <==> a.maxSame > 0 && c != a.defaultChoice && TrailingRun(cs + [c]) > a.maxSame)
      && r.choice == if r.source.ThrashGuard? then a.defaultChoice else c
  {
    CounterIsTrailingRun(menus, run, s.node);
    var cs := Choices(menus, run, s.node);
    var c := Valid(menus(s.node), Stated(menus(s.node), s.w).value).0;
    assert (cs + [c])[..|cs|] == cs;
  }

  /** So a fire the doom-loop guard did not force never leaves a run of a non-default
      choice longer than the cap. */
  lemma NoThrash(menus: string -> Attrs, run: seq<Step>, s: Step)
    requires s.Fires? && Outcome(menus, run, s).Ok?
    requires menus(s.node).maxSame > 0 && !ReplanForced(menus(s.node), s.inputs)
    ensures var cs := Choices(menus, run + [s], s.node);
      |cs| > 0 && (cs[|cs| - 1] != menus(s.node).defaultChoice ==> TrailingRun(cs) <= menus(s.node).maxSame)
  {
    assert (run + [s])[..|run|] == run;
    ThrashGuardIff(menus, run, s);
  }

  // ---- the kernel routes on what the router wrote ----

  /** The kernel promotes exactly the edges of this choice. */
  ghost predicate KernelReads(nd: EdgeLiveness.Node, outs: PortValues, choice: string)
    requires nd.attrs.RouterAttrs?
  {
    var l := EdgeLiveness.RouterLiveOutEdges(nd, outs);
    l.Some? && forall e :: l.value(e) <==> EdgeLiveness.RouterLive(choice, nd.attrs.choices, e)
  }

  /** A choice's own port is written last, so it overwrites the port the kernel reads
      exactly when the choice is named "next", unless the payload is that very text. */
  lemma PortsReadIff(nd: EdgeLiveness.Node, inputs: PortValues, choice: string)
    requires nd.attrs.RouterAttrs? && choice != ""
    ensures Ports(inputs, choice)["next"] == VString(choice) <==> choice != "next" || In(inputs) == VString("next")
    ensures choice != "next" || In(inputs) == VString("next") ==> KernelReads(nd, Ports(inputs, choice), choice)
    ensures choice == "next" && !In(inputs).VString? ==> EdgeLiveness.RouterLiveOutEdges(nd, Ports(inputs, choice)).None?
  {
  }

  lemma FireWritesPorts(mem: Memory, node: string, a: Attrs, inputs: PortValues, w: World)
    requires Fire(mem, node, a, inputs, w).1.Ok?
    ensures var r := Fire(mem, node, a, inputs, w).1.value;
      r.outputs == Ports(inputs, r.choice) && r.choice in a.choices
  {
  }

  /** Every resolved fire of a menu is promoted as resolved. */
  ghost predicate RoutesAsResolved(nd: EdgeLiveness.Node, a: Attrs)
    requires nd.attrs.RouterAttrs?
  {
    forall mem, node, inputs, w :: Fire(mem, node, a, inputs, w).1.Ok? ==>
      KernelReads(nd, Fire(mem, node, a, inputs, w).1.value.outputs, Fire(mem, node, a, inputs, w).1.value.choice)
  }

  /** A fire that resolves `c` with no inputs at all. */
  lemma CanResolve(a: Attrs, c: string) returns (w: World)
    requires a.defaultChoice in a.choices && c in a.choices
    ensures var r := Fire(EMPTY, "n", a, map[], w).1; r.Ok? && r.value.choice == c
  {
    w := World(Some(c), Ok(c), 0);
    assert a.choices.Keys != {};
    assert |a.choices| == |a.choices.Keys| > 0;
    assert EMPTY.Outputs(StateKey("n")) == map[];
    assert Stated(a, w).Ok? && Stated(a, w).value.0 == c;
    assert !Thrashes(a, map[], c);
  }

  /** The kernel promotes what the router resolved, in every fire, exactly when the menu
      has no choice named "next" and none with an empty name. */
  lemma KernelReadsChoiceIff(nd: EdgeLiveness.Node, a: Attrs)
    requires nd.attrs.RouterAttrs? && a.defaultChoice in a.choices
    ensures RoutesAsResolved(nd, a) <==> "next" !in a.choices && "" !in a.choices
  {
    if "next" in a.choices || "" in a.choices {
      var c := if "next" in a.choices then "next" else "";
      var w := CanResolve(a, c);
      FireWritesPorts(EMPTY, "n", a, map[], w);
      assert Ports(map[], c)["next"] == (if c == "next" then Nil else VString(""));
      assert !KernelReads(nd, Fire(EMPTY, "n", a, map[], w).1.value.outputs, c);
    } else {
      forall mem, node, inputs, w | Fire(mem, node, a, inputs, w).1.Ok?
        ensures KernelReads(nd, Fire(mem, node, a, inputs, w).1.value.outputs, Fire(mem, node, a, inputs, w).1.value.choice)
      {
        FireWritesPorts(mem, node, a, inputs, w);
        PortsReadIff(nd, inputs, Fire(mem, node, a, inputs, w).1.value.choice);
      }
    }
  }

  /** A menu with such a choice: it is resolved, and the payload's text then picks the
      other branch. */
  lemma NextIsMisread()
    ensures var a := Attrs(map["next" := "a", "stop" := "b"], "stop", "", "", 0, false);
      var nd := EdgeLiveness.Node(EdgeLiveness.Router, EdgeLiveness.RouterAttrs(a.choices), [], []);
      var r := Fire(EMPTY, "n", a, map["in" := VString("stop")], World(Some("next"), Ok("next"), 0)).1;
      r.Ok? && r.value.choice == "next" && KernelReads(nd, r.value.outputs, "stop")
  {
    var a := Attrs(map["next" := "a", "stop" := "b"], "stop", "", "", 0, false);
    assert "next" in a.choices && "stop" in a.choices;
    assert |a.choices| > 0 by {
      assert "next" in a.choices.Keys;
    }
    assert "next"[0] != STANDALONE[0] && "" != STANDALONE;
  }
}
