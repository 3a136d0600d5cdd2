/** Who decides a router's choice, and what a fire leaves behind, told over whole runs
    in the terms of the source's documentation (core/agentgraph/exec_router.go). */
module RouterAnswers {
  import opened Wrappers
  import opened BranchValues
  import opened RunState
  import opened Router

  /** The payload of a fire. */
  function Payload(inputs: PortValues): Value {
    if "in" in inputs then inputs["in"] else Nil
  }

  /** The doom-loop guard upstream has raised its flag. */
  predicate Flagged(inputs: PortValues) {
    "should_replan" in inputs &&
    inputs["should_replan"] !in {Nil, VBool(false), VString(""), VInt(0), VFloat64(Finite(0.0))}
  }

  /** The menu can route at all. */
  predicate Routable(a: Attrs) {
    a.choices != map[] && a.defaultChoice in a.choices
  }

  predicate Forced(a: Attrs, inputs: PortValues) {
    a.replanChoice != "" && a.replanChoice in a.choices && Flagged(inputs)
  }

  lemma ForcedIff(a: Attrs, inputs: PortValues)
    ensures ReplanForced(a, inputs) <==> Forced(a, inputs)
  {
  }

  /** The last `n` choices were all `c`. */
  predicate EndsWith(cs: seq<string>, c: string, n: nat) {
    n <= |cs| && forall i :: |cs| - n <= i < |cs| ==> cs[i] == c
  }

  lemma {:induction false} TrailingAtLeast(cs: seq<string>, c: string, n: nat)
    ensures TrailingRun(cs + [c]) > n <==> EndsWith(cs, c, n)
  {
    var longer := cs + [c];
    var m := TrailingRun(longer);
    TrailingRunMeans(longer);
    assert forall i :: 0 <= i < |cs| ==> cs[i] == longer[i];
    if m > n {
      assert forall i :: |cs| - n <= i < |cs| ==> longer[i] == c;
    }
  }

  /** The choice `c` of this source was stated, after the choices `cs`: it stands, unless
      it is not on the menu or has already been resolved `maxSame` times in a row. */
  ghost predicate ResolvesAs(a: Attrs, cs: seq<string>, r: Result<Routed, RouterError>, c: string, source: Source) {
    && r.Ok?
    && if c !in a.choices then r.value.choice == a.defaultChoice && r.value.source == DefaultSource && |r.value.events| == 1
       else if a.maxSame > 0 && c != a.defaultChoice && EndsWith(cs, c, a.maxSame) then
         && r.value.choice == a.defaultChoice && r.value.source == ThrashGuard && |r.value.events| == 2
         && r.value.events[0] == Override(ThrashGuard, c, a.defaultChoice, TrailingRun(cs + [c]))
       else r.value.choice == c && r.value.source == source && |r.value.events| == 1
  }

  ghost predicate Resolves(menus: string -> Attrs, run: seq<Step>, s: Step, c: string, source: Source)
    requires s.Fires?
  {
    ResolvesAs(menus(s.node), Choices(menus, run, s.node), Outcome(menus, run, s), c, source)
  }

  lemma ThrashesIff(a: Attrs, mem: Memory, node: string, cs: seq<string>, c: string)
    requires Counted(mem, node, cs)
    ensures var outs := mem.Outputs(StateKey(node));
      && (Thrashes(a, outs, c) <==> a.maxSame > 0 && c != a.defaultChoice && EndsWith(cs, c, a.maxSame))
      && (Thrashes(a, outs, c) ==> IntPort(outs, "consecutive") + 1 == TrailingRun(cs + [c]))
  {
    CountedOuts(mem, node, cs, c);
    if a.maxSame > 0 {
      TrailingAtLeast(cs, c, a.maxSame);
      if |cs| > 0 && cs[|cs| - 1] != c {
        assert !EndsWith(cs, c, a.maxSame);
      }
    }
  }

  /** The same with the guard's verdict still in terms of the stored counter. */
  predicate ShapedAs(a: Attrs, outs: PortValues, r: Result<Routed, RouterError>, c: string, source: Source) {
    && r.Ok?
    && if c !in a.choices then r.value.choice == a.defaultChoice && r.value.source == DefaultSource && |r.value.events| == 1
       else if Thrashes(a, outs, c) then
         && r.value.choice == a.defaultChoice && r.value.source == ThrashGuard && |r.value.events| == 2
         && r.value.events[0] == Override(ThrashGuard, c, a.defaultChoice, IntPort(outs, "consecutive") + 1)
       else r.value.choice == c && r.value.source == source && |r.value.events| == 1
  }

  lemma FinishedKeeps(mem: Memory, node: string, a: Attrs, inputs: PortValues, choice: string, source: Source, events: seq<Event>)
    ensures var r := Finished(mem, node, a, inputs, choice, source, events).1;
      r.choice == choice && r.source == source && |r.events| == |events| + 1 && events <= r.events
  {
  }

  lemma FireShape(mem: Memory, node: string, a: Attrs, inputs: PortValues, w: World, c: string, source: Source)
    requires Routable(a) && !ReplanForced(a, inputs) && Stated(a, w) == Ok((c, source))
    ensures ShapedAs(a, mem.Outputs(StateKey(node)), Fire(mem, node, a, inputs, w).1, c, source)
  {
    MenuNotEmpty(a);
    var (d, src) := Valid(a, (c, source));
    var prev := mem.Outputs(StateKey(node));
    FinishedKeeps(mem, node, a, inputs, d, src, []);
    FinishedKeeps(mem, node, a, inputs, a.defaultChoice, ThrashGuard,
                  [Override(ThrashGuard, d, a.defaultChoice, IntPort(prev, "consecutive") + 1)]);
  }

  lemma FireResolves(mem: Memory, node: string, a: Attrs, inputs: PortValues, w: World, cs: seq<string>, c: string, source: Source)
    requires Routable(a) && !ReplanForced(a, inputs) && Stated(a, w) == Ok((c, source)) && Counted(mem, node, cs)
    ensures ResolvesAs(a, cs, Fire(mem, node, a, inputs, w).1, c, source)
  {
    FireShape(mem, node, a, inputs, w, c, source);
    ThrashesIff(a, mem, node, cs, c);
  }

  lemma StatedResolves(menus: string -> Attrs, run: seq<Step>, s: Step, c: string, source: Source)
    requires s.Fires? && Routable(menus(s.node)) && !Forced(menus(s.node), s.inputs)
    requires Stated(menus(s.node), s.w) == Ok((c, source))
    ensures Resolves(menus, run, s, c, source)
  {
    ForcedIff(menus(s.node), s.inputs);
    CounterIsTrailingRun(menus, run, s.node);
    FireResolves(After(menus, run), s.node, menus(s.node), s.inputs, s.w, Choices(menus, run, s.node), c, source);
  }

  lemma MenuNotEmpty(a: Attrs)
    ensures |a.choices| == 0 <==> a.choices == map[]
  {
  }

  lemma CountedPorts(outs: PortValues, last: string, n: int)
    requires outs == map["choice" := VString(last), "consecutive" := VInt(n)]
    ensures StringPort(outs, "choice") == last && IntPort(outs, "consecutive") == n
  {
    assert |"choice"| != |"consecutive"|;
  }

  lemma TrailingNext(cs: seq<string>, c: string)
    ensures TrailingRun(cs + [c]) == if |cs| > 0 && cs[|cs| - 1] == c then TrailingRun(cs) + 1 else 1
  {
    assert (cs + [c])[..|cs|] == cs;
  }

  lemma CountedOuts(mem: Memory, node: string, cs: seq<string>, c: string)
    requires Counted(mem, node, cs)
    ensures var outs := mem.Outputs(StateKey(node));
      && (|cs| > 0 && cs[|cs| - 1] == c ==> StringPort(outs, "choice") == c && IntPort(outs, "consecutive") + 1 == TrailingRun(cs + [c]))
      && (|cs| > 0 && cs[|cs| - 1] != c ==> StringPort(outs, "choice") != c && TrailingRun(cs + [c]) == 1)
      && (|cs| == 0 ==> outs == map[] && TrailingRun(cs + [c]) == 1)
  {
    TrailingNext(cs, c);
    if |cs| > 0 {
      CountedPorts(mem.Outputs(StateKey(node)), cs[|cs| - 1], TrailingRun(cs));
    }
  }

  /** Without a menu, or without its default on it, nothing is routed. */
  lemma BadMenus(menus: string -> Attrs, run: seq<Step>, s: Step)
    requires s.Fires?
    ensures var a := menus(s.node);
      && (a.choices == map[] <==> Outcome(menus, run, s) == Err(EmptyMenu))
      && (a.choices != map[] && a.defaultChoice !in a.choices <==> Outcome(menus, run, s) == Err(BadDefault))
  {
    MenuNotEmpty(menus(s.node));
  }

  /** A raised doom-loop flag overrides every opinion, and says what it overrode. */
  lemma DoomLoopForces(menus: string -> Attrs, run: seq<Step>, s: Step)
    requires s.Fires? && Routable(menus(s.node)) && Forced(menus(s.node), s.inputs)
    ensures var a, r := menus(s.node), Outcome(menus, run, s);
      && r.Ok? && r.value.choice == a.replanChoice && r.value.source == DoomLoop && |r.value.events| == 2
      && r.value.events[0] == Override(DoomLoop, if s.w.fused.Some? then s.w.fused.value else "", a.replanChoice, s.w.hits)
  {
    ForcedIff(menus(s.node), s.inputs);
    MenuNotEmpty(menus(s.node));
  }

  /** In standalone mode the model alone decides, whatever the source node says. */
  lemma StandaloneAsks(menus: string -> Attrs, run: seq<Step>, s: Step)
    requires s.Fires? && Routable(menus(s.node)) && !Forced(menus(s.node), s.inputs)
    requires menus(s.node).mode == "standalone"
    ensures match s.w.asked
      case Ok(c) => Resolves(menus, run, s, c, Llm)
      case Err(why) => Outcome(menus, run, s) == Err(ModelFailed(why))
  {
    ForcedIff(menus(s.node), s.inputs);
    MenuNotEmpty(menus(s.node));
    if s.w.asked.Ok? {
      StatedResolves(menus, run, s, s.w.asked.value, Llm);
    }
  }

  /** In any other mode a source node that states a choice wins; the model is not heard,
      with the fallback wired or not. */
  lemma SourceNodeFirst(menus: string -> Attrs, run: seq<Step>, s: Step, c: string)
    requires s.Fires? && Routable(menus(s.node)) && !Forced(menus(s.node), s.inputs)
    requires menus(s.node).mode != "standalone" && s.w.fused == Some(c)
    ensures Resolves(menus, run, s, c, SourceNode)
  {
    StatedResolves(menus, run, s, c, SourceNode);
  }

  /** When the source node states nothing, the model is asked only with the fallback. */
  lemma FallbackAsks(menus: string -> Attrs, run: seq<Step>, s: Step)
    requires s.Fires? && Routable(menus(s.node)) && !Forced(menus(s.node), s.inputs)
    requires menus(s.node).mode != "standalone" && s.w.fused == None && menus(s.node).fallback
    ensures match s.w.asked
      case Ok(c) => Resolves(menus, run, s, c, Llm)
      case Err(why) => Outcome(menus, run, s) == Err(ModelFailed(why))
  {
    ForcedIff(menus(s.node), s.inputs);
    MenuNotEmpty(menus(s.node));
    if s.w.asked.Ok? {
      StatedResolves(menus, run, s, s.w.asked.value, Llm);
    }
  }

  /** And without it the default is taken, except on a menu that lists the empty name:
      there "nothing stated" is itself on the menu. */
  lemma NothingStated(menus: string -> Attrs, run: seq<Step>, s: Step)
    requires s.Fires? && Routable(menus(s.node)) && !Forced(menus(s.node), s.inputs)
    requires menus(s.node).mode != "standalone" && s.w.fused == None && !menus(s.node).fallback
    ensures Resolves(menus, run, s, "", NoSource)
    ensures var r := Outcome(menus, run, s);
      "" !in menus(s.node).choices ==> r.Ok? && r.value.choice == menus(s.node).defaultChoice && r.value.source == DefaultSource
  {
    StatedResolves(menus, run, s, "", NoSource);
  }

  lemma PortsMean(inputs: PortValues, choice: string, port: string)
    ensures var outs := Ports(inputs, choice);
      if port == choice || port == "out" then port in outs && outs[port] == Payload(inputs)
      else if port == "next" then port in outs && outs[port] == VString(choice)
      else (port in outs <==> port in inputs) && (port in inputs ==> outs[port] == inputs[port])
  {
    assert |"out"| != |"next"|;
  }

  /** What every resolved fire writes: the payload on the choice's own port and on `out`,
      the choice on `next`, and every other inbound port as it came. */
  lemma FirePorts(menus: string -> Attrs, run: seq<Step>, s: Step, port: string)
    requires s.Fires? && Outcome(menus, run, s).Ok?
    ensures var r := Outcome(menus, run, s).value;
      if port == r.choice || port == "out" then port in r.outputs && r.outputs[port] == Payload(s.inputs)
      else if port == "next" then port in r.outputs && r.outputs[port] == VString(r.choice)
      else (port in r.outputs <==> port in s.inputs) && (port in s.inputs ==> r.outputs[port] == s.inputs[port])
  {
    FireWritesPorts(After(menus, run), s.node, menus(s.node), s.inputs, s.w);
    PortsMean(s.inputs, Outcome(menus, run, s).value.choice, port);
  }

  lemma FinishedAudits(mem: Memory, node: string, a: Attrs, inputs: PortValues, choice: string, source: Source,
                       events: seq<Event>, cs: seq<string>)
    requires Counted(mem, node, cs) && choice in a.choices
    ensures Finished(mem, node, a, inputs, choice, source, events).1.events ==
      events + [Chose(choice, source, TrailingRun(cs + [choice]), a.choices[choice])]
  {
    CountedOuts(mem, node, cs, choice);
    assert |cs| == 0 ==> StringPort(map[], "choice") == "" && IntPort(map[], "consecutive") == 0;
  }

  lemma FireAudits(mem: Memory, node: string, a: Attrs, inputs: PortValues, w: World, cs: seq<string>)
    requires Counted(mem, node, cs) && Fire(mem, node, a, inputs, w).1.Ok?
    ensures var r := Fire(mem, node, a, inputs, w).1.value;
      && |r.events| > 0 && r.choice in a.choices
      && r.events[|r.events| - 1] == Chose(r.choice, r.source, TrailingRun(cs + [r.choice]), a.choices[r.choice])
  {
    var r := Fire(mem, node, a, inputs, w).1.value;
    FireWritesPorts(mem, node, a, inputs, w);
    FinishedAudits(mem, node, a, inputs, r.choice, r.source, r.events[..|r.events| - 1], cs);
  }

  /** And its last event records the choice, its source, how often it has now been
      resolved in a row, and its target. */
  lemma FireAudit(menus: string -> Attrs, run: seq<Step>, s: Step)
    requires s.Fires? && Outcome(menus, run, s).Ok?
    ensures var a, r := menus(s.node), Outcome(menus, run, s).value;
      && |r.events| > 0 && r.choice in a.choices
      && r.events[|r.events| - 1] ==
           Chose(r.choice, r.source, TrailingRun(Choices(menus, run, s.node) + [r.choice]), a.choices[r.choice])
  {
    CounterIsTrailingRun(menus, run, s.node);
    FireAudits(After(menus, run), s.node, menus(s.node), s.inputs, s.w, Choices(menus, run, s.node));
  }
}
