/** Two authorities on one edge: what the canvas lets an author draw
    (core/agentgraph/edgecheck.go) and which out-edges a completed `decision` or
    `router` promotes (core/agentgraph/exec_control.go, core/agentgraph/exec_router.go). */
module EdgeLiveness {
  import opened Wrappers
  import opened GraphEdges
  import opened BranchValues

  datatype Port = Port(name: string, kind: string)

  /** `choices` maps a choice id to its target node, "" if it names none. */
  datatype Attrs =
    | DecisionAttrs(nextTrue: string, nextFalse: string)
    | RouterAttrs(choices: map<string, string>)
    | OtherAttrs

  datatype Kind = Decision | Router | OtherKind

  /** `ins` and `outs` are the node's port surface, declared or default. */
  datatype Node = Node(kind: Kind, attrs: Attrs, ins: seq<Port>, outs: seq<Port>)

  datatype Graph = Graph(nodes: map<string, Node>, edges: seq<Edge>)

  datatype Issue = NoFromNode | NoToNode | NoOutPort | NoInPort | TypeMismatch | WrongSuccessor | Cycle(text: string)

  /** Port type compatibility, and the validator's pass for cycles outside loops. */
  datatype Rules = Rules(compatible: (string, string) -> bool, cycles: Graph -> seq<Issue>)

  // ---- drawing an edge ----

  function LookUpPort(ports: seq<Port>, name: string): Option<Port> {
    if |ports| == 0 then None
    else if ports[0].name == name then Some(ports[0])
    else LookUpPort(ports[1..], name)
  }

  function EdgePortIssues(r: Rules, nodes: map<string, Node>, e: Edge): seq<Issue> {
    if e.from.node !in nodes then [NoFromNode]
    else if e.to.node !in nodes then [NoToNode]
    else
      var fromPort := LookUpPort(nodes[e.from.node].outs, e.from.port);
      var toPort := LookUpPort(nodes[e.to.node].ins, e.to.port);
      if fromPort.None? then [NoOutPort]
      else if toPort.None? then [NoInPort]
      else if !r.compatible(fromPort.value.kind, toPort.value.kind) then [TypeMismatch]
      else []
  }

  function DecisionEdgeIssues(nodeID: string, a: Attrs, e: Edge): seq<Issue>
    requires a.DecisionAttrs?
  {
    if e.from.node != nodeID || (e.from.port != "true" && e.from.port != "false") then []
    else
      var want := if e.from.port == "true" then a.nextTrue else a.nextFalse;
      if want == "" || e.to.node == want then [] else [WrongSuccessor]
  }

  function RouterEdgeIssues(nodeID: string, a: Attrs, e: Edge): seq<Issue>
    requires a.RouterAttrs?
  {
    if e.from.node != nodeID || e.from.port !in a.choices then []
    else
      var want := a.choices[e.from.port];
      if want == "" || e.to.node == want then [] else [WrongSuccessor]
  }

  function EdgeRoutingIssues(nodes: map<string, Node>, e: Edge): seq<Issue> {
    if e.from.node !in nodes then []
    else
      var nd := nodes[e.from.node];
      if nd.kind.Decision? && nd.attrs.DecisionAttrs? then DecisionEdgeIssues(e.from.node, nd.attrs, e)
      else if nd.kind.Router? && nd.attrs.RouterAttrs? then RouterEdgeIssues(e.from.node, nd.attrs, e)
      else []
  }

  /** The edge is blamed only for a cycle it introduces. */
  function EdgeCycleIssues(r: Rules, g: Graph, e: Edge): seq<Issue> {
    if e.from.node !in g.nodes || e.to.node !in g.nodes then []
    else if |r.cycles(g)| > 0 then []
    else r.cycles(g.(edges := g.edges + [e]))
  }

  function CheckEdge(r: Rules, g: Graph, e: Edge): seq<Issue> {
    EdgePortIssues(r, g.nodes, e) + EdgeRoutingIssues(g.nodes, e) + EdgeCycleIssues(r, g, e)
  }

  // ---- promoting an edge ----

  /** No predicate means every out-edge is live. */
  type Liveness = Option<Edge -> bool>

  predicate Live(l: Liveness, e: Edge) {
    l.None? || l.value(e)
  }

  predicate DecisionLive(verdict: bool, a: Attrs, e: Edge) {
    var takenPort, deadPort := if verdict then "true" else "false", if verdict then "false" else "true";
    var (taken, dead) :=
      if !a.DecisionAttrs? then ("", "")
      else if verdict then (a.nextTrue, a.nextFalse)
      else (a.nextFalse, a.nextTrue);
    if e.to.node != "" && e.to.node == dead then false
    else if e.to.node != "" && e.to.node == taken then true
    else e.from.port == takenPort || e.from.port != deadPort
  }

  predicate RouterLive(chosen: string, choices: map<string, string>, e: Edge) {
    var takenTarget := if chosen in choices then choices[chosen] else "";
    var deadPorts := choices.Keys - {chosen};
    var deadTargets := set c | c in deadPorts && choices[c] != "" && choices[c] != takenTarget :: choices[c];
    if e.to.node != "" && takenTarget != "" && e.to.node == takenTarget then true
    else if e.to.node in deadTargets then false
    else e.from.port == chosen || e.from.port !in deadPorts
  }

  function DecisionLiveOutEdges(nd: Node, outs: PortValues): Liveness {
    if "verdict" !in outs then None
    else
      var verdict := Truthy(outs["verdict"]);
      Some(e => DecisionLive(verdict, nd.attrs, e))
  }

  function RouterLiveOutEdges(nd: Node, outs: PortValues): Liveness {
    if !nd.attrs.RouterAttrs? then None
    else if "next" !in outs || !outs["next"].VString? || outs["next"].s == "" then None
    else
      var chosen := outs["next"].s;
      Some(e => RouterLive(chosen, nd.attrs.choices, e))
  }

  // ---- a decision routes where its attributes say ----

  function Selected(a: Attrs, verdict: bool): string
    requires a.DecisionAttrs?
  {
    if verdict then a.nextTrue else a.nextFalse
  }

  predicate Named(a: Attrs, target: string)
    requires a.DecisionAttrs?
  {
    target != "" && (target == a.nextTrue || target == a.nextFalse)
  }

  predicate TwoSuccessors(a: Attrs) {
    a.DecisionAttrs? && a.nextTrue != a.nextFalse && a.nextTrue != "" && a.nextFalse != ""
  }

  function PortOf(verdict: bool): string {
    if verdict then "true" else "false"
  }

  ghost predicate RoutesBySuccessor(a: Attrs)
    requires a.DecisionAttrs?
  {
    forall verdict: bool, e: Edge :: Named(a, e.to.node) ==> (DecisionLive(verdict, a, e) <==> e.to.node == Selected(a, verdict))
  }

  /** An edge into a named successor is live exactly when that successor was selected,
      whichever port it leaves, for all edges and verdicts, if and only if the two
      successors differ or neither is named.  (Equal successors kill both branches.) */
  lemma SuccessorIff(a: Attrs)
    requires a.DecisionAttrs?
    ensures RoutesBySuccessor(a) <==> a.nextTrue != a.nextFalse || a.nextTrue == ""
  {
    if a.nextTrue == a.nextFalse && a.nextTrue != "" {
      var e := Edge(Endpoint("", "true"), Endpoint(a.nextTrue, ""));
      assert Named(a, e.to.node) && !DecisionLive(true, a, e);
    }
  }

  ghost predicate RoutesByPort(id: string, a: Attrs)
    requires a.DecisionAttrs?
  {
    forall verdict: bool, e: Edge, p: bool :: e.from == Endpoint(id, PortOf(p)) && DecisionEdgeIssues(id, a, e) == [] ==>
      (DecisionLive(verdict, a, e) <==> p == verdict)
  }

  /** Every accepted edge off a verdict port is live exactly when its port is the
      verdict, if and only if both successors are named and differ, or neither is
      named. */
  lemma VerdictPortIff(id: string, a: Attrs)
    requires a.DecisionAttrs?
    ensures RoutesByPort(id, a) <==> (a.nextTrue == "" && a.nextFalse == "") || TwoSuccessors(a)
  {
    assert PortOf(true) != PortOf(false) by {
      assert |PortOf(true)| == 4 && |PortOf(false)| == 5;
    }
    if a.nextTrue == a.nextFalse && a.nextTrue != "" {
      var e := Edge(Endpoint(id, PortOf(true)), Endpoint(a.nextTrue, ""));
      assert DecisionEdgeIssues(id, a, e) == [] && !DecisionLive(true, a, e);
    } else if a.nextTrue != "" && a.nextFalse == "" {
      var e := Edge(Endpoint(id, PortOf(false)), Endpoint(a.nextTrue, ""));
      assert DecisionEdgeIssues(id, a, e) == [] && DecisionLive(true, a, e);
    } else if a.nextTrue == "" && a.nextFalse != "" {
      var e := Edge(Endpoint(id, PortOf(true)), Endpoint(a.nextFalse, ""));
      assert DecisionEdgeIssues(id, a, e) == [] && DecisionLive(false, a, e);
    }
  }

  // ---- so does a router ----

  /** An edge into any choice's target is live exactly when it is the chosen one's. */
  lemma RouterSuccessor(chosen: string, choices: map<string, string>, c: string, e: Edge)
    requires c in choices && choices[c] != "" && e.to.node == choices[c]
    ensures RouterLive(chosen, choices, e) <==> chosen in choices && choices[chosen] == e.to.node
  {
  }

  /** An accepted edge off a choice's port is live exactly when its choice's target is
      the chosen target: two choices that share a target are live together. */
  lemma RouterPort(id: string, a: Attrs, chosen: string, e: Edge)
    requires a.RouterAttrs? && chosen in a.choices && e.from.node == id && e.from.port in a.choices
    requires forall c :: c in a.choices ==> a.choices[c] != ""
    requires RouterEdgeIssues(id, a, e) == []
    ensures RouterLive(chosen, a.choices, e) <==> a.choices[e.from.port] == a.choices[chosen]
  {
    RouterSuccessor(chosen, a.choices, e.from.port, e);
  }

  ghost predicate RoutesByChoice(id: string, a: Attrs, chosen: string)
    requires a.RouterAttrs?
  {
    forall e: Edge :: e.from.node == id && e.from.port in a.choices && RouterEdgeIssues(id, a, e) == [] ==>
      (RouterLive(chosen, a.choices, e) <==> e.from.port == chosen)
  }

  /** So the chosen port's edges are the only live ones just when no other choice
      shares its target. */
  lemma ChoicePortIff(id: string, a: Attrs, chosen: string)
    requires a.RouterAttrs? && chosen in a.choices
    requires forall c :: c in a.choices ==> a.choices[c] != ""
    ensures RoutesByChoice(id, a, chosen) <==>
      forall c :: c in a.choices && c != chosen ==> a.choices[c] != a.choices[chosen]
  {
    forall e: Edge | e.from.node == id && e.from.port in a.choices && RouterEdgeIssues(id, a, e) == []
      ensures RouterLive(chosen, a.choices, e) <==> a.choices[e.from.port] == a.choices[chosen]
    {
      RouterPort(id, a, chosen, e);
    }
    forall c | c in a.choices && c != chosen && a.choices[c] == a.choices[chosen]
      ensures !RoutesByChoice(id, a, chosen)
    {
      var e := Edge(Endpoint(id, c), Endpoint(a.choices[c], ""));
      assert RouterEdgeIssues(id, a, e) == [];
    }
  }

  /** A node that recorded no verdict or no choice promotes everything, and an edge
      that is nobody's route is always live. */
  lemma AuditEdgesLive(nd: Node, outs: PortValues, e: Edge)
    requires nd.attrs.DecisionAttrs? ==>
      e.to.node !in {nd.attrs.nextTrue, nd.attrs.nextFalse} && e.from.port != "true" && e.from.port != "false"
    requires nd.attrs.RouterAttrs? ==> e.from.port !in nd.attrs.choices && e.to.node !in nd.attrs.choices.Values
    ensures nd.attrs.DecisionAttrs? ==> Live(DecisionLiveOutEdges(nd, outs), e)
    ensures nd.attrs.RouterAttrs? ==> Live(RouterLiveOutEdges(nd, outs), e)
    ensures "verdict" !in outs ==> forall d :: Live(DecisionLiveOutEdges(nd, outs), d)
    ensures "next" !in outs ==> forall d :: Live(RouterLiveOutEdges(nd, outs), d)
  {
    if nd.attrs.RouterAttrs? {
      forall c | c in nd.attrs.choices
        ensures nd.attrs.choices[c] in nd.attrs.choices.Values
      {
      }
    }
  }

  // ---- graphs drawn edge by edge ----

  /** Accepted edges are added, refused ones are not. */
  function Grown(r: Rules, g: Graph, tries: seq<Edge>): Graph {
    if |tries| == 0 then g
    else
      var h := Grown(r, g, tries[..|tries| - 1]);
      var e := tries[|tries| - 1];
      if CheckEdge(r, h, e) == [] then h.(edges := h.edges + [e]) else h
  }

  ghost predicate Drawable(r: Rules, g: Graph) {
    && r.cycles(g) == []
    && forall e :: e in g.edges ==> EdgePortIssues(r, g.nodes, e) == [] && EdgeRoutingIssues(g.nodes, e) == []
  }

  /** Whatever is tried, the graph keeps every per-edge rule and stays acyclic. */
  lemma {:induction false} GrownDrawable(r: Rules, g: Graph, tries: seq<Edge>)
    requires Drawable(r, g)
    ensures Drawable(r, Grown(r, g, tries)) && Grown(r, g, tries).nodes == g.nodes
  {
    if |tries| > 0 {
      GrownDrawable(r, g, tries[..|tries| - 1]);
      var h, e := Grown(r, g, tries[..|tries| - 1]), tries[|tries| - 1];
      if CheckEdge(r, h, e) == [] {
        AcceptedIff(r, h, e);
      }
    }
  }

  /** An edge is accepted exactly when it breaks no port rule and no routing rule and
      closes no cycle that was not there before. */
  lemma AcceptedIff(r: Rules, g: Graph, e: Edge)
    ensures CheckEdge(r, g, e) == [] <==>
      && EdgePortIssues(r, g.nodes, e) == [] && EdgeRoutingIssues(g.nodes, e) == []
      && (r.cycles(g) != [] || r.cycles(g.(edges := g.edges + [e])) == [])
  {
    var a, b, c := EdgePortIssues(r, g.nodes, e), EdgeRoutingIssues(g.nodes, e), EdgeCycleIssues(r, g, e);
    assert |a + b + c| == |a| + |b| + |c|;
  }

  /** In any graph so drawn, what a decision with two distinct successors promotes off
      its verdict ports is exactly what its verdict selected ... */
  lemma DrawnDecisionRoutes(r: Rules, g: Graph, tries: seq<Edge>, e: Edge, outs: PortValues)
    requires Drawable(r, g) && e in Grown(r, g, tries).edges && e.from.node in g.nodes
    requires g.nodes[e.from.node].kind.Decision? && TwoSuccessors(g.nodes[e.from.node].attrs)
    requires "verdict" in outs
    ensures var nd := g.nodes[e.from.node]; var v := Truthy(outs["verdict"]); var l := DecisionLiveOutEdges(nd, outs);
      && (Named(nd.attrs, e.to.node) ==> (Live(l, e) <==> e.to.node == Selected(nd.attrs, v)))
      && (forall p :: e.from.port == PortOf(p) ==>
            (Live(l, e) <==> p == v) && e.to.node == Selected(nd.attrs, p))
  {
    GrownDrawable(r, g, tries);
    var nd := g.nodes[e.from.node];
    SuccessorIff(nd.attrs);
    VerdictPortIff(e.from.node, nd.attrs);
    assert DecisionEdgeIssues(e.from.node, nd.attrs, e) == [];
    forall p | e.from.port == PortOf(p)
      ensures e.to.node == Selected(nd.attrs, p)
    {
      assert |PortOf(true)| == 4 && |PortOf(false)| == 5;
    }
  }

  /** ... and what a router promotes off its choice ports is the chosen target's. */
  lemma DrawnRouterRoutes(r: Rules, g: Graph, tries: seq<Edge>, e: Edge, outs: PortValues)
    requires Drawable(r, g) && e in Grown(r, g, tries).edges && e.from.node in g.nodes
    requires g.nodes[e.from.node].kind.Router? && g.nodes[e.from.node].attrs.RouterAttrs?
    requires forall c :: c in g.nodes[e.from.node].attrs.choices ==> g.nodes[e.from.node].attrs.choices[c] != ""
    requires "next" in outs && outs["next"].VString? && outs["next"].s != ""
    requires outs["next"].s in g.nodes[e.from.node].attrs.choices
    ensures var choices := g.nodes[e.from.node].attrs.choices; var l := RouterLiveOutEdges(g.nodes[e.from.node], outs);
      && (e.to.node in choices.Values ==> (Live(l, e) <==> e.to.node == choices[outs["next"].s]))
      && (e.from.port in choices ==> e.to.node == choices[e.from.port])
  {
    GrownDrawable(r, g, tries);
    var a := g.nodes[e.from.node].attrs;
    assert RouterEdgeIssues(e.from.node, a, e) == [];
    if e.to.node in a.choices.Values {
      var c :| c in a.choices && a.choices[c] == e.to.node;
      RouterSuccessor(outs["next"].s, a.choices, c, e);
    }
  }

  // ---- the rules for one edge, spelled out ----

  /** Port `i` is the first of this name. */
  predicate FirstNamed(ports: seq<Port>, i: int, name: string) {
    0 <= i < |ports| && ports[i].name == name && forall j :: 0 <= j < i ==> ports[j].name != name
  }

  ghost predicate HasPort(ports: seq<Port>, name: string) {
    exists p :: p in ports && p.name == name
  }

  lemma {:induction false} LookUpFirst(ports: seq<Port>, name: string) returns (i: int)
    ensures LookUpPort(ports, name).Some? <==> HasPort(ports, name)
    ensures HasPort(ports, name) ==> FirstNamed(ports, i, name) && LookUpPort(ports, name) == Some(ports[i])
  {
    i := 0;
    if |ports| > 0 {
      assert ports == [ports[0]] + ports[1..];
      if ports[0].name == name {
        assert ports[0] in ports;
      } else {
        var k := LookUpFirst(ports[1..], name);
        i := k + 1;
        assert HasPort(ports, name) ==> HasPort(ports[1..], name);
        assert HasPort(ports[1..], name) ==> HasPort(ports, name);
      }
    }
  }

  /** The edge joins output `i` of its source to input `j` of its target. */
  predicate Joins(nodes: map<string, Node>, e: Edge, i: int, j: int) {
    && e.from.node in nodes && e.to.node in nodes
    && FirstNamed(nodes[e.from.node].outs, i, e.from.port)
    && FirstNamed(nodes[e.to.node].ins, j, e.to.port)
  }

  /** And is faulted for their kinds alone. */
  predicate JoinVerdict(r: Rules, nodes: map<string, Node>, e: Edge, i: int, j: int, issues: seq<Issue>) {
    && Joins(nodes, e, i, j)
    && issues == if r.compatible(nodes[e.from.node].outs[i].kind, nodes[e.to.node].ins[j].kind) then [] else [TypeMismatch]
  }

  /** The port rules, in the order they are reported: both nodes are there, the source
      has the output, the target has the input, and the first ports of those names are
      of compatible kinds. */
  lemma PortRules(r: Rules, nodes: map<string, Node>, e: Edge)
    ensures var issues := EdgePortIssues(r, nodes, e);
      if e.from.node !in nodes then issues == [NoFromNode]
      else if e.to.node !in nodes then issues == [NoToNode]
      else if !HasPort(nodes[e.from.node].outs, e.from.port) then issues == [NoOutPort]
      else if !HasPort(nodes[e.to.node].ins, e.to.port) then issues == [NoInPort]
      else exists i, j :: JoinVerdict(r, nodes, e, i, j, issues)
  {
    if e.from.node in nodes && e.to.node in nodes {
      var i := LookUpFirst(nodes[e.from.node].outs, e.from.port);
      var j := LookUpFirst(nodes[e.to.node].ins, e.to.port);
      if HasPort(nodes[e.from.node].outs, e.from.port) && HasPort(nodes[e.to.node].ins, e.to.port) {
        assert JoinVerdict(r, nodes, e, i, j, EdgePortIssues(r, nodes, e));
      }
    }
  }

  /** The routing rule: an edge off a verdict port of a decision, or off a choice's port
      of a router, goes where the attributes send that verdict or choice, if anywhere. */
  lemma RoutingRule(nodes: map<string, Node>, e: Edge)
    requires e.from.node in nodes
    ensures var nd := nodes[e.from.node];
      EdgeRoutingIssues(nodes, e) == [] <==>
        && (nd.kind.Decision? && nd.attrs.DecisionAttrs? && e.from.port == "true" ==> nd.attrs.nextTrue in {"", e.to.node})
        && (nd.kind.Decision? && nd.attrs.DecisionAttrs? && e.from.port == "false" ==> nd.attrs.nextFalse in {"", e.to.node})
        && (nd.kind.Router? && nd.attrs.RouterAttrs? && e.from.port in nd.attrs.choices ==>
              nd.attrs.choices[e.from.port] in {"", e.to.node})
  {
    assert |"true"| == 4 && |"false"| == 5;
  }

  /** An edge with an end that is not in the graph is never blamed for a cycle. */
  lemma DanglingNoCycle(r: Rules, g: Graph, e: Edge)
    requires e.from.node !in g.nodes || e.to.node !in g.nodes
    ensures CheckEdge(r, g, e) == EdgePortIssues(r, g.nodes, e) + EdgeRoutingIssues(g.nodes, e)
  {
    var a, b := EdgePortIssues(r, g.nodes, e), EdgeRoutingIssues(g.nodes, e);
    assert a + b + [] == a + b;
  }

  // ---- what a verdict and a choice promote, in full ----

  /** The target a choice names; "" if it names none or is no choice. */
  function TargetOf(choices: map<string, string>, c: string): string {
    if c in choices then choices[c] else ""
  }

  ghost predicate OthersTarget(choices: map<string, string>, chosen: string, target: string) {
    exists c :: c in choices && c != chosen && choices[c] == target
  }

  /** Edges into the chosen target are live, and edges into another choice's target are
      not; any other edge is live unless it leaves a port named for another choice. */
  lemma ChosenPromotes(nd: Node, outs: PortValues, chosen: string, e: Edge)
    requires nd.attrs.RouterAttrs? && "next" in outs && outs["next"] == VString(chosen) && chosen != ""
    ensures var choices, to := nd.attrs.choices, e.to.node; var taken := TargetOf(choices, chosen);
      Live(RouterLiveOutEdges(nd, outs), e) <==>
        if to != "" && to == taken then true
        else if to != "" && OthersTarget(choices, chosen, to) then false
        else e.from.port in choices ==> e.from.port == chosen
  {
    var choices := nd.attrs.choices;
    forall c | c in choices && c != chosen
      ensures c in choices.Keys - {chosen}
    {
    }
  }

  /** Edges into the selected successor are live, and edges into the other one are not,
      the latter winning when both are the same node; any other edge is live unless it
      leaves the other verdict's port. */
  lemma VerdictPromotes(nd: Node, outs: PortValues, e: Edge)
    requires nd.attrs.DecisionAttrs? && "verdict" in outs
    ensures var v := Truthy(outs["verdict"]); var to := e.to.node;
      Live(DecisionLiveOutEdges(nd, outs), e) <==>
        if to != "" && to == (if v then nd.attrs.nextFalse else nd.attrs.nextTrue) then false
        else if to != "" && to == (if v then nd.attrs.nextTrue else nd.attrs.nextFalse) then true
        else e.from.port != if v then "false" else "true"
  {
    assert |"true"| == 4 && |"false"| == 5;
  }
}
