/** The routing launch gate: stripping the routed turn back to the classic chassis
    (core/agentgraph/routing_gate.go). */
module RoutingGate {
  import opened Wrappers
  import opened GraphEdges

  datatype Attrs = Loop(body: seq<string>, condition: string, maxIterations: int) | OtherAttrs(text: string)

  datatype Node = Node(id: string, kind: string, outputs: seq<string>, attrs: Attrs)

  datatype Graph = Graph(id: string, nodes: seq<Node>, edges: seq<Edge>, entrypoints: seq<string>)

  const ROUTED: set<string> := {"route", "exit_gate", "replan_check", "recover"}
  const AGENT_LOOP := "agent_loop"
  const ASSISTANT_WRITE := "assistant_write"
  const RECONNECT := Edge(Endpoint(AGENT_LOOP, "assistant_text"), Endpoint(ASSISTANT_WRITE, "assistant_text"))
  const CLASSIC_CONDITION := "tool_call_count > 0"
  const ROUTED_PORT := "next"

  /** core/agentgraph/graphs/chat_default_classic.yaml: its nodes and edges. */
  const CLASSIC := Graph(
    "chat_default_classic_fixture",
    [Node("history_in", "history_read", [], OtherAttrs("n: 0")),
     Node("compact_history", "compact", [], OtherAttrs("strategy: session_rewrite")),
     Node("ask_user", "ask", [], OtherAttrs("question")),
     Node("assistant_turn", "model", ["response", "assistant", "tool_calls", "finish_reason"], OtherAttrs("model: default")),
     Node("tool_dispatch", "tool_dispatch", [], OtherAttrs("max_concurrent: 4")),
     Node("agent_loop", "loop",
          ["out", "assistant_text", "assistant", "response", "tool_results", "tool_messages", "tool_call_count"],
          Loop(["assistant_turn", "tool_dispatch"], CLASSIC_CONDITION, 25)),
     Node("assistant_write", "session_write", [], OtherAttrs("role: assistant"))],
    [Edge(Endpoint("history_in", "messages"), Endpoint("compact_history", "input")),
     Edge(Endpoint("compact_history", "result"), Endpoint("ask_user", "context")),
     Edge(Endpoint("ask_user", "answer"), Endpoint("agent_loop", "in")),
     RECONNECT,
     Edge(Endpoint("ask_user", "answer"), Endpoint("assistant_turn", "messages")),
     Edge(Endpoint("assistant_turn", "tool_calls"), Endpoint("tool_dispatch", "tool_calls"))],
    ["history_in"])

  function Ids(g: Graph): set<string> {
    set n | n in g.nodes :: n.id
  }

  function Filter<T(!new)>(s: seq<T>, keep: T -> bool): (r: seq<T>)
    ensures forall x :: x in r <==> x in s && keep(x)
  {
    if |s| == 0 then []
    else Filter(s[..|s| - 1], keep) + if keep(s[|s| - 1]) then [s[|s| - 1]] else []
  }

  predicate KeepsId(id: string) {
    id !in ROUTED
  }

  predicate KeepsPort(p: string) {
    p != ROUTED_PORT
  }

  predicate KeepsEdge(e: Edge) {
    e.from.node !in ROUTED && e.to.node !in ROUTED
  }

  /** The loop gets its pre-routing body, condition and ports back. */
  function Restored(n: Node): Node {
    if n.id != AGENT_LOOP then n
    else
      var a := if n.attrs.Loop? then n.attrs.(body := Filter(n.attrs.body, KeepsId), condition := CLASSIC_CONDITION) else n.attrs;
      n.(attrs := a, outputs := Filter(n.outputs, KeepsPort))
  }

  function KeptNodes(nodes: seq<Node>): seq<Node> {
    if |nodes| == 0 then []
    else
      var n := nodes[|nodes| - 1];
      KeptNodes(nodes[..|nodes| - 1]) + if n.id in ROUTED then [] else [Restored(n)]
  }

  function KeptEdges(edges: seq<Edge>): seq<Edge> {
    Filter(edges, KeepsEdge)
  }

  function Stripped(g: Graph): Graph {
    var kept := KeptEdges(g.edges);
    g.(nodes := KeptNodes(g.nodes), edges := if RECONNECT in kept then kept else kept + [RECONNECT])
  }

  predicate Untouched(g: Graph) {
    ROUTED !! Ids(g)
  }

  /** All four routed nodes and both anchors: the shape the strip can undo. */
  predicate FullShape(g: Graph) {
    ROUTED <= Ids(g) && AGENT_LOOP in Ids(g) && ASSISTANT_WRITE in Ids(g)
  }

  /** `classic` is the embedded asset, absent if it failed to parse. */
  function Gated(g: Graph, enabled: bool, classic: Option<Graph>): Graph {
    if enabled || Untouched(g) then g
    else if FullShape(g) then Stripped(g)
    else if classic.Some? then classic.value
    else g
  }

  /** `GateAgenticTurnRouting` as written. */
  method GateAgenticTurnRouting(g: Graph, enabled: bool, classic: Option<Graph>) returns (out: Graph)
    ensures out == Gated(g, enabled, classic)
  {
    if enabled {
      return g;
    }
    var idx := IndexNodes(g);
    var present := |ROUTED * idx|;
    PresentCount(idx);
    if present == 0 {
      return g;
    }
    if present != |ROUTED| || AGENT_LOOP !in idx || ASSISTANT_WRITE !in idx {
      return if classic.None? then g else classic.value;
    }
    var nodes := StripNodes(g.nodes);
    var edges := Without(g.edges, KeepsEdge);
    var found := HasReconnect(edges);
    if !found {
      edges := edges + [RECONNECT];
    }
    out := g.(nodes := nodes, edges := edges);
  }

  method IndexNodes(g: Graph) returns (idx: set<string>)
    ensures idx == Ids(g)
  {
    idx := {};
    for i := 0 to |g.nodes|
      invariant idx == set n | n in g.nodes[..i] :: n.id
    {
      assert g.nodes[..i + 1] == g.nodes[..i] + [g.nodes[i]];
      idx := idx + {g.nodes[i].id};
    }
    assert g.nodes[..|g.nodes|] == g.nodes;
  }

  method StripNodes(all: seq<Node>) returns (nodes: seq<Node>)
    ensures nodes == KeptNodes(all)
  {
    nodes := [];
    for i := 0 to |all|
      invariant nodes == KeptNodes(all[..i])
    {
      var n := all[i];
      assert all[..i + 1][..i] == all[..i];
      if n.id in ROUTED {
        continue;
      }
      if n.id == AGENT_LOOP {
        if n.attrs.Loop? {
          var body := Without(n.attrs.body, KeepsId);
          n := n.(attrs := n.attrs.(body := body, condition := CLASSIC_CONDITION));
        }
        var outs := Without(n.outputs, KeepsPort);
        n := n.(outputs := outs);
      }
      assert n == Restored(all[i]);
      nodes := nodes + [n];
    }
    assert all[..|all|] == all;
  }

  method HasReconnect(edges: seq<Edge>) returns (found: bool)
    ensures found <==> RECONNECT in edges
  {
    found := false;
    for i := 0 to |edges|
      invariant !found ==> RECONNECT !in edges[..i]
      invariant found ==> RECONNECT in edges
    {
      if edges[i] == RECONNECT {
        found := true;
        break;
      }
    }
  }

  /** The copy loops of the source: append what is kept. */
  method Without<T(!new)>(s: seq<T>, keep: T -> bool) returns (r: seq<T>)
    ensures r == Filter(s, keep)
  {
    r := [];
    for i := 0 to |s|
      invariant r == Filter(s[..i], keep)
    {
      assert s[..i + 1][..i] == s[..i];
      if keep(s[i]) {
        r := r + [s[i]];
      }
    }
    assert s[..|s|] == s;
  }

  lemma PresentCount(idx: set<string>)
    ensures |ROUTED * idx| == 0 <==> ROUTED !! idx
    ensures |ROUTED * idx| == |ROUTED| <==> ROUTED <= idx
  {
    var p := ROUTED * idx;
    assert ROUTED == p + (ROUTED - idx);
    assert |ROUTED| == |p| + |ROUTED - idx|;
    if ROUTED <= idx {
      assert p == ROUTED;
    }
  }

  // ---- nothing routed remains ----

  predicate Clean(g: Graph) {
    && Untouched(g)
    && forall e :: e in g.edges ==> KeepsEdge(e)
  }

  predicate EdgesInGraph(g: Graph) {
    forall e :: e in g.edges ==> e.from.node in Ids(g) && e.to.node in Ids(g)
  }

  lemma {:induction false} KeptIds(nodes: seq<Node>)
    ensures (set n | n in KeptNodes(nodes) :: n.id) == (set n | n in nodes :: n.id) - ROUTED
    ensures forall m :: m in KeptNodes(nodes) <==> exists n :: n in nodes && n.id !in ROUTED && m == Restored(n)
  {
    if |nodes| > 0 {
      var n := nodes[|nodes| - 1];
      KeptIds(nodes[..|nodes| - 1]);
      assert nodes == nodes[..|nodes| - 1] + [n];
      assert Restored(n).id == n.id;
      forall m | exists n :: n in nodes && n.id !in ROUTED && m == Restored(n)
        ensures m in KeptNodes(nodes)
      {
      }
    }
  }

  lemma IdAt(g: Graph, i: nat)
    requires i < |g.nodes|
    ensures g.nodes[i].id in Ids(g)
  {
    assert g.nodes[i] in g.nodes;
  }

  lemma UnroutedByLength(id: string)
    requires |id| !in {5, 7, 9, 12}
    ensures id !in ROUTED
  {
    assert |"route"| == 5 && |"exit_gate"| == 9 && |"replan_check"| == 12 && |"recover"| == 7;
  }

  lemma ClassicKeeps(i: nat)
    requires i < 7
    ensures CLASSIC.nodes[i].id !in ROUTED
  {
    assert |CLASSIC.nodes[i].id| !in {5, 7, 9, 12};
    UnroutedByLength(CLASSIC.nodes[i].id);
  }

  /** The nodes the asset's edge `i` joins, by position. */
  function ClassicEnd(i: nat): (ends: (nat, nat))
    ensures ends.0 < 7 && ends.1 < 7
  {
    match i
    case 0 => (0, 1)
    case 1 => (1, 2)
    case 2 => (2, 5)
    case 3 => (5, 6)
    case 4 => (2, 3)
    case _ => (3, 4)
  }

  lemma ClassicFrom(i: nat)
    requires i < 6
    ensures CLASSIC.edges[i].from.node == CLASSIC.nodes[ClassicEnd(i).0].id
  {
  }

  lemma ClassicTo(i: nat)
    requires i < 6
    ensures CLASSIC.edges[i].to.node == CLASSIC.nodes[ClassicEnd(i).1].id
  {
  }

  lemma ClassicEnds(i: nat)
    requires i < 6
    ensures CLASSIC.edges[i].from.node in Ids(CLASSIC) && CLASSIC.edges[i].to.node in Ids(CLASSIC)
  {
    ClassicFrom(i);
    ClassicTo(i);
    IdAt(CLASSIC, ClassicEnd(i).0);
    IdAt(CLASSIC, ClassicEnd(i).1);
  }

  lemma ClassicClean()
    ensures Clean(CLASSIC)
  {
    forall i: nat | i < 7
      ensures CLASSIC.nodes[i].id !in ROUTED
    {
      ClassicKeeps(i);
    }
    assert forall n :: n in CLASSIC.nodes ==> exists i: nat :: i < 7 && CLASSIC.nodes[i] == n;
    forall i: nat | i < 6
      ensures KeepsEdge(CLASSIC.edges[i])
    {
      ClassicEnds(i);
    }
    assert forall e :: e in CLASSIC.edges ==> exists i: nat :: i < 6 && CLASSIC.edges[i] == e;
  }

  /** With the flag off nothing routed is left, unless the graph has drifted and the
      embedded asset is missing too; then, and only then, routed nodes survive. */
  lemma GateCleans(g: Graph, assetOk: bool)
    requires EdgesInGraph(g)
    ensures var out := Gated(g, false, if assetOk then Some(CLASSIC) else None);
      Clean(out) <==> Untouched(g) || FullShape(g) || assetOk
  {
    ClassicClean();
    KeptIds(g.nodes);
  }

  /** Applying the gate again changes nothing. */
  lemma GateIdempotent(g: Graph, assetOk: bool)
    ensures var classic := if assetOk then Some(CLASSIC) else None;
      Gated(Gated(g, false, classic), false, classic) == Gated(g, false, classic)
  {
    ClassicClean();
    KeptIds(g.nodes);
  }

  // ---- well-formed graphs stay well-formed ----

  predicate Distinct<T(==)>(s: seq<T>) {
    forall i, j :: 0 <= i < j < |s| ==> s[i] != s[j]
  }

  function IdList(nodes: seq<Node>): seq<string> {
    seq(|nodes|, i requires 0 <= i < |nodes| => nodes[i].id)
  }

  predicate BodiesInGraph(g: Graph) {
    forall n :: n in g.nodes && n.attrs.Loop? ==> forall b :: b in n.attrs.body ==> b in Ids(g)
  }

  predicate WellFormed(g: Graph) {
    && Distinct(IdList(g.nodes)) && Distinct(g.edges)
    && EdgesInGraph(g) && BodiesInGraph(g)
    && forall x :: x in g.entrypoints ==> x in Ids(g)
  }

  /** What the strip does not rewrite: other loops' bodies and the entrypoints. */
  predicate NoOtherUse(g: Graph) {
    && (forall n :: n in g.nodes && n.id !in ROUTED && n.id != AGENT_LOOP && n.attrs.Loop? ==>
          forall b :: b in n.attrs.body ==> b !in ROUTED)
    && (forall x :: x in g.entrypoints ==> x !in ROUTED)
  }

  lemma {:induction false} KeptDistinct(nodes: seq<Node>)
    requires Distinct(IdList(nodes))
    ensures Distinct(IdList(KeptNodes(nodes)))
  {
    if |nodes| > 0 {
      var g, n := nodes[..|nodes| - 1], nodes[|nodes| - 1];
      assert forall i :: 0 <= i < |g| ==> IdList(nodes)[i] == g[i].id && IdList(g)[i] == g[i].id;
      assert IdList(nodes)[|g|] == n.id;
      KeptDistinct(g);
      KeptIds(g);
      var k := KeptNodes(g);
      if n.id !in ROUTED {
        forall i | 0 <= i < |k|
          ensures k[i].id != n.id
        {
          assert k[i] in k;
          var m :| m in g && m.id !in ROUTED && k[i] == Restored(m);
          var j :| 0 <= j < |g| && g[j] == m;
          assert IdList(nodes)[j] != IdList(nodes)[|g|];
        }
        assert IdList(k + [Restored(n)]) == IdList(k) + [n.id];
      } else {
        assert k + [] == k;
      }
    }
  }

  lemma {:induction false} FilterDistinct<T(!new)>(s: seq<T>, keep: T -> bool)
    requires Distinct(s)
    ensures Distinct(Filter(s, keep))
  {
    if |s| > 0 {
      FilterDistinct(s[..|s| - 1], keep);
    }
  }

  /** A well-formed routed graph is stripped to a well-formed graph exactly when no
      other loop's body and no entrypoint names a routed node. */
  lemma StripWellFormedIff(g: Graph)
    requires WellFormed(g) && FullShape(g)
    ensures WellFormed(Stripped(g)) <==> NoOtherUse(g)
  {
    var out := Stripped(g);
    KeptIds(g.nodes);
    KeptDistinct(g.nodes);
    StripEdges(g);
    assert Ids(out) == Ids(g) - ROUTED;
    StripBodies(g);
  }

  lemma StripEdges(g: Graph)
    requires Distinct(g.edges) && EdgesInGraph(g) && FullShape(g)
    ensures Distinct(Stripped(g).edges) && EdgesInGraph(Stripped(g))
  {
    KeptIds(g.nodes);
    FilterDistinct(g.edges, KeepsEdge);
    assert Ids(Stripped(g)) == Ids(g) - ROUTED;
    assert |AGENT_LOOP| == 10 && |ASSISTANT_WRITE| == 15;
    UnroutedByLength(AGENT_LOOP);
    UnroutedByLength(ASSISTANT_WRITE);
    assert KeepsEdge(RECONNECT);
  }

  lemma StripBodies(g: Graph)
    requires BodiesInGraph(g)
    ensures BodiesInGraph(Stripped(g)) <==>
      forall n :: n in g.nodes && n.id !in ROUTED && n.id != AGENT_LOOP && n.attrs.Loop? ==>
        forall b :: b in n.attrs.body ==> b !in ROUTED
  {
    var out := Stripped(g);
    KeptIds(g.nodes);
    assert Ids(out) == Ids(g) - ROUTED;
    if BodiesInGraph(out) {
      forall n, b | n in g.nodes && n.id !in ROUTED && n.id != AGENT_LOOP && n.attrs.Loop? && b in n.attrs.body
        ensures b !in ROUTED
      {
        assert Restored(n) == n && n in out.nodes;
      }
    } else {
      var m :| m in out.nodes && m.attrs.Loop? && exists b :: b in m.attrs.body && b !in Ids(out);
      var b :| b in m.attrs.body && b !in Ids(out);
      var n :| n in g.nodes && n.id !in ROUTED && m == Restored(n);
      assert b in n.attrs.body;
    }
  }

  lemma ClassicIdsDiffer(i: nat, j: nat)
    requires i < j < 7
    ensures CLASSIC.nodes[i].id != CLASSIC.nodes[j].id
  {
    var a, b := CLASSIC.nodes[i].id, CLASSIC.nodes[j].id;
    assert |a| != |b| || a[0] != b[0];
  }

  lemma ClassicEdgesDiffer(i: nat, j: nat)
    requires i < j < 6
    ensures CLASSIC.edges[i] != CLASSIC.edges[j]
  {
    var a, b := CLASSIC.edges[i], CLASSIC.edges[j];
    assert |a.from.node| != |b.from.node| || |a.to.node| != |b.to.node| || a.from.node[0] != b.from.node[0];
  }

  lemma ClassicDistinct()
    ensures Distinct(IdList(CLASSIC.nodes)) && Distinct(CLASSIC.edges)
  {
    forall i, j | 0 <= i < j < 7
      ensures IdList(CLASSIC.nodes)[i] != IdList(CLASSIC.nodes)[j]
    {
      ClassicIdsDiffer(i, j);
    }
    forall i, j | 0 <= i < j < 6
      ensures CLASSIC.edges[i] != CLASSIC.edges[j]
    {
      ClassicEdgesDiffer(i, j);
    }
  }

  lemma ClassicBodies()
    ensures BodiesInGraph(CLASSIC)
  {
    IdAt(CLASSIC, 3);
    IdAt(CLASSIC, 4);
    forall n, b | n in CLASSIC.nodes && n.attrs.Loop? && b in n.attrs.body
      ensures b in Ids(CLASSIC)
    {
      var i :| 0 <= i < 7 && CLASSIC.nodes[i] == n;
      assert i == 5;
      assert b == CLASSIC.nodes[3].id || b == CLASSIC.nodes[4].id;
    }
  }

  lemma ClassicEdgesInGraph()
    ensures EdgesInGraph(CLASSIC)
  {
    forall i: nat | i < 6
      ensures CLASSIC.edges[i].from.node in Ids(CLASSIC) && CLASSIC.edges[i].to.node in Ids(CLASSIC)
    {
      ClassicEnds(i);
    }
    assert forall e :: e in CLASSIC.edges ==> exists i: nat :: i < 6 && CLASSIC.edges[i] == e;
  }

  lemma ClassicWellFormed()
    ensures WellFormed(CLASSIC)
  {
    ClassicDistinct();
    ClassicBodies();
    ClassicEdgesInGraph();
    IdAt(CLASSIC, 0);
  }

  /** With the flag off a well-formed graph becomes a well-formed graph, except when
      the strip leaves a body or an entrypoint naming a node it dropped. */
  lemma GateWellFormedIff(g: Graph, assetOk: bool)
    requires WellFormed(g)
    ensures WellFormed(Gated(g, false, if assetOk then Some(CLASSIC) else None)) <==> (FullShape(g) ==> NoOtherUse(g))
  {
    ClassicWellFormed();
    assert "route" in ROUTED;
    if FullShape(g) {
      StripWellFormedIff(g);
    }
  }

  // ---- the strip undoes the rewrite ----

  /** The routed loop: routed steps added to the body, the choice port added to the
      outputs, any condition. */
  predicate RewrittenNode(c: Node, r: Node) {
    if c.id != AGENT_LOOP then r == c
    else
      && c.attrs.Loop? && r.attrs.Loop?
      && r.id == c.id && r.kind == c.kind && r.attrs.maxIterations == c.attrs.maxIterations
      && c.attrs.condition == CLASSIC_CONDITION
      && Filter(r.attrs.body, KeepsId) == c.attrs.body
      && Filter(r.outputs, KeepsPort) == c.outputs
  }

  /** `r` is `c` with routed nodes put in anywhere. */
  predicate RewrittenNodes(c: seq<Node>, r: seq<Node>)
    decreases |r|
  {
    if |r| == 0 then |c| == 0
    else if r[|r| - 1].id in ROUTED then RewrittenNodes(c, r[..|r| - 1])
    else
      && |c| > 0
      && RewrittenNode(c[|c| - 1], r[|r| - 1])
      && RewrittenNodes(c[..|c| - 1], r[..|r| - 1])
  }

  /** The routed form of `c`: its loop-to-writer edge gone, and new edges that all
      touch a routed node. */
  predicate RewriteOf(r: Graph, c: Graph, added: seq<Edge>) {
    && RewrittenNodes(c.nodes, r.nodes)
    && (forall e :: e in added ==> !KeepsEdge(e))
    && multiset(r.edges) == multiset(c.edges) - multiset{RECONNECT} + multiset(added)
  }

  lemma {:induction false} StripRestoresNodes(c: seq<Node>, r: seq<Node>)
    requires RewrittenNodes(c, r)
    ensures KeptNodes(r) == c
    decreases |r|
  {
    if |r| > 0 {
      var n := r[|r| - 1];
      if n.id in ROUTED {
        StripRestoresNodes(c, r[..|r| - 1]);
      } else {
        StripRestoresNodes(c[..|c| - 1], r[..|r| - 1]);
        assert Restored(n) == c[|c| - 1];
      }
    }
  }

  lemma {:induction false} FilterCount<T(!new)>(s: seq<T>, keep: T -> bool, x: T)
    ensures multiset(Filter(s, keep))[x] == if keep(x) then multiset(s)[x] else 0
  {
    if |s| > 0 {
      var last := s[|s| - 1];
      FilterCount(s[..|s| - 1], keep, x);
      assert s == s[..|s| - 1] + [last];
    }
  }

  /** The flag's promise: stripping the routed form of a classic graph gives that
      classic graph back, node for node and, order aside, edge for edge. */
  lemma StripUndoesRewrite(r: Graph, c: Graph, added: seq<Edge>)
    requires RewriteOf(r, c, added)
    requires forall e :: e in c.edges ==> KeepsEdge(e)
    requires multiset(c.edges)[RECONNECT] == 1
    ensures Stripped(r).nodes == c.nodes
    ensures multiset(Stripped(r).edges) == multiset(c.edges)
  {
    StripRestoresNodes(c.nodes, r.nodes);
    var kept := KeptEdges(r.edges);
    forall e
      ensures multiset(kept)[e] == (multiset(c.edges) - multiset{RECONNECT})[e]
    {
      FilterCount(r.edges, KeepsEdge, e);
      if !KeepsEdge(e) {
        assert e !in multiset(c.edges);
      } else {
        assert e !in multiset(added);
      }
    }
    assert multiset(kept) == multiset(c.edges) - multiset{RECONNECT};
    assert RECONNECT !in multiset(kept);
  }

  // ---- reachability ----

  predicate Linked(edges: seq<Edge>, a: string, b: string) {
    exists e :: e in edges && e.from.node == a && e.to.node == b
  }

  ghost predicate Path(edges: seq<Edge>, p: seq<string>) {
    |p| > 0 && forall i :: 0 <= i < |p| - 1 ==> Linked(edges, p[i], p[i + 1])
  }

  ghost predicate PathBetween(edges: seq<Edge>, p: seq<string>, a: string, b: string) {
    Path(edges, p) && p[0] == a && p[|p| - 1] == b
  }

  ghost predicate Reaches(edges: seq<Edge>, a: string, b: string) {
    exists p :: PathBetween(edges, p, a, b)
  }

  ghost predicate Acyclic(edges: seq<Edge>) {
    forall a, b :: Linked(edges, a, b) ==> !Reaches(edges, b, a)
  }

  lemma ReachLink(edges: seq<Edge>, a: string, b: string)
    ensures Reaches(edges, a, a)
    ensures Linked(edges, a, b) ==> Reaches(edges, a, b)
  {
    assert PathBetween(edges, [a], a, a);
    if Linked(edges, a, b) {
      assert PathBetween(edges, [a, b], a, b);
    }
  }

  lemma ReachTransitive(edges: seq<Edge>, a: string, b: string, c: string)
    requires Reaches(edges, a, b) && Reaches(edges, b, c)
    ensures Reaches(edges, a, c)
  {
    var p :| PathBetween(edges, p, a, b);
    var q :| PathBetween(edges, q, b, c);
    var r := p + q[1..];
    forall i | 0 <= i < |r| - 1
      ensures Linked(edges, r[i], r[i + 1])
    {
      if i >= |p| - 1 {
        assert r[i] == q[i - |p| + 1] && r[i + 1] == q[i - |p| + 2];
      }
    }
    assert PathBetween(edges, r, a, c);
  }

  /** If every link of `more` is reachable in `edges`, so is every path. */
  lemma {:induction false} PathLifts(edges: seq<Edge>, more: seq<Edge>, p: seq<string>)
    requires forall x, y :: Linked(more, x, y) ==> Reaches(edges, x, y)
    requires Path(more, p)
    ensures Reaches(edges, p[0], p[|p| - 1])
    decreases |p|
  {
    if |p| == 1 {
      ReachLink(edges, p[0], p[0]);
    } else {
      var q := p[..|p| - 1];
      assert Path(more, q);
      PathLifts(edges, more, q);
      assert Linked(more, p[|p| - 2], p[|p| - 1]);
      ReachTransitive(edges, p[0], p[|p| - 2], p[|p| - 1]);
    }
  }

  lemma StripLinks(g: Graph, a: string, b: string)
    ensures Linked(Stripped(g).edges, a, b) ==>
      Linked(g.edges, a, b) || (a == AGENT_LOOP && b == ASSISTANT_WRITE)
    ensures Linked(Stripped(g).edges, AGENT_LOOP, ASSISTANT_WRITE)
  {
    assert RECONNECT in Stripped(g).edges;
  }

  /** Stripping creates no new reachability exactly when the loop already reached
      the writer. */
  lemma StripReachability(g: Graph)
    ensures (forall a, b :: Reaches(Stripped(g).edges, a, b) ==> Reaches(g.edges, a, b))
      <==> Reaches(g.edges, AGENT_LOOP, ASSISTANT_WRITE)
  {
    StripLinks(g, AGENT_LOOP, ASSISTANT_WRITE);
    ReachLink(Stripped(g).edges, AGENT_LOOP, ASSISTANT_WRITE);
    if Reaches(g.edges, AGENT_LOOP, ASSISTANT_WRITE) {
      LinksLift(g);
      forall a, b | Reaches(Stripped(g).edges, a, b)
        ensures Reaches(g.edges, a, b)
      {
        var p :| PathBetween(Stripped(g).edges, p, a, b);
        PathLifts(g.edges, Stripped(g).edges, p);
      }
    }
  }

  lemma LinksLift(g: Graph)
    requires Reaches(g.edges, AGENT_LOOP, ASSISTANT_WRITE)
    ensures forall x, y :: Linked(Stripped(g).edges, x, y) ==> Reaches(g.edges, x, y)
  {
    forall x, y | Linked(Stripped(g).edges, x, y)
      ensures Reaches(g.edges, x, y)
    {
      StripLinks(g, x, y);
      ReachLink(g.edges, x, y);
    }
  }

  /** A path of the stripped graph either keeps to the kept edges or takes the
      reconnecting edge, first and last. */
  ghost predicate ViaReconnect(kept: seq<Edge>, a: string, b: string) {
    Reaches(kept, a, AGENT_LOOP) && Reaches(kept, ASSISTANT_WRITE, b)
  }

  lemma KeptLinks(g: Graph, a: string, b: string)
    ensures Linked(Stripped(g).edges, a, b) <==>
      Linked(KeptEdges(g.edges), a, b) || (a == AGENT_LOOP && b == ASSISTANT_WRITE)
    ensures Linked(KeptEdges(g.edges), a, b) ==> Linked(g.edges, a, b)
  {
    assert RECONNECT in Stripped(g).edges;
    assert forall e :: e in KeptEdges(g.edges) ==> e in Stripped(g).edges;
  }

  lemma {:induction false} StrippedPath(g: Graph, p: seq<string>)
    requires Path(Stripped(g).edges, p)
    ensures var kept := KeptEdges(g.edges);
      Reaches(kept, p[0], p[|p| - 1]) || ViaReconnect(kept, p[0], p[|p| - 1])
    decreases |p|
  {
    var kept := KeptEdges(g.edges);
    if |p| == 1 {
      ReachLink(kept, p[0], p[0]);
    } else {
      var q, y, z := p[..|p| - 1], p[|p| - 2], p[|p| - 1];
      StrippedPath(g, q);
      assert Linked(Stripped(g).edges, y, z);
      KeptLinks(g, y, z);
      ReachLink(kept, y, z);
      ReachLink(kept, ASSISTANT_WRITE, ASSISTANT_WRITE);
      if Linked(kept, y, z) {
        if Reaches(kept, p[0], y) {
          ReachTransitive(kept, p[0], y, z);
        } else {
          ReachTransitive(kept, ASSISTANT_WRITE, y, z);
        }
      }
    }
  }

  lemma KeptReaches(g: Graph, a: string, b: string)
    requires Reaches(KeptEdges(g.edges), a, b)
    ensures Reaches(g.edges, a, b) && Reaches(Stripped(g).edges, a, b)
  {
    var kept := KeptEdges(g.edges);
    var p :| PathBetween(kept, p, a, b);
    forall x, y | Linked(kept, x, y)
      ensures Reaches(g.edges, x, y) && Reaches(Stripped(g).edges, x, y)
    {
      KeptLinks(g, x, y);
      ReachLink(g.edges, x, y);
      ReachLink(Stripped(g).edges, x, y);
    }
    PathLifts(g.edges, kept, p);
    PathLifts(Stripped(g).edges, kept, p);
  }

  /** A link that closes a cycle of the stripped graph closes one of the input, or the
      writer reaches the loop through kept edges. */
  lemma StrippedCycle(g: Graph, a: string, b: string)
    requires Linked(Stripped(g).edges, a, b) && Reaches(Stripped(g).edges, b, a)
    ensures Reaches(KeptEdges(g.edges), ASSISTANT_WRITE, AGENT_LOOP) || (Linked(g.edges, a, b) && Reaches(g.edges, b, a))
  {
    var kept := KeptEdges(g.edges);
    var p :| PathBetween(Stripped(g).edges, p, b, a);
    StrippedPath(g, p);
    KeptLinks(g, a, b);
    ReachLink(kept, a, b);
    if Reaches(kept, b, a) {
      KeptReaches(g, b, a);
    } else if Linked(kept, a, b) {
      ReachTransitive(kept, ASSISTANT_WRITE, a, b);
      ReachTransitive(kept, ASSISTANT_WRITE, b, AGENT_LOOP);
    }
  }

  /** An acyclic graph is stripped to an acyclic one exactly when its writer does not
      reach its loop without passing a routed node. */
  lemma StripAcyclicIff(g: Graph)
    requires Acyclic(g.edges)
    ensures Acyclic(Stripped(g).edges) <==> !Reaches(KeptEdges(g.edges), ASSISTANT_WRITE, AGENT_LOOP)
  {
    KeptLinks(g, AGENT_LOOP, ASSISTANT_WRITE);
    if Reaches(KeptEdges(g.edges), ASSISTANT_WRITE, AGENT_LOOP) {
      KeptReaches(g, ASSISTANT_WRITE, AGENT_LOOP);
    } else {
      forall a, b | Linked(Stripped(g).edges, a, b)
        ensures !Reaches(Stripped(g).edges, b, a)
      {
        if Reaches(Stripped(g).edges, b, a) {
          StrippedCycle(g, a, b);
        }
      }
    }
  }

  /** In particular one whose loop reaches its writer. */
  lemma StripAcyclic(g: Graph)
    requires Acyclic(g.edges) && Reaches(g.edges, AGENT_LOOP, ASSISTANT_WRITE)
    ensures Acyclic(Stripped(g).edges)
  {
    StripAcyclicIff(g);
    if Reaches(KeptEdges(g.edges), ASSISTANT_WRITE, AGENT_LOOP) {
      KeptReaches(g, ASSISTANT_WRITE, AGENT_LOOP);
      var p :| PathBetween(g.edges, p, AGENT_LOOP, ASSISTANT_WRITE);
      assert |p| > 1 && Linked(g.edges, p[0], p[1]);
      assert PathBetween(g.edges, p[1..], p[1], ASSISTANT_WRITE);
      ReachTransitive(g.edges, p[1], ASSISTANT_WRITE, AGENT_LOOP);
    }
  }

  // ---- the gate's cases, spelled out ----

  ghost predicate HasNode(g: Graph, id: string) {
    exists n :: n in g.nodes && n.id == id
  }

  predicate Routed(id: string) {
    id == "route" || id == "exit_gate" || id == "replan_check" || id == "recover"
  }

  ghost predicate AllRouted(g: Graph) {
    HasNode(g, "route") && HasNode(g, "exit_gate") && HasNode(g, "replan_check") && HasNode(g, "recover")
  }

  lemma HasNodeIff(g: Graph, id: string)
    ensures HasNode(g, id) <==> id in Ids(g)
  {
  }

  lemma UntouchedIff(g: Graph)
    ensures Untouched(g) <==> forall id :: Routed(id) ==> !HasNode(g, id)
  {
    forall id
      ensures HasNode(g, id) <==> id in Ids(g)
    {
      HasNodeIff(g, id);
    }
    assert forall id :: id in ROUTED <==> Routed(id);
  }

  lemma FullShapeIff(g: Graph)
    ensures FullShape(g) <==> AllRouted(g) && HasNode(g, "agent_loop") && HasNode(g, "assistant_write")
  {
    HasNodeIff(g, "route");
    HasNodeIff(g, "exit_gate");
    HasNodeIff(g, "replan_check");
    HasNodeIff(g, "recover");
    HasNodeIff(g, "agent_loop");
    HasNodeIff(g, "assistant_write");
  }

  /** With the flag on, or nothing routed in it, a graph passes as authored.  With the flag
      off the full routed shape is stripped, and anything in between gives way to the
      embedded asset where there is one. */
  lemma GateCases(g: Graph, enabled: bool, classic: Option<Graph>)
    ensures var out := Gated(g, enabled, classic);
      if enabled || (forall id :: Routed(id) ==> !HasNode(g, id)) then out == g
      else if AllRouted(g) && HasNode(g, "agent_loop") && HasNode(g, "assistant_write") then out == Stripped(g)
      else out == match classic case Some(c) => c case None => g
  {
    UntouchedIff(g);
    FullShapeIff(g);
  }

  /** What the loop node gets back: its routed body nodes and its `next` port gone, the
      classic condition, all else as it was; every other node is left alone. */
  ghost predicate GivenBack(n: Node, m: Node) {
    && m.id == n.id && m.kind == n.kind
    && (n.id != "agent_loop" ==> m == n)
    && (n.id == "agent_loop" ==> (forall p :: p in m.outputs <==> p in n.outputs && p != "next"))
    && (n.id == "agent_loop" && !n.attrs.Loop? ==> m.attrs == n.attrs)
    && (n.id == "agent_loop" && n.attrs.Loop? ==>
          && m.attrs.Loop? && m.attrs.condition == "tool_call_count > 0" && m.attrs.maxIterations == n.attrs.maxIterations
          && (forall b :: b in m.attrs.body <==> b in n.attrs.body && !Routed(b)))
  }

  lemma RestoredGivesBack(n: Node)
    ensures GivenBack(n, Restored(n))
  {
    assert forall id :: id in ROUTED <==> Routed(id);
  }

  lemma {:induction false} KeptInOrder(nodes: seq<Node>)
    ensures IdList(KeptNodes(nodes)) == Filter(IdList(nodes), KeepsId)
  {
    if |nodes| > 0 {
      var g, n := nodes[..|nodes| - 1], nodes[|nodes| - 1];
      KeptInOrder(g);
      assert IdList(nodes)[..|nodes| - 1] == IdList(g);
      assert Restored(n).id == n.id;
    }
  }

  /** The strip, node by node and edge by edge: the unrouted nodes in their order, each
      given back; the edges with no routed end; and the classic edge from the loop to the
      writer, which it adds only if it is not there. */
  lemma StripMeans(g: Graph)
    ensures var out := Stripped(g);
      && out.id == g.id && out.entrypoints == g.entrypoints
      && IdList(out.nodes) == Filter(IdList(g.nodes), KeepsId)
      && (forall m :: m in out.nodes ==> exists n :: n in g.nodes && !Routed(n.id) && GivenBack(n, m))
      && (forall e :: e in out.edges <==>
            || (e in g.edges && !Routed(e.from.node) && !Routed(e.to.node))
            || e == Edge(Endpoint("agent_loop", "assistant_text"), Endpoint("assistant_write", "assistant_text")))
  {
    KeptInOrder(g.nodes);
    KeptIds(g.nodes);
    assert forall id :: id in ROUTED <==> Routed(id);
    forall m | m in Stripped(g).nodes
      ensures exists n :: n in g.nodes && !Routed(n.id) && GivenBack(n, m)
    {
      var n :| n in g.nodes && n.id !in ROUTED && m == Restored(n);
      RestoredGivesBack(n);
    }
  }
}
