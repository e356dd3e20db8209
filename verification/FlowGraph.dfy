/** Flow graphs: routing along labelled edges, reachability, and the lint that names dead nodes (src/flow_exec.rs). */
module FlowGraph {
  import opened Prelude

  datatype NodeKind = Entry | Prompt | Tool | Http | SubAgent | Branch | End | OtherCore(wire: string)
      | Custom(wire: string)

  /** The named fields are those of a node's data that are read directly; `data` is the rest. */
  datatype Node = Node(
    id: string,
    kind: NodeKind,
    prompt: Option<string>,
    persona: Option<string>,
    maxSteps: Option<nat>,
    defaultHandle: Option<string>,
    data: string)

  datatype FlowEdge = FlowEdge(source: string, target: string, handle: Option<string>)

  datatype Graph = Graph(nodes: seq<Node>, edges: seq<FlowEdge>)

  datatype Flow = Flow(id: string, graph: Graph)

  // ----- routing -----

  /** The first edge leaving `source` that carries one of the wanted labels. */
  function FirstEdge(edges: seq<FlowEdge>, source: string, labels: set<Option<string>>): (r: Option<string>)
    ensures r.Some? ==> exists e :: e in edges && e.source == source && e.handle in labels && e.target == r.value
    ensures r.None? ==> forall e :: e in edges && e.source == source ==> e.handle !in labels
  {
    if edges == [] then None
    else if edges[0].source == source && edges[0].handle in labels then Some(edges[0].target)
    else FirstEdge(edges[1..], source, labels)
  }

  const FALLBACK: set<Option<string>> := {None, Some("default")}

  /** The edge with the handle's label, else the unlabelled (or `default`) one, else none. */
  function NextByHandle(g: Graph, source: string, handle: Option<string>): Option<string> {
    var labelled := if handle.Some? then FirstEdge(g.edges, source, {handle}) else None;
    if labelled.Some? then labelled else FirstEdge(g.edges, source, FALLBACK)
  }

  /** `edges[i]` is the first edge that leaves `source` with one of these labels. */
  ghost predicate FirstLeaving(edges: seq<FlowEdge>, source: string, labels: set<Option<string>>, i: nat) {
    && i < |edges| && edges[i].source == source && edges[i].handle in labels
    && forall j :: 0 <= j < i && edges[j].source == source ==> edges[j].handle !in labels
  }

  lemma {:induction false} FirstEdgeIs(edges: seq<FlowEdge>, source: string, labels: set<Option<string>>, i: nat)
    requires FirstLeaving(edges, source, labels, i)
    ensures FirstEdge(edges, source, labels) == Some(edges[i].target)
    decreases i
  {
    if i > 0 {
      assert edges[0].source == source ==> edges[0].handle !in labels;
      FirstEdgeIs(edges[1..], source, labels, i - 1);
    }
  }

  /** Routing by a handle takes the first edge that carries it, whatever unlabelled edges stand before. */
  lemma RoutingTakesHandle(g: Graph, source: string, handle: string, i: nat)
    requires FirstLeaving(g.edges, source, {Some(handle)}, i)
    ensures NextByHandle(g, source, Some(handle)) == Some(g.edges[i].target)
  {
    FirstEdgeIs(g.edges, source, {Some(handle)}, i);
  }

  /** With no handle, or one no edge out of the node carries, it takes the first unlabelled or `default` edge. */
  lemma RoutingFallsBack(g: Graph, source: string, handle: Option<string>, i: nat)
    requires handle.Some? ==> forall e :: e in g.edges && e.source == source ==> e.handle != handle
    requires FirstLeaving(g.edges, source, {None, Some("default")}, i)
    ensures NextByHandle(g, source, handle) == Some(g.edges[i].target)
  {
    FirstEdgeIs(g.edges, source, {None, Some("default")}, i);
  }

  /** And it ends exactly when no edge out of the node carries the handle, is unlabelled or is a `default` one. */
  lemma RoutingEnds(g: Graph, source: string, handle: Option<string>)
    ensures NextByHandle(g, source, handle).None? <==>
      forall e :: e in g.edges && e.source == source ==>
        e.handle != None && e.handle != Some("default") && e.handle != handle
  {
  }

  predicate Linked(edges: seq<FlowEdge>, a: string, b: string) {
    exists e | e in edges :: e.source == a && e.target == b
  }

  lemma RoutingFollowsEdges(g: Graph, source: string, handle: Option<string>)
    ensures NextByHandle(g, source, handle).Some? ==> Linked(g.edges, source, NextByHandle(g, source, handle).value)
  {
  }

  // ----- reachability -----

  /** There is a walk of exactly `k` edges from `a` to `b`. */
  ghost predicate Walk(edges: seq<FlowEdge>, a: string, b: string, k: nat)
    decreases k
  {
    if k == 0 then a == b else exists c :: Walk(edges, a, c, k - 1) && Linked(edges, c, b)
  }

  ghost predicate Reachable(edges: seq<FlowEdge>, a: string, b: string) {
    exists k: nat :: Walk(edges, a, b, k)
  }

  lemma WalkExtends(edges: seq<FlowEdge>, a: string, b: string, c: string, k: nat)
    requires Walk(edges, a, b, k) && Linked(edges, b, c)
    ensures Walk(edges, a, c, k + 1) && Reachable(edges, a, c)
  {
    hide Linked;
    assert Walk(edges, a, b, k + 1 - 1) && Linked(edges, b, c);
    assert Walk(edges, a, c, k + 1);
  }

  ghost predicate ClosedUnder(edges: seq<FlowEdge>, s: set<string>) {
    forall e :: e in edges && e.source in s ==> e.target in s
  }

  lemma {:induction false} ClosedHoldsWalks(edges: seq<FlowEdge>, s: set<string>, a: string, b: string, k: nat)
    requires a in s && ClosedUnder(edges, s) && Walk(edges, a, b, k)
    ensures b in s
    decreases k
  {
    if k > 0 {
      var c :| Walk(edges, a, c, k - 1) && Linked(edges, c, b);
      ClosedHoldsWalks(edges, s, a, c, k - 1);
    }
  }

  function Targets(edges: seq<FlowEdge>, source: string): (ts: seq<string>)
    ensures forall t :: t in ts <==> Linked(edges, source, t)
  {
    if edges == [] then []
    else
      var rest := Targets(edges[1..], source);
      assert edges == [edges[0]] + edges[1..];
      if edges[0].source == source then [edges[0].target] + rest else rest
  }

  function Outgoing(adjacency: map<string, seq<string>>, source: string): seq<string> {
    if source in adjacency then adjacency[source] else []
  }

  lemma {:induction false} TargetsAppend(edges: seq<FlowEdge>, e: FlowEdge, source: string)
    ensures Targets(edges + [e], source) == Targets(edges, source) + (if e.source == source then [e.target] else [])
  {
    if edges == [] {
      assert edges + [e] == [e];
      assert [e][1..] == [];
    } else {
      assert (edges + [e])[1..] == edges[1..] + [e];
      TargetsAppend(edges[1..], e, source);
    }
  }

  /** Group the edges by source, keeping their order. */
  method Adjacency(edges: seq<FlowEdge>) returns (adjacency: map<string, seq<string>>)
    ensures forall n :: Outgoing(adjacency, n) == Targets(edges, n)
  {
    adjacency := map[];
    for i := 0 to |edges|
      invariant forall n :: Outgoing(adjacency, n) == Targets(edges[..i], n)
    {
      var e := edges[i];
      assert edges[..i + 1] == edges[..i] + [e];
      ghost var before := adjacency;
      adjacency := adjacency[e.source := Outgoing(adjacency, e.source) + [e.target]];
      forall n
        ensures Outgoing(adjacency, n) == Targets(edges[..i + 1], n)
      {
        TargetsAppend(edges[..i], e, n);
        assert Outgoing(before, n) == Targets(edges[..i], n);
      }
    }
    assert edges[..|edges|] == edges;
  }

  // ----- the entry node and the lint for dead nodes -----

  function FirstEntry(nodes: seq<Node>): (r: Option<Node>)
    ensures r.Some? ==> r.value in nodes && r.value.kind == Entry
    ensures r.None? ==> forall n :: n in nodes ==> n.kind != Entry
  {
    if nodes == [] then None
    else if nodes[0].kind == Entry then Some(nodes[0])
    else FirstEntry(nodes[1..])
  }

  /** The entry is the first node of its kind. */
  lemma {:induction false} FirstEntryIs(nodes: seq<Node>, i: nat)
    requires i < |nodes| && nodes[i].kind == Entry && forall j :: 0 <= j < i ==> nodes[j].kind != Entry
    ensures FirstEntry(nodes) == Some(nodes[i])
    decreases i
  {
    if i > 0 {
      FirstEntryIs(nodes[1..], i - 1);
    }
  }

  ghost function Universe(edges: seq<FlowEdge>, start: string): set<string> {
    {start} + set i | 0 <= i < |edges| :: edges[i].target
  }

  /** Mark and queue the targets that are not marked yet. */
  method QueueUnseen(targets: seq<string>, seen: set<string>, queue: seq<string>)
    returns (seen': set<string>, queue': seq<string>)
    ensures forall x :: x in seen' <==> x in seen || x in targets
    ensures forall x :: x in queue' <==> x in queue || (x in seen' && x !in seen)
    ensures seen' == seen ==> queue' == queue
  {
    seen', queue' := seen, queue;
    for i := 0 to |targets|
      invariant forall x :: x in seen' <==> x in seen || x in targets[..i]
      invariant forall x :: x in queue' <==> x in queue || (x in seen' && x !in seen)
      invariant seen <= seen' && (seen' == seen ==> queue' == queue)
    {
      var t := targets[i];
      assert targets[..i + 1] == targets[..i] + [t];
      if t !in seen' {
        seen' := seen' + {t};
        queue' := queue' + [t];
      }
    }
    assert targets[..|targets|] == targets;
  }

  /** Breadth-first search that marks a node when it is queued: the marked nodes are exactly the reachable ones. */
  method MarkReachable(edges: seq<FlowEdge>, start: string) returns (seen: set<string>)
    ensures forall x :: x in seen <==> Reachable(edges, start, x)
  {
    var adjacency := Adjacency(edges);
    var queue := [start];
    seen := {start};
    assert Walk(edges, start, start, 0);
    while queue != []
      invariant start in seen && seen <= Universe(edges, start)
      invariant forall x :: x in seen ==> Reachable(edges, start, x)
      invariant forall x :: x in queue ==> x in seen
      invariant forall e :: e in edges && e.source in seen && e.source !in queue ==> e.target in seen
      decreases Universe(edges, start) - seen, |queue|
    {
      var cur := queue[0];
      assert queue == [cur] + queue[1..];
      TargetsAreReachable(edges, start, cur);
      ghost var before, waiting := seen, queue;
      seen, queue := QueueUnseen(Outgoing(adjacency, cur), seen, queue[1..]);
      assert Outgoing(adjacency, cur) == Targets(edges, cur);
      assert seen != before ==> before < seen;
      forall e | e in edges && e.source in seen && e.source !in queue
        ensures e.target in seen
      {
        assert e.source in before;
        assert Linked(edges, e.source, e.target);
      }
    }
    forall x | Reachable(edges, start, x)
      ensures x in seen
    {
      var k: nat :| Walk(edges, start, x, k);
      ClosedHoldsWalks(edges, seen, start, x, k);
    }
  }

  lemma TargetsAreReachable(edges: seq<FlowEdge>, start: string, cur: string)
    requires Reachable(edges, start, cur)
    ensures forall t :: t in Targets(edges, cur) ==> Reachable(edges, start, t) && t in Universe(edges, start)
  {
    forall t | t in Targets(edges, cur)
      ensures Reachable(edges, start, t) && t in Universe(edges, start)
    {
      assert Linked(edges, cur, t);
      var k: nat :| Walk(edges, start, cur, k);
      WalkExtends(edges, start, cur, t, k);
    }
  }

  /** The dead-node warnings of the lint: the listed nodes that no walk from the entry reaches, and no others. */
  method UnreachableNodes(g: Graph) returns (warned: seq<string>)
    ensures FirstEntry(g.nodes).None? ==> warned == []
    ensures FirstEntry(g.nodes).Some? ==> forall id :: id in warned <==>
              (exists j :: 0 <= j < |g.nodes| && g.nodes[j].id == id)
                && !Reachable(g.edges, FirstEntry(g.nodes).value.id, id)
  {
    warned := [];
    var entry := FirstEntry(g.nodes);
    if entry.None? {
      return;
    }
    var seen := MarkReachable(g.edges, entry.value.id);
    for i := 0 to |g.nodes|
      invariant forall id :: id in warned <==> (exists j :: 0 <= j < i && g.nodes[j].id == id) && id !in seen
    {
      if g.nodes[i].id !in seen {
        warned := warned + [g.nodes[i].id];
      }
    }
  }

  // ----- the lint for unhandled errors -----

  predicate HasEdge(edges: seq<FlowEdge>, source: string, handle: Option<string>) {
    exists e | e in edges :: e.source == source && e.handle == handle
  }

  predicate Leaves(edges: seq<FlowEdge>, source: string) {
    exists e | e in edges :: e.source == source
  }

  /** The kinds of node that route a failure of theirs. */
  predicate RoutesFailure(n: Node) {
    n.kind.Prompt? || n.kind.Tool? || n.kind.Http? || n.kind.SubAgent? || n.kind.Branch?
  }

  /** The handle a failing node routes by. */
  function FailureHandle(n: Node): string {
    if n.kind.Branch? && n.defaultHandle.Some? then n.defaultHandle.value else "error"
  }

  /** The lint's complaint: some edge leaves the node, but none that the lint takes to catch its failure. */
  predicate Complains(edges: seq<FlowEdge>, n: Node) {
    && RoutesFailure(n) && Leaves(edges, n.id)
    && !HasEdge(edges, n.id, Some("error")) && !HasEdge(edges, n.id, None)
    && (n.kind.Branch? ==> n.defaultHandle.None?)
  }

  ghost predicate Warned(g: Graph, id: string) {
    exists n :: n in g.nodes && n.id == id && Complains(g.edges, n)
  }

  /** The lint's first pass: the nodes whose failure it takes to fail the run. */
  method UnhandledErrors(g: Graph) returns (warned: seq<string>)
    ensures forall id :: id in warned <==> Warned(g, id)
  {
    hide HasEdge, Leaves;
    warned := [];
    for i := 0 to |g.nodes|
      invariant forall id :: id in warned
                  <==> exists j :: 0 <= j < i && g.nodes[j].id == id && Complains(g.edges, g.nodes[j])
    {
      var n := g.nodes[i];
      var uncaught := Leaves(g.edges, n.id) && !HasEdge(g.edges, n.id, Some("error")) && !HasEdge(g.edges, n.id, None);
      match n.kind {
        case Prompt | Tool | Http | SubAgent =>
          if uncaught {
            warned := warned + [n.id];
          }
        case Branch =>
          if uncaught && n.defaultHandle.None? {
            warned := warned + [n.id];
          }
        case _ =>
      }
    }
  }

  /** A failure that this node routes fails the run: it is routed as an error, and no edge takes it. */
  predicate FailsRun(g: Graph, n: Node) {
    FailureHandle(n) == "error" && NextByHandle(g, n.id, Some("error")).None?
  }

  predicate Catches(edges: seq<FlowEdge>, source: string) {
    HasEdge(edges, source, Some("error")) || HasEdge(edges, source, None) || HasEdge(edges, source, Some("default"))
  }

  lemma ErrorIsRouted(g: Graph, source: string)
    ensures NextByHandle(g, source, Some("error")).None? <==> !Catches(g.edges, source)
  {
  }

  /**
   * Which routed failures the lint tells: one fails the run exactly when the lint complains of the node and it
   * has no `default` edge, or no edge at all leaves the node, or it is a branch whose own default handle is `error`.
   */
  lemma ErrorLintIsExact(g: Graph, n: Node)
    requires RoutesFailure(n)
    ensures FailsRun(g, n) <==>
      || (Complains(g.edges, n) && !HasEdge(g.edges, n.id, Some("default")))
      || (FailureHandle(n) == "error" && !Leaves(g.edges, n.id))
      || (n.kind.Branch? && n.defaultHandle == Some("error") && !Catches(g.edges, n.id))
  {
    hide NextByHandle;
    ErrorIsRouted(g, n.id);
  }

  /**
   * Which nodes are warned of: those that do work, when edges leave them but none that takes an error or is
   * unlabelled.
   */
  lemma UncaughtIsWarned(g: Graph, n: Node, e: FlowEdge)
    requires n in g.nodes && e in g.edges && e.source == n.id
    requires forall f :: f in g.edges && f.source == n.id ==> f.handle != None && f.handle != Some("error")
    ensures n.kind in {Prompt, Tool, Http, SubAgent} ==> Warned(g, n.id)
    ensures n.kind == Branch && n.defaultHandle == None ==> Warned(g, n.id)
    ensures n.kind == Branch && n.defaultHandle.Some? ==> !Complains(g.edges, n)
    ensures n.kind in {Entry, End} || n.kind.OtherCore? || n.kind.Custom? ==> !Complains(g.edges, n)
  {
    hide Complains;
    ComplainsWhenUncaught(g.edges, n, e);
  }

  lemma ComplainsWhenUncaught(edges: seq<FlowEdge>, n: Node, e: FlowEdge)
    requires e in edges && e.source == n.id
    requires forall f :: f in edges && f.source == n.id ==> f.handle != None && f.handle != Some("error")
    ensures Complains(edges, n) <==>
      n.kind in {Prompt, Tool, Http, SubAgent} || (n.kind == Branch && n.defaultHandle == None)
  {
  }

  /** An entry, a tool whose only edge is labelled `default`, and where that edge goes. */
  function ToolFlow(): Graph {
    Graph([Node("entry", Entry, None, None, None, None, ""), Node("tool", Tool, None, None, None, None, ""),
           Node("next", End, None, None, None, None, "")],
          [FlowEdge("entry", "tool", None), FlowEdge("tool", "next", Some("default"))])
  }

  /** The lint complains too often: it warns of this tool, whose error the executor routes along the `default` edge. */
  lemma DefaultEdgeIsOverwarned()
    ensures Warned(ToolFlow(), "tool") && NextByHandle(ToolFlow(), "tool", Some("error")) == Some("next")
  {
    var g := ToolFlow();
    var e, e' := g.edges[0], g.edges[1];
    assert g.edges == [e, e'] && e.source == "entry" && e' in g.edges;
    assert Complains(g.edges, g.nodes[1]);
    assert g.edges[1..] == [e'] && g.edges[1..][1..] == [];
    assert FirstEdge(g.edges, "tool", {Some("error")}).None?;
    assert FirstEdge([e'], "tool", FALLBACK) == Some("next");
  }

  /** And too seldom: of a tool that no edge leaves it says nothing, and the tool's failure fails the run. */
  lemma LoneToolIsUnderwarned(n: Node, g: Graph)
    requires n.kind == Tool && g.nodes == [n] && g.edges == []
    ensures !Warned(g, n.id) && FailsRun(g, n)
  {
    assert g.nodes[0] == n;
  }
}
