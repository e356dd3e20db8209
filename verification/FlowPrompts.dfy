/** The legacy runner's collection of reachable prompts: a breadth-first search that marks on pop (src/flows.rs). */
module FlowPrompts {
  import opened Prelude
  import opened FlowGraph

  datatype FlowPrompt = FlowPrompt(prompt: string, persona: Option<string>)

  datatype PromptsError =
    | NoEntry
    | ManyEntries
    | UnknownNode(id: string)
    | MissingPrompt(id: string)
    | NotLegacy(id: string)

  function Entries(nodes: seq<Node>): seq<Node> {
    if nodes == [] then []
    else (if nodes[0].kind == Entry then [nodes[0]] else []) + Entries(nodes[1..])
  }

  /** The flow's single entry node, or why there is none. */
  function SoleEntry(nodes: seq<Node>): Result<Node, PromptsError> {
    var entries := Entries(nodes);
    if |entries| == 0 then Err(NoEntry) else if |entries| == 1 then Ok(entries[0]) else Err(ManyEntries)
  }

  /** Collecting nodes into a map by id keeps the last one of each id. */
  function LastNode(nodes: seq<Node>, id: string): Option<Node> {
    if nodes == [] then None
    else if nodes[|nodes| - 1].id == id then Some(nodes[|nodes| - 1])
    else LastNode(nodes[..|nodes| - 1], id)
  }

  /** What the legacy runner makes of one visited node: a prompt, nothing, or a refusal. */
  function ReadNode(nodes: seq<Node>, id: string, flowPersona: Option<string>): Result<seq<FlowPrompt>, PromptsError> {
    match LastNode(nodes, id)
    case None => Err(UnknownNode(id))
    case Some(n) =>
      match n.kind
      case Entry => Ok([])
      case Prompt =>
        if n.prompt.None? then Err(MissingPrompt(id))
        else Ok([FlowPrompt(n.prompt.value, if n.persona.Some? then n.persona else flowPersona)])
      case _ => Err(NotLegacy(id))
  }

  /** The prompts read along a sequence of nodes. */
  function PromptsAlong(nodes: seq<Node>, flowPersona: Option<string>, order: seq<string>): seq<FlowPrompt> {
    if order == [] then []
    else
      var last := ReadNode(nodes, order[|order| - 1], flowPersona);
      PromptsAlong(nodes, flowPersona, order[..|order| - 1]) + if last.Ok? then last.value else []
  }

  /** The node a legacy runner reads is the last one with the id. */
  lemma {:induction false} LastNodeIs(nodes: seq<Node>, i: nat)
    requires i < |nodes| && forall j :: i < j < |nodes| ==> nodes[j].id != nodes[i].id
    ensures LastNode(nodes, nodes[i].id) == Some(nodes[i])
    decreases |nodes|
  {
    if i < |nodes| - 1 {
      LastNodeIs(nodes[..|nodes| - 1], i);
    }
  }

  /** A prompt runs as its own persona if it names one, and else as the flow's. */
  lemma PromptHasItsPersona(nodes: seq<Node>, i: nat, flowPersona: Option<string>)
    requires i < |nodes| && forall j :: i < j < |nodes| ==> nodes[j].id != nodes[i].id
    requires nodes[i].kind == Prompt
    ensures ReadNode(nodes, nodes[i].id, flowPersona).Err? <==> nodes[i].prompt == None
    ensures nodes[i].prompt.Some? && nodes[i].persona.Some? ==>
              ReadNode(nodes, nodes[i].id, flowPersona) == Ok([FlowPrompt(nodes[i].prompt.value, nodes[i].persona)])
    ensures nodes[i].prompt.Some? && nodes[i].persona == None ==>
              ReadNode(nodes, nodes[i].id, flowPersona) == Ok([FlowPrompt(nodes[i].prompt.value, flowPersona)])
  {
    LastNodeIs(nodes, i);
  }

  /** An entry gives no prompt, and a node of any other kind is refused. */
  lemma OtherNodesGiveNoPrompt(nodes: seq<Node>, i: nat, flowPersona: Option<string>)
    requires i < |nodes| && forall j :: i < j < |nodes| ==> nodes[j].id != nodes[i].id
    requires nodes[i].kind != Prompt
    ensures nodes[i].kind == Entry ==> ReadNode(nodes, nodes[i].id, flowPersona) == Ok([])
    ensures nodes[i].kind != Entry ==> ReadNode(nodes, nodes[i].id, flowPersona) == Err(NotLegacy(nodes[i].id))
  {
    LastNodeIs(nodes, i);
  }

  lemma {:induction false} MissingNodeIsUnknown(nodes: seq<Node>, id: string, flowPersona: Option<string>)
    requires forall n :: n in nodes ==> n.id != id
    ensures LastNode(nodes, id) == None && ReadNode(nodes, id, flowPersona) == Err(UnknownNode(id))
  {
    if nodes != [] {
      assert nodes[|nodes| - 1] in nodes;
      MissingNodeIsUnknown(nodes[..|nodes| - 1], id, flowPersona);
    }
  }

  /** The prompts stand in the order of the visits. */
  lemma {:induction false} PromptsFollowVisits(
    nodes: seq<Node>, persona: Option<string>, a: seq<string>, b: seq<string>)
    ensures PromptsAlong(nodes, persona, a + b) == PromptsAlong(nodes, persona, a) + PromptsAlong(nodes, persona, b)
    decreases |b|
  {
    hide ReadNode;
    if b == [] {
      assert a + b == a;
    } else {
      var less := b[..|b| - 1];
      assert (a + b)[..|a + b| - 1] == a + less && (a + b)[|a + b| - 1] == b[|b| - 1];
      PromptsFollowVisits(nodes, persona, a, less);
    }
  }

  lemma PromptsOfOne(nodes: seq<Node>, persona: Option<string>, id: string)
    requires ReadNode(nodes, id, persona).Ok?
    ensures PromptsAlong(nodes, persona, [id]) == ReadNode(nodes, id, persona).value
  {
    hide ReadNode;
    assert [id][..0] == [];
  }

  /** The entry is the only node of its kind; none or several are told apart. */
  lemma SoleEntryIs(nodes: seq<Node>, i: nat)
    requires i < |nodes| && nodes[i].kind == Entry
    ensures (forall j :: 0 <= j < |nodes| && nodes[j].kind == Entry ==> j == i) ==> SoleEntry(nodes) == Ok(nodes[i])
    ensures (exists j :: 0 <= j < |nodes| && nodes[j].kind == Entry && j != i) ==> SoleEntry(nodes) == Err(ManyEntries)
  {
    EntriesAt(nodes, i);
    if forall j :: 0 <= j < |nodes| && nodes[j].kind == Entry ==> j == i {
      OneEntry(nodes, i);
    } else {
      var j :| 0 <= j < |nodes| && nodes[j].kind == Entry && j != i;
      TwoEntries(nodes, if i < j then i else j, if i < j then j else i);
    }
  }

  lemma {:induction false} EntriesAt(nodes: seq<Node>, i: nat)
    requires i < |nodes| && nodes[i].kind == Entry
    ensures |Entries(nodes)| >= 1
    decreases i
  {
    if i > 0 {
      EntriesAt(nodes[1..], i - 1);
    }
  }

  lemma {:induction false} NoEntries(nodes: seq<Node>)
    requires forall j :: 0 <= j < |nodes| ==> nodes[j].kind != Entry
    ensures Entries(nodes) == [] && SoleEntry(nodes) == Err(NoEntry)
  {
    if nodes != [] {
      NoEntries(nodes[1..]);
    }
  }

  lemma {:induction false} OneEntry(nodes: seq<Node>, i: nat)
    requires i < |nodes| && nodes[i].kind == Entry
    requires forall j :: 0 <= j < |nodes| && nodes[j].kind == Entry ==> j == i
    ensures Entries(nodes) == [nodes[i]]
    decreases i
  {
    if i > 0 {
      assert nodes[0].kind != Entry;
      OneEntry(nodes[1..], i - 1);
    } else {
      NoEntries(nodes[1..]);
    }
  }

  lemma {:induction false} TwoEntries(nodes: seq<Node>, i: nat, j: nat)
    requires i < j < |nodes| && nodes[i].kind == Entry && nodes[j].kind == Entry
    ensures |Entries(nodes)| >= 2
    decreases i
  {
    if i > 0 {
      TwoEntries(nodes[1..], i - 1, j - 1);
    } else {
      EntriesAt(nodes[1..], j - 1);
    }
  }

  // ----- what the search keeps -----

  ghost predicate Sorted(ds: seq<nat>) {
    forall i, j :: 0 <= i < j < |ds| ==> ds[i] <= ds[j]
  }

  ghost predicate At(ids: seq<string>, ds: seq<nat>, x: string, d: nat) {
    |ids| == |ds| && exists j :: 0 <= j < |ids| && ids[j] == x && ds[j] <= d
  }

  /** `x` is visited or queued at depth `d` or less. */
  ghost predicate Known(order: seq<string>, dist: seq<nat>, queue: seq<string>, depths: seq<nat>, x: string, d: nat) {
    At(order, dist, x, d) || At(queue, depths, x, d)
  }

  /** `d` is the length of the shortest walk from `start` to `x`. */
  ghost predicate Shortest(edges: seq<FlowEdge>, start: string, x: string, d: nat) {
    Walk(edges, start, x, d) && forall k: nat :: k < d ==> !Walk(edges, start, x, k)
  }

  /** The order of visits: every node once, each at its shortest distance, nearer ones first. */
  ghost predicate BreadthFirst(edges: seq<FlowEdge>, start: string, order: seq<string>, dist: seq<nat>) {
    && |order| == |dist|
    && (forall i, j :: 0 <= i < j < |order| ==> order[i] != order[j])
    && (forall i :: 0 <= i < |order| ==> Shortest(edges, start, order[i], dist[i]))
    && Sorted(dist)
  }

  ghost predicate Queued(edges: seq<FlowEdge>, start: string, queue: seq<string>, depths: seq<nat>) {
    && |queue| == |depths|
    && (forall i :: 0 <= i < |queue| ==> Walk(edges, start, queue[i], depths[i]))
    && Sorted(depths)
    && (forall i :: 0 <= i < |depths| ==> depths[i] <= depths[0] + 1)
  }

  ghost predicate Search(
    edges: seq<FlowEdge>, start: string, order: seq<string>, dist: seq<nat>, queue: seq<string>, depths: seq<nat>)
  {
    && BreadthFirst(edges, start, order, dist)
    && Queued(edges, start, queue, depths)
    && (forall i, j :: 0 <= i < |dist| && 0 <= j < |depths| ==> dist[i] <= depths[j])
    && Known(order, dist, queue, depths, start, 0)
    && (forall i, t :: 0 <= i < |order| && Linked(edges, order[i], t) ==>
      Known(order, dist, queue, depths, t, dist[i] + 1))
  }

  /**
   * A node a walk of `k` edges reaches is visited within `k`, unless the queue still holds work at depth `k` or less.
   */
  lemma {:induction false} WalkIsVisited(
    edges: seq<FlowEdge>, start: string, order: seq<string>, dist: seq<nat>, queue: seq<string>, depths: seq<nat>,
    x: string, k: nat)
    requires Search(edges, start, order, dist, queue, depths) && Walk(edges, start, x, k)
    ensures At(order, dist, x, k) || (queue != [] && depths[0] <= k)
    decreases k
  {
    if k > 0 {
      var c :| Walk(edges, start, c, k - 1) && Linked(edges, c, x);
      WalkIsVisited(edges, start, order, dist, queue, depths, c, k - 1);
      if At(order, dist, c, k - 1) {
        var i :| 0 <= i < |order| && order[i] == c && dist[i] <= k - 1;
        assert Known(order, dist, queue, depths, x, dist[i] + 1);
      }
    }
  }

  /** Popping a node that was already visited loses nothing. */
  lemma PopVisited(
    edges: seq<FlowEdge>, start: string, order: seq<string>, dist: seq<nat>, queue: seq<string>, depths: seq<nat>)
    requires Search(edges, start, order, dist, queue, depths) && queue != [] && queue[0] in order
    ensures Search(edges, start, order, dist, queue[1..], depths[1..])
  {
    var i :| 0 <= i < |order| && order[i] == queue[0];
    assert At(order, dist, queue[0], depths[0]);
    forall x, d: nat | Known(order, dist, queue, depths, x, d)
      ensures Known(order, dist, queue[1..], depths[1..], x, d)
    {
      if !At(order, dist, x, d) {
        var j :| 0 <= j < |queue| && queue[j] == x && depths[j] <= d;
        assert queue[1..][j - 1] == x && depths[1..][j - 1] == depths[j];
      }
    }
  }

  /** The visited sequences after a first visit. */
  lemma VisitExtendsOrder(
    edges: seq<FlowEdge>, start: string, order: seq<string>, dist: seq<nat>, queue: seq<string>, depths: seq<nat>)
    requires Search(edges, start, order, dist, queue, depths) && queue != [] && queue[0] !in order
    ensures BreadthFirst(edges, start, order + [queue[0]], dist + [depths[0]])
  {
    forall k: nat | k < depths[0]
      ensures !Walk(edges, start, queue[0], k)
    {
      if Walk(edges, start, queue[0], k) {
        WalkIsVisited(edges, start, order, dist, queue, depths, queue[0], k);
      }
    }
  }

  lemma VisitExtendsQueue(
    edges: seq<FlowEdge>, start: string, queue: seq<string>, depths: seq<nat>, targets: seq<string>, more: seq<nat>)
    requires Queued(edges, start, queue, depths) && queue != [] && targets == Targets(edges, queue[0])
    requires |more| == |targets| && forall i :: 0 <= i < |more| ==> more[i] == depths[0] + 1
    ensures Queued(edges, start, queue[1..] + targets, depths[1..] + more)
  {
    hide Walk, Linked;
    forall i | 0 <= i < |targets|
      ensures Walk(edges, start, targets[i], more[i])
    {
      assert targets[i] in targets;
      WalkExtends(edges, start, queue[0], targets[i], depths[0]);
    }
  }

  /** Visiting a new node and queueing its targets one deeper keeps the search on course. */
  lemma VisitNew(
    edges: seq<FlowEdge>, start: string, order: seq<string>, dist: seq<nat>, queue: seq<string>, depths: seq<nat>,
    targets: seq<string>, more: seq<nat>)
    requires Search(edges, start, order, dist, queue, depths) && queue != [] && queue[0] !in order
    requires targets == Targets(edges, queue[0])
    requires |more| == |targets| && forall i :: 0 <= i < |more| ==> more[i] == depths[0] + 1
    ensures Search(edges, start, order + [queue[0]], dist + [depths[0]], queue[1..] + targets, depths[1..] + more)
  {
    VisitExtendsOrder(edges, start, order, dist, queue, depths);
    VisitExtendsQueue(edges, start, queue, depths, targets, more);
    hide BreadthFirst, At, Linked, Walk;
    var order', dist' := order + [queue[0]], dist + [depths[0]];
    var queue', depths' := queue[1..] + targets, depths[1..] + more;
    forall x, d: nat | Known(order, dist, queue, depths, x, d)
      ensures Known(order', dist', queue', depths', x, d)
    {
      KnownStays(order, dist, queue, depths, targets, more, x, d);
    }
    forall i, t | 0 <= i < |order'| && Linked(edges, order'[i], t)
      ensures Known(order', dist', queue', depths', t, dist'[i] + 1)
    {
      if i < |order| {
        assert Known(order, dist, queue, depths, t, dist[i] + 1);
      } else {
        TargetIsQueued(queue[1..], depths[1..], targets, more, t, depths[0] + 1);
      }
    }
    NearerFirst(dist, depths, more);
  }

  lemma TargetIsQueued(queue: seq<string>, depths: seq<nat>, targets: seq<string>, more: seq<nat>, t: string, d: nat)
    requires |queue| == |depths| && |targets| == |more| && t in targets
    requires forall i :: 0 <= i < |more| ==> more[i] == d
    ensures At(queue + targets, depths + more, t, d)
  {
    var j :| 0 <= j < |targets| && targets[j] == t;
    assert (queue + targets)[|queue| + j] == t && (depths + more)[|queue| + j] == d;
  }

  lemma NearerFirst(dist: seq<nat>, depths: seq<nat>, more: seq<nat>)
    requires depths != [] && Sorted(depths)
    requires forall i, j :: 0 <= i < |dist| && 0 <= j < |depths| ==> dist[i] <= depths[j]
    requires forall i :: 0 <= i < |more| ==> more[i] == depths[0] + 1
    ensures forall i, j :: 0 <= i < |dist + [depths[0]]| && 0 <= j < |depths[1..] + more| ==>
              (dist + [depths[0]])[i] <= (depths[1..] + more)[j]
  {
  }

  lemma KnownStays(
    order: seq<string>, dist: seq<nat>, queue: seq<string>, depths: seq<nat>, targets: seq<string>, more: seq<nat>,
    x: string, d: nat)
    requires |order| == |dist| && |queue| == |depths| > 0 && |targets| == |more|
    requires Known(order, dist, queue, depths, x, d)
    ensures Known(order + [queue[0]], dist + [depths[0]], queue[1..] + targets, depths[1..] + more, x, d)
  {
    var order', dist' := order + [queue[0]], dist + [depths[0]];
    var queue', depths' := queue[1..] + targets, depths[1..] + more;
    if At(order, dist, x, d) {
      var j :| 0 <= j < |order| && order[j] == x && dist[j] <= d;
      assert order'[j] == x && dist'[j] <= d;
    } else {
      var j :| 0 <= j < |queue| && queue[j] == x && depths[j] <= d;
      if j == 0 {
        assert order'[|order|] == x && dist'[|order|] <= d;
      } else {
        assert queue'[j - 1] == x && depths'[j - 1] <= d;
      }
    }
  }

  lemma WalksStayInUniverse(edges: seq<FlowEdge>, start: string, x: string, k: nat)
    requires Walk(edges, start, x, k)
    ensures x in Universe(edges, start)
  {
    ClosedHoldsWalks(edges, Universe(edges, start), start, x, k);
  }

  lemma SearchStarts(edges: seq<FlowEdge>, start: string)
    ensures Search(edges, start, [], [], [start], [0])
  {
    assert [start][0] == start;
  }

  /** What waits in the queue is reachable. */
  lemma SearchReaches(
    edges: seq<FlowEdge>, start: string, order: seq<string>, dist: seq<nat>, queue: seq<string>, depths: seq<nat>)
    requires Search(edges, start, order, dist, queue, depths) && queue != []
    ensures |depths| == |queue| && Reachable(edges, start, queue[0]) && queue[0] in Universe(edges, start)
  {
    WalksStayInUniverse(edges, start, queue[0], depths[0]);
  }

  /** When the queue is empty, the visited nodes are the reachable ones. */
  lemma SearchEnds(edges: seq<FlowEdge>, start: string, order: seq<string>, dist: seq<nat>)
    requires Search(edges, start, order, dist, [], [])
    ensures BreadthFirst(edges, start, order, dist) && forall x :: x in order <==> Reachable(edges, start, x)
  {
    forall x
      ensures x in order <==> Reachable(edges, start, x)
    {
      if Reachable(edges, start, x) {
        var k: nat :| Walk(edges, start, x, k);
        WalkIsVisited(edges, start, order, dist, [], [], x, k);
      }
      if x in order {
        var i :| 0 <= i < |order| && order[i] == x;
        assert Walk(edges, start, x, dist[i]);
      }
    }
  }

  /** What each refusal says about the flow. */
  ghost predicate Blames(flow: Flow, e: PromptsError) {
    var entry := SoleEntry(flow.graph.nodes);
    if entry.Err? then e == entry.error
    else exists x :: Reachable(flow.graph.edges, entry.value.id, x)
                  && ReadNode(flow.graph.nodes, x, entry.value.persona) == Err(e)
  }

  /**
   * Every prompt node reachable from the entry exactly once, nearest first and nothing else; or a reachable node to
   * blame.
   */
  method CollectReachablePrompts(flow: Flow)
    returns (r: Result<seq<FlowPrompt>, PromptsError>, ghost order: seq<string>, ghost dist: seq<nat>)
    ensures r.Err? ==> Blames(flow, r.error)
    ensures r.Ok? ==> SoleEntry(flow.graph.nodes).Ok?
    ensures r.Ok? ==> BreadthFirst(flow.graph.edges, SoleEntry(flow.graph.nodes).value.id, order, dist)
    ensures r.Ok? ==> forall x :: x in order <==> Reachable(flow.graph.edges, SoleEntry(flow.graph.nodes).value.id, x)
    ensures r.Ok? ==> forall x :: x in order ==>
        ReadNode(flow.graph.nodes, x, SoleEntry(flow.graph.nodes).value.persona).Ok?
    ensures r.Ok? ==> r.value == PromptsAlong(flow.graph.nodes, SoleEntry(flow.graph.nodes).value.persona, order)
  {
    hide Search, ReadNode, Reachable;
    order, dist := [], [];
    var nodes, edges := flow.graph.nodes, flow.graph.edges;
    var entry := SoleEntry(nodes);
    if entry.Err? {
      r := Err(entry.error);
      return;
    }
    var start, persona := entry.value.id, entry.value.persona;
    var adjacency := Adjacency(edges);
    var queue := [start];
    ghost var depths: seq<nat> := [0];
    var visited: set<string> := {};
    var prompts: seq<FlowPrompt> := [];
    SearchStarts(edges, start);
    while queue != []
      invariant |queue| == |depths| && Search(edges, start, order, dist, queue, depths)
      invariant forall x :: x in visited <==> x in order
      invariant visited <= Universe(edges, start)
      invariant forall x :: x in order ==> ReadNode(nodes, x, persona).Ok?
      invariant prompts == PromptsAlong(nodes, persona, order)
      decreases Universe(edges, start) - visited, |queue|
    {
      var id := queue[0];
      if id in visited {
        PopVisited(edges, start, order, dist, queue, depths);
        queue, depths := queue[1..], depths[1..];
        continue;
      }
      SearchReaches(edges, start, order, dist, queue, depths);
      visited := visited + {id};
      var read := ReadNode(nodes, id, persona);
      if read.Err? {
        r := Err(read.error);
        return;
      }
      prompts := prompts + read.value;
      var next := Outgoing(adjacency, id);
      ghost var more := seq(|next|, _ => depths[0] + 1);
      VisitNew(edges, start, order, dist, queue, depths, next, more);
      assert (order + [id])[..|order|] == order;
      order, dist := order + [id], dist + [depths[0]];
      queue, depths := queue[1..] + next, depths[1..] + more;
    }
    assert queue == [] && depths == [];
    SearchEnds(edges, start, order, dist);
    r := Ok(prompts);
  }
}
