/** Assembling a graph response from query records, and comparing two of them. */
module GraphView {
  import opened Common
  import opened Json
  import opened Values
  import opened NodeIds

  /** A stored node: its labels, the first of which is its type, and its properties. */
  datatype Node = Node(labels: seq<string>, props: Document)

  datatype GraphNode = GraphNode(id: string, kind: string, props: Document)

  datatype GraphEdge = GraphEdge(id: string, source: string, target: string, rel: string, props: Document)

  /** One row of the view's query; an end is missing when the driver returned no node. */
  datatype Record = Record(a: Option<Node>, b: Option<Node>, rel: string, props: Document)

  /** neo4jNodeToGraph, the label and risk colour aside. */
  function Shown(lib: Lib, n: Node): Option<GraphNode> {
    if n.labels == [] || n.labels[0] == "" then None
    else
      var id := NodeId(lib, n.labels[0], n.props);
      if id == "" then None else Some(GraphNode(id, n.labels[0], n.props))
  }

  /** The nodes one record adds: none unless both ends are nodes, and no second unless the first is shown. */
  function Adds(lib: Lib, r: Record): seq<GraphNode> {
    if r.a.None? || r.b.None? || Shown(lib, r.a.value).None? then []
    else if Shown(lib, r.b.value).None? then [Shown(lib, r.a.value).value]
    else [Shown(lib, r.a.value).value, Shown(lib, r.b.value).value]
  }

  function EdgeOf(lib: Lib, r: Record): seq<GraphEdge> {
    if |Adds(lib, r)| < 2 then []
    else
      var source, target := Adds(lib, r)[0].id, Adds(lib, r)[1].id;
      [GraphEdge(source + "|" + r.rel + "|" + target, source, target, r.rel, r.props)]
  }

  function Edges(lib: Lib, rs: seq<Record>): seq<GraphEdge> {
    if rs == [] then [] else Edges(lib, rs[..|rs| - 1]) + EdgeOf(lib, rs[|rs| - 1])
  }

  /** All nodes the records add, in order. */
  function Added(lib: Lib, rs: seq<Record>): seq<GraphNode> {
    if rs == [] then [] else Added(lib, rs[..|rs| - 1]) + Adds(lib, rs[|rs| - 1])
  }

  /** Nodes by id; a later one replaces an earlier one with its id. */
  function ById(gs: seq<GraphNode>): map<string, GraphNode> {
    if gs == [] then map[] else ById(gs[..|gs| - 1])[gs[|gs| - 1].id := gs[|gs| - 1]]
  }

  function Nodes(lib: Lib, rs: seq<Record>): map<string, GraphNode> {
    ById(Added(lib, rs))
  }

  /** addGraphNode. */
  method AddNode(lib: Lib, nodes: map<string, GraphNode>, n: Node) returns (after: map<string, GraphNode>,
                 id: Option<string>)
    ensures match Shown(lib, n)
            case None => after == nodes && id == None
            case Some(g) => after == nodes[g.id := g] && id == Some(g.id)
  {
    var g := Shown(lib, n);
    if g.None? {
      return nodes, None;
    }
    after, id := nodes[g.value.id := g.value], Some(g.value.id);
  }

  /** The loop of fetchGraph. */
  method Assemble(lib: Lib, rs: seq<Record>) returns (nodes: map<string, GraphNode>, edges: seq<GraphEdge>)
    ensures nodes == Nodes(lib, rs) && edges == Edges(lib, rs)
  {
    nodes, edges := map[], [];
    for i := 0 to |rs|
      invariant nodes == Nodes(lib, rs[..i]) && edges == Edges(lib, rs[..i])
    {
      assert rs[..i + 1][..i] == rs[..i];
      var r := rs[i];
      if r.a.Some? && r.b.Some? {
        var source, target: Option<string>;
        nodes, source := AddNode(lib, nodes, r.a.value);
        if source.Some? {
          nodes, target := AddNode(lib, nodes, r.b.value);
          if target.Some? {
            edges := edges
                + [GraphEdge(source.value + "|" + r.rel + "|" + target.value, source.value, target.value, r.rel,
                r.props)];
          }
        }
      }
      ByIdTwo(Added(lib, rs[..i]), Adds(lib, r));
    }
    assert rs[..|rs|] == rs;
  }

  lemma ByIdTwo(gs: seq<GraphNode>, added: seq<GraphNode>)
    requires |added| <= 2
    ensures |added| == 0 ==> ById(gs + added) == ById(gs)
    ensures |added| == 1 ==> ById(gs + added) == ById(gs)[added[0].id := added[0]]
    ensures |added| == 2 ==> ById(gs + added) == ById(gs)[added[0].id := added[0]][added[1].id := added[1]]
  {
    var all := gs + added;
    if |added| == 0 {
      assert all == gs;
    } else if |added| == 1 {
      assert all[..|gs|] == gs;
    } else {
      var one := all[..|gs| + 1];
      assert one[..|gs|] == gs && all[..|all| - 1] == one;
    }
  }

  // ---- Nodes and edges belong together ----

  /** The node map: every node under its own id, each of them added by some record, and every added node's id
      present. */
  lemma {:induction false} NodesAre(gs: seq<GraphNode>)
    ensures forall id :: id in ById(gs) ==> ById(gs)[id].id == id && ById(gs)[id] in gs
    ensures forall g :: g in gs ==> g.id in ById(gs)
  {
    if gs != [] {
      NodesAre(gs[..|gs| - 1]);
    }
  }

  /** Every edge's ends are in the node map, and its id spells them. */
  lemma {:induction false} EndpointsPresent(lib: Lib, rs: seq<Record>, k: nat)
    requires k < |Edges(lib, rs)|
    ensures var e := Edges(lib, rs)[k];
            e.source in Nodes(lib, rs) && e.target in Nodes(lib, rs) && e.id == e.source + "|" + e.rel + "|" + e.target
  {
    var before, r := rs[..|rs| - 1], rs[|rs| - 1];
    NodesAre(Added(lib, rs));
    NodesAre(Added(lib, before));
    if k < |Edges(lib, before)| {
      EndpointsPresent(lib, before, k);
    }
  }

  // ---- Distinct nodes stay apart ----

  function Identified(lib: Lib, g: GraphNode): Option<Identity> {
    Identify(lib, g.kind, g.props)
  }

  /** Nodes of the views' types, with hops keyed by UUIDs. */
  ghost predicate Viewable(lib: Lib, rs: seq<Record>) {
    forall g :: g in Added(lib, rs) ==>
        Tag(g.kind).Some? && (Identified(lib, g).Some? ==> WellKeyed(Identified(lib, g).value))
  }

  lemma {:induction false} AddedIsShown(lib: Lib, rs: seq<Record>, g: GraphNode)
    requires g in Added(lib, rs)
    ensures g.id == NodeId(lib, g.kind, g.props) && Identified(lib, g).Some?
  {
    if g in Adds(lib, rs[|rs| - 1]) {
      NoIdIff(lib, g.kind, g.props);
    } else {
      AddedIsShown(lib, rs[..|rs| - 1], g);
    }
  }

  /** Two nodes share an id exactly if they are the same node, even across two responses. */
  lemma NodesApart(lib: Lib, rs: seq<Record>, g: GraphNode, others: seq<Record>, h: GraphNode)
    requires Viewable(lib, rs) && Viewable(lib, others) && g in Added(lib, rs) && h in Added(lib, others)
    ensures g.id == h.id <==> Identified(lib, g) == Identified(lib, h)
  {
    AddedIsShown(lib, rs, g);
    AddedIsShown(lib, others, h);
    IdsInjective(lib, g.kind, g.props, h.kind, h.props);
  }

  /** Every node the records show stands in the response exactly once: none is merged with another. */
  lemma ShownOnce(lib: Lib, rs: seq<Record>, g: GraphNode)
    requires Viewable(lib, rs) && g in Added(lib, rs)
    ensures g.id in Nodes(lib, rs) && Identified(lib, Nodes(lib, rs)[g.id]) == Identified(lib, g)
    ensures forall id :: id in Nodes(lib, rs) && Identified(lib, Nodes(lib, rs)[id]) == Identified(lib, g) ==>
        id == g.id
  {
    var nodes := Nodes(lib, rs);
    NodesAre(Added(lib, rs));
    NodesApart(lib, rs, g, rs, nodes[g.id]);
    forall id | id in nodes && Identified(lib, nodes[id]) == Identified(lib, g) ensures id == g.id {
      NodesApart(lib, rs, g, rs, nodes[id]);
    }
  }

  /** Some record shows the node. */
  ghost predicate Shows(lib: Lib, rs: seq<Record>, i: Option<Identity>) {
    exists g :: g in Added(lib, rs) && Identified(lib, g) == i
  }

  // ---- Comparing two responses ----

  datatype Response = Response(nodes: seq<GraphNode>, edges: seq<GraphEdge>)

  datatype TopologyDiff = TopologyDiff(addedNodes: seq<string>, removedNodes: seq<string>, addedEdges: seq<string>,
      removedEdges: seq<string>,
      changed: bool)

  function NodeIdsOf(r: Response): set<string> {
    set n | n in r.nodes :: n.id
  }

  function EdgeIdsOf(r: Response): set<string> {
    set e | e in r.edges :: e.id
  }

  /** The elements, each once, in any order. */
  ghost predicate Holds(s: seq<string>, elements: set<string>) {
    Distinct(s) && forall x :: x in s <==> x in elements
  }

  /** Ranges over `a` and keeps what is not in `b`. */
  method Missing(a: set<string>, b: set<string>) returns (r: seq<string>)
    ensures Holds(r, a - b)
  {
    var xs := Range(a);
    r := [];
    for i := 0 to |xs|
      invariant Distinct(r) && forall x :: x in r <==> x in xs[..i] && x !in b
    {
      if xs[i] !in b {
        r := r + [xs[i]];
      }
    }
    assert xs[..|xs|] == xs;
  }

  method CollectNodes(r: Response) returns (ids: set<string>)
    ensures ids == NodeIdsOf(r)
  {
    ids := {};
    for i := 0 to |r.nodes|
      invariant ids == NodeIdsOf(Response(r.nodes[..i], []))
    {
      ids := ids + {r.nodes[i].id};
      assert r.nodes[..i + 1] == r.nodes[..i] + [r.nodes[i]];
    }
    assert r.nodes[..|r.nodes|] == r.nodes;
  }

  method CollectEdges(r: Response) returns (ids: set<string>)
    ensures ids == EdgeIdsOf(r)
  {
    ids := {};
    for i := 0 to |r.edges|
      invariant ids == EdgeIdsOf(Response([], r.edges[..i]))
    {
      ids := ids + {r.edges[i].id};
      assert r.edges[..i + 1] == r.edges[..i] + [r.edges[i]];
    }
    assert r.edges[..|r.edges|] == r.edges;
  }

  ghost predicate IsDiff(d: TopologyDiff, current: Response, baseline: Response) {
    && Holds(d.addedNodes, NodeIdsOf(current) - NodeIdsOf(baseline))
        && Holds(d.removedNodes, NodeIdsOf(baseline) - NodeIdsOf(current))
    && Holds(d.addedEdges, EdgeIdsOf(current) - EdgeIdsOf(baseline))
        && Holds(d.removedEdges, EdgeIdsOf(baseline) - EdgeIdsOf(current))
    && (d.changed <==> NodeIdsOf(current) != NodeIdsOf(baseline) || EdgeIdsOf(current) != EdgeIdsOf(baseline))
  }

  lemma EmptyDifferences(a: set<string>, b: set<string>, added: seq<string>, removed: seq<string>)
    requires Holds(added, a - b) && Holds(removed, b - a)
    ensures |added| > 0 || |removed| > 0 <==> a != b
  {
    if |added| > 0 { assert added[0] in added; }
    if |removed| > 0 { assert removed[0] in removed; }
    if added == [] && removed == [] {
      forall x ensures x in a <==> x in b {
        assert x in added <==> x in a - b;
        assert x in removed <==> x in b - a;
      }
    }
  }

  /** diffTopology: the four differences of ids, each id once; changed exactly if an id set differs. */
  method DiffTopology(current: Option<Response>, baseline: Option<Response>) returns (d: Option<TopologyDiff>)
    ensures d.Some? <==> current.Some? && baseline.Some?
    ensures d.Some? ==> IsDiff(d.value, current.value, baseline.value)
  {
    if current.None? || baseline.None? {
      return None;
    }
    var curNodes := CollectNodes(current.value);
    var baseNodes := CollectNodes(baseline.value);
    var curEdges := CollectEdges(current.value);
    var baseEdges := CollectEdges(baseline.value);
    var addedNodes := Missing(curNodes, baseNodes);
    var removedNodes := Missing(baseNodes, curNodes);
    var addedEdges := Missing(curEdges, baseEdges);
    var removedEdges := Missing(baseEdges, curEdges);
    EmptyDifferences(curNodes, baseNodes, addedNodes, removedNodes);
    EmptyDifferences(curEdges, baseEdges, addedEdges, removedEdges);
    var changed := |addedNodes| > 0 || |removedNodes| > 0 || |addedEdges| > 0 || |removedEdges| > 0;
    d := Some(TopologyDiff(addedNodes, removedNodes, addedEdges, removedEdges, changed));
  }

  /** The response lists the assembled nodes, in any order. */
  ghost predicate Lists(r: Response, nodes: map<string, GraphNode>, edges: seq<GraphEdge>) {
    && (forall g :: g in r.nodes <==> g.id in nodes && nodes[g.id] == g)
    && r.edges == edges
  }

  /** Across assembly and comparison: an added node id is a node the current records show and the baseline's do not. */
  lemma AddedNodesAreNew(lib: Lib, rs: seq<Record>, others: seq<Record>, current: Response, baseline: Response,
                         d: TopologyDiff, g: GraphNode)
    requires Viewable(lib, rs) && Viewable(lib, others)
    requires Lists(current, Nodes(lib, rs), Edges(lib, rs)) && Lists(baseline, Nodes(lib, others), Edges(lib, others))
    requires IsDiff(d, current, baseline) && g in Added(lib, rs)
    ensures g.id in d.addedNodes <==> !Shows(lib, others, Identified(lib, g))
  {
    NodesAre(Added(lib, rs));
    NodesAre(Added(lib, others));
    AddedIsShown(lib, rs, g);
    var shown := Nodes(lib, rs)[g.id];
    assert shown in current.nodes && g.id in NodeIdsOf(current);
    if Shows(lib, others, Identified(lib, g)) {
      var h :| h in Added(lib, others) && Identified(lib, h) == Identified(lib, g);
      NodesApart(lib, rs, g, others, h);
      assert Nodes(lib, others)[g.id] in baseline.nodes;
    }
    if g.id in NodeIdsOf(baseline) {
      var h :| h in baseline.nodes && h.id == g.id;
      NodesApart(lib, rs, g, others, h);
    }
  }
}
