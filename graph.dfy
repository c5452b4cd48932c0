/**
 * The graph that the compiler path reads: nodes with ordered input and output
 * ports, and edges from one port to another. The graph class of the system is
 * not part of this model; this module captures only what the validator, the
 * serializer and the emitters rely on. Collections keep insertion order, as
 * Python dictionaries do.
 */
module GraphModel {
  import opened Wrappers
  import opened Props
  import opened PortTypes

  type NodeId = string
  type PortId = string
  type EdgeId = string

  /** A node position; copied around, never computed with. */
  type Coord = real

  datatype Port = Port(id: PortId, name: string, portType: PortType, direction: Direction)

  datatype Node = Node(
    id: NodeId,
    nodeType: string,
    title: string,
    x: Coord,
    y: Coord,
    properties: Properties,
    inputs: seq<Port>,
    outputs: seq<Port>)

  /** A port together with the id of the node that owns it (the port's `node` back-reference). */
  datatype Endpoint = Endpoint(node: NodeId, port: PortId)

  datatype Edge = Edge(id: EdgeId, source: Endpoint, target: Endpoint)

  datatype Graph = Graph(nodes: seq<Node>, edges: seq<Edge>)

  datatype GraphError = DuplicateId(id: NodeId)

  const EmptyGraph := Graph([], [])

  function Ports(n: Node): seq<Port> {
    n.inputs + n.outputs
  }

  function NodeIds(ns: seq<Node>): set<NodeId> {
    set k | 0 <= k < |ns| :: ns[k].id
  }

  /** The node with the given id, looked up in insertion order. */
  function FindNode(g: Graph, id: NodeId): Option<Node> {
    FindIn(g.nodes, id)
  }

  function FindIn(ns: seq<Node>, id: NodeId): (r: Option<Node>)
    ensures r.Some? ==> r.value in ns && r.value.id == id
    ensures r.None? ==> id !in NodeIds(ns)
  {
    if ns == [] then None
    else if ns[0].id == id then Some(ns[0])
    else
      var r := FindIn(ns[1..], id);
      assert NodeIds(ns) == {ns[0].id} + NodeIds(ns[1..]) by {
        forall x | x in NodeIds(ns) ensures x in {ns[0].id} + NodeIds(ns[1..]) {
          var k :| 0 <= k < |ns| && ns[k].id == x;
          if k > 0 { assert ns[1..][k - 1].id == x; }
        }
      }
      r
  }

  /** A port's `connected_edges`: the edges attached to it, in the order they were added. */
  function ConnectedEdges(g: Graph, ep: Endpoint): (r: seq<Edge>)
    ensures forall e :: e in r <==> e in g.edges && (e.source == ep || e.target == ep)
  {
    EdgesAt(g.edges, ep)
  }

  function EdgesAt(es: seq<Edge>, ep: Endpoint): (r: seq<Edge>)
    ensures forall e :: e in r <==> e in es && (e.source == ep || e.target == ep)
  {
    if es == [] then []
    else
      var rest := EdgesAt(es[1..], ep);
      assert forall e :: e in es <==> e == es[0] || e in es[1..];
      if es[0].source == ep || es[0].target == ep then [es[0]] + rest else rest
  }

  /** `get_start_node()`: the (first) node of kind "start", if any. */
  function StartNode(g: Graph): (r: Option<Node>)
    ensures r.Some? ==> r.value in g.nodes && r.value.nodeType == "start"
    ensures r.None? ==> forall k :: 0 <= k < |g.nodes| ==> g.nodes[k].nodeType != "start"
  {
    FirstOfKind(g.nodes, "start")
  }

  function FirstOfKind(ns: seq<Node>, kind: string): (r: Option<Node>)
    ensures r.Some? ==> r.value in ns && r.value.nodeType == kind
    ensures r.None? ==> forall k :: 0 <= k < |ns| ==> ns[k].nodeType != kind
  {
    if ns == [] then None
    else if ns[0].nodeType == kind then Some(ns[0])
    else
      var r := FirstOfKind(ns[1..], kind);
      assert forall k :: 1 <= k < |ns| ==> ns[k] == ns[1..][k - 1];
      r
  }

  /** `add_node`: inserts the node, refusing an id that is already present. */
  function AddNode(g: Graph, n: Node): (r: Result<Graph, GraphError>)
    ensures r.Failure? <==> n.id in NodeIds(g.nodes)
    ensures r.Success? ==> r.value == Graph(g.nodes + [n], g.edges)
  {
    if n.id in NodeIds(g.nodes) then Failure(DuplicateId(n.id)) else Success(Graph(g.nodes + [n], g.edges))
  }

  /** `add_edge`: appends an edge between two ports; validation is the caller's job. */
  function AddEdge(g: Graph, id: EdgeId, source: Endpoint, target: Endpoint): Graph {
    Graph(g.nodes, g.edges + [Edge(id, source, target)])
  }

  // ---- Reachability over `source.node -> target.node` arrows ----

  ghost predicate Arrow(g: Graph, u: NodeId, v: NodeId) {
    exists k :: 0 <= k < |g.edges| && g.edges[k].source.node == u && g.edges[k].target.node == v
  }

  ghost predicate IsPath(g: Graph, p: seq<NodeId>) {
    |p| >= 1 && forall i :: 0 <= i < |p| - 1 ==> Arrow(g, p[i], p[i + 1])
  }

  ghost predicate Reachable(g: Graph, s: NodeId, t: NodeId) {
    exists p :: IsPath(g, p) && p[0] == s && p[|p| - 1] == t
  }

  /** No path of one or more arrows leads from a node back to itself. */
  ghost predicate Acyclic(g: Graph) {
    forall p :: IsPath(g, p) && |p| >= 2 ==> p[0] != p[|p| - 1]
  }

  lemma ReachRefl(g: Graph, s: NodeId)
    ensures Reachable(g, s, s)
  {
    assert IsPath(g, [s]);
  }

  lemma ReachStep(g: Graph, k: nat, t: NodeId)
    requires k < |g.edges| && Reachable(g, g.edges[k].target.node, t)
    ensures Reachable(g, g.edges[k].source.node, t)
  {
    var p :| IsPath(g, p) && p[0] == g.edges[k].target.node && p[|p| - 1] == t;
    var q := [g.edges[k].source.node] + p;
    assert Arrow(g, q[0], q[1]);
    assert forall i :: 1 <= i < |q| - 1 ==> q[i] == p[i - 1] && q[i + 1] == p[i];
    assert IsPath(g, q);
  }

  lemma ReachTrans(g: Graph, a: NodeId, b: NodeId, c: NodeId)
    requires Reachable(g, a, b) && Reachable(g, b, c)
    ensures Reachable(g, a, c)
  {
    var p :| IsPath(g, p) && p[0] == a && p[|p| - 1] == b;
    var q :| IsPath(g, q) && q[0] == b && q[|q| - 1] == c;
    var r := p + q[1..];
    forall i | 0 <= i < |r| - 1 ensures Arrow(g, r[i], r[i + 1]) {
      if i < |p| - 1 {
        assert r[i] == p[i] && r[i + 1] == p[i + 1];
      } else {
        var j := i - |p| + 1;
        assert r[i] == q[j] && r[i + 1] == q[j + 1];
      }
    }
    assert IsPath(g, r);
  }

  // ---- Well-formed graphs ----

  /** The port at position `a` of node `i`, in inputs-then-outputs order. */
  predicate HasPortAt(g: Graph, i: int, a: int) {
    0 <= i < |g.nodes| && 0 <= a < |Ports(g.nodes[i])|
  }

  /** Node ids are unique within the graph. */
  ghost predicate UniqueNodeIds(g: Graph) {
    forall i, j :: 0 <= i < |g.nodes| && 0 <= j < |g.nodes| && g.nodes[i].id == g.nodes[j].id ==> i == j
  }

  /** Port ids are unique within the graph. */
  ghost predicate UniquePortIds(g: Graph) {
    forall i, a, j, b ::
      HasPortAt(g, i, a) && HasPortAt(g, j, b) && Ports(g.nodes[i])[a].id == Ports(g.nodes[j])[b].id ==> i == j && a == b
  }

  /** The endpoint names a port of the node it names. */
  ghost predicate Resolves(g: Graph, ep: Endpoint) {
    exists i, a :: HasPortAt(g, i, a) && g.nodes[i].id == ep.node && Ports(g.nodes[i])[a].id == ep.port
  }

  ghost predicate WellFormed(g: Graph) {
    && UniqueNodeIds(g)
    && UniquePortIds(g)
    && forall k :: 0 <= k < |g.edges| ==> Resolves(g, g.edges[k].source) && Resolves(g, g.edges[k].target)
  }
}
