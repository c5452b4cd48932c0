/**
 * The save/load format of core/serializer.py, as records rather than JSON
 * text. Saving writes a versioned document with one record per node and per
 * edge. Loading rebuilds each node through a node factory, overwrites its
 * identity, title, position and properties, rebinds its port ids from the
 * saved ones pairwise, indexes the rebound ports, and reconnects the edges
 * whose endpoint ids it can resolve, dropping the others.
 *
 * The node factory and the way the graph mints edge ids are not part of this
 * model; both are parameters.
 */
module Serializer {
  import opened Wrappers
  import opened Props
  import opened PortTypes
  import opened GraphModel

  const Version := "0.0.0.beta"

  datatype PortRecord = PortRecord(id: PortId, name: string, portType: string)

  /** A node record; properties and port lists may be absent from a document that is read. */
  datatype NodeRecord = NodeRecord(
    id: NodeId,
    nodeType: string,
    title: string,
    x: Coord,
    y: Coord,
    properties: Option<Properties>,
    inputs: Option<seq<PortRecord>>,
    outputs: Option<seq<PortRecord>>)

  /** An edge record names its endpoints by port id only. */
  datatype EdgeRecord = EdgeRecord(id: EdgeId, source: PortId, target: PortId)

  /** A comment box's position, size, title, colour and lock state; carried through unread. */
  datatype CommentRecord = CommentRecord(x: Coord, y: Coord, w: Coord, h: Coord, title: string, color: seq<int>, locked: bool)

  datatype Document = Document(
    version: string,
    nodes: seq<NodeRecord>,
    edges: seq<EdgeRecord>,
    comments: Option<seq<CommentRecord>>)

  datatype LoadError = UnknownNodeType(nodeType: string) | DuplicateNodeId(id: NodeId)

  type Factory = string -> Option<Node>
  type Mint = nat -> EdgeId

  // ---- Saving ----

  function PortRecordOf(p: Port): PortRecord {
    PortRecord(p.id, p.name, TypeValue(p.portType))
  }

  /** The port list of a node record: id, name and type value of each port, in port order. */
  function PortRecords(ps: seq<Port>): (r: seq<PortRecord>)
    ensures |r| == |ps| && forall j :: 0 <= j < |ps| ==> r[j] == PortRecordOf(ps[j])
  {
    seq(|ps|, j requires 0 <= j < |ps| => PortRecordOf(ps[j]))
  }

  function NodeRecordOf(n: Node): NodeRecord {
    NodeRecord(n.id, n.nodeType, n.title, n.x, n.y, Some(n.properties), Some(PortRecords(n.inputs)), Some(PortRecords(n.outputs)))
  }

  function EdgeRecordOf(e: Edge): EdgeRecord {
    EdgeRecord(e.id, e.source.port, e.target.port)
  }

  function NodeRecords(ns: seq<Node>): (r: seq<NodeRecord>)
    ensures |r| == |ns| && forall k :: 0 <= k < |ns| ==> r[k] == NodeRecordOf(ns[k])
  {
    seq(|ns|, k requires 0 <= k < |ns| => NodeRecordOf(ns[k]))
  }

  function EdgeRecords(es: seq<Edge>): (r: seq<EdgeRecord>)
    ensures |r| == |es| && forall k :: 0 <= k < |es| ==> r[k] == EdgeRecordOf(es[k])
  {
    seq(|es|, k requires 0 <= k < |es| => EdgeRecordOf(es[k]))
  }

  /** The document saved for a graph and the comment records of its scene. */
  function Save(g: Graph, comments: seq<CommentRecord>): Document {
    Document(Version, NodeRecords(g.nodes), EdgeRecords(g.edges), Some(comments))
  }

  /**
   * `serialize`: the version, one record per node in iteration order, one per
   * edge with its endpoint port ids, and the scene's comments.
   */
  method Serialize(g: Graph, comments: seq<CommentRecord>) returns (doc: Document)
    ensures doc == Save(g, comments)
    ensures doc.version == Version && doc.comments == Some(comments)
    ensures |doc.nodes| == |g.nodes|
    ensures forall k :: 0 <= k < |g.nodes| ==> var n := g.nodes[k];
      doc.nodes[k] == NodeRecord(n.id, n.nodeType, n.title, n.x, n.y, Some(n.properties),
        Some(PortRecords(n.inputs)), Some(PortRecords(n.outputs)))
    ensures |doc.edges| == |g.edges|
    ensures forall k :: 0 <= k < |g.edges| ==>
      doc.edges[k] == EdgeRecord(g.edges[k].id, g.edges[k].source.port, g.edges[k].target.port)
  {
    var nodes: seq<NodeRecord> := [];
    for i := 0 to |g.nodes|
      invariant |nodes| == i && forall k :: 0 <= k < i ==> nodes[k] == NodeRecordOf(g.nodes[k])
    {
      var n := g.nodes[i];
      nodes := nodes + [NodeRecord(n.id, n.nodeType, n.title, n.x, n.y, Some(n.properties),
        Some(PortRecords(n.inputs)), Some(PortRecords(n.outputs)))];
    }
    var edges: seq<EdgeRecord> := [];
    for i := 0 to |g.edges|
      invariant |edges| == i && forall k :: 0 <= k < i ==> edges[k] == EdgeRecordOf(g.edges[k])
    {
      var e := g.edges[i];
      edges := edges + [EdgeRecord(e.id, e.source.port, e.target.port)];
    }
    doc := Document(Version, nodes, edges, Some(comments));
  }

  // ---- Loading ----

  /** The number of pairs `zip` forms from lists of these lengths. */
  function Zipped(a: nat, b: nat): nat {
    if a < b then a else b
  }

  /**
   * The factory's ports with their ids overwritten pairwise from the saved
   * records: ports past the shorter list keep the factory's ids, and names,
   * types and directions always stay the factory's.
   */
  function Rebind(ports: seq<Port>, saved: seq<PortRecord>): (r: seq<Port>)
    ensures |r| == |ports|
    ensures forall j :: 0 <= j < |ports| ==>
      && r[j].name == ports[j].name && r[j].portType == ports[j].portType && r[j].direction == ports[j].direction
      && r[j].id == (if j < |saved| then saved[j].id else ports[j].id)
  {
    seq(|ports|, j requires 0 <= j < |ports| => if j < |saved| then ports[j].(id := saved[j].id) else ports[j])
  }

  function PortIdsOf(ps: seq<Port>): set<PortId> {
    set j | 0 <= j < |ps| :: ps[j].id
  }

  lemma PortIdsOfSnoc(ps: seq<Port>)
    requires ps != []
    ensures PortIdsOf(ps) == PortIdsOf(ps[..|ps| - 1]) + {ps[|ps| - 1].id}
  {
    var init := ps[..|ps| - 1];
    forall x | x in PortIdsOf(ps) ensures x in PortIdsOf(init) + {ps[|ps| - 1].id} {
      var j :| 0 <= j < |ps| && ps[j].id == x;
      if j < |init| {
        assert init[j] == ps[j];
      }
    }
    forall x | x in PortIdsOf(init) ensures x in PortIdsOf(ps) {
      var j :| 0 <= j < |init| && init[j].id == x;
      assert ps[j] == init[j];
    }
  }

  /** The port index after entering `ps`, all owned by node `owner`, one after another. */
  function IndexPorts(index: map<PortId, Endpoint>, owner: NodeId, ps: seq<Port>): map<PortId, Endpoint> {
    if ps == [] then index
    else
      var p := ps[|ps| - 1];
      IndexPorts(index, owner, ps[..|ps| - 1])[p.id := Endpoint(owner, p.id)]
  }

  /** After entering `ps`, each of their ids names that port of `owner`, and every other entry is kept. */
  lemma {:induction false} IndexPortsFacts(index: map<PortId, Endpoint>, owner: NodeId, ps: seq<Port>)
    ensures IndexPorts(index, owner, ps).Keys == index.Keys + PortIdsOf(ps)
    ensures forall k :: k in IndexPorts(index, owner, ps) ==>
      IndexPorts(index, owner, ps)[k] == if k in PortIdsOf(ps) then Endpoint(owner, k) else index[k]
  {
    if ps != [] {
      PortIdsOfSnoc(ps);
      IndexPortsFacts(index, owner, ps[..|ps| - 1]);
    }
  }

  lemma IndexPortsSnoc(index: map<PortId, Endpoint>, owner: NodeId, ps: seq<Port>, p: Port)
    ensures IndexPorts(index, owner, ps + [p]) == IndexPorts(index, owner, ps)[p.id := Endpoint(owner, p.id)]
  {
    assert (ps + [p])[..|ps|] == ps;
  }

  /** A factory-made node with the record's identity, title, position and properties, and rebound ports. */
  function RebuildNode(made: Node, rec: NodeRecord): Node {
    made.(id := rec.id, title := rec.title, x := rec.x, y := rec.y, properties := rec.properties.GetOr(map[]),
      inputs := Rebind(made.inputs, rec.inputs.GetOr([])), outputs := Rebind(made.outputs, rec.outputs.GetOr([])))
  }

  /** The port index extended by the rebound ports of a rebuilt node, inputs first. */
  function NodeIndex(index: map<PortId, Endpoint>, n: Node, rec: NodeRecord): map<PortId, Endpoint> {
    var zin := Zipped(|rec.inputs.GetOr([])|, |n.inputs|);
    var zout := Zipped(|rec.outputs.GetOr([])|, |n.outputs|);
    IndexPorts(IndexPorts(index, n.id, n.inputs[..zin]), n.id, n.outputs[..zout])
  }

  datatype Loaded = Loaded(graph: Graph, index: map<PortId, Endpoint>)

  function LoadNode(st: Loaded, rec: NodeRecord, factory: Factory): Result<Loaded, LoadError> {
    match factory(rec.nodeType)
    case None => Failure(UnknownNodeType(rec.nodeType))
    case Some(made) =>
      var n := RebuildNode(made, rec);
      match AddNode(st.graph, n)
      case Failure(_) => Failure(DuplicateNodeId(rec.id))
      case Success(g) => Success(Loaded(g, NodeIndex(st.index, n, rec)))
  }

  /** The graph and port index after the node records, or the first record's failure. */
  function LoadNodes(recs: seq<NodeRecord>, factory: Factory): Result<Loaded, LoadError> {
    if recs == [] then Success(Loaded(EmptyGraph, map[]))
    else
      match LoadNodes(recs[..|recs| - 1], factory)
      case Failure(e) => Failure(e)
      case Success(st) => LoadNode(st, recs[|recs| - 1], factory)
  }

  predicate Resolved(index: map<PortId, Endpoint>, e: EdgeRecord) {
    e.source in index && e.target in index
  }

  /** The endpoint pairs of the edge records that resolve, in record order. */
  function ResolvedPairs(index: map<PortId, Endpoint>, recs: seq<EdgeRecord>): seq<(Endpoint, Endpoint)> {
    if recs == [] then []
    else
      var e := recs[|recs| - 1];
      var m := ResolvedPairs(index, recs[..|recs| - 1]);
      if Resolved(index, e) then m + [(index[e.source], index[e.target])] else m
  }

  /**
   * The pairs are those of the resolving records: no more pairs than records,
   * each pair from a resolving record, each resolving record's pair present,
   * and one pair per record, in order, when every record resolves.
   */
  lemma {:induction false} ResolvedPairsFacts(index: map<PortId, Endpoint>, recs: seq<EdgeRecord>)
    ensures var r := ResolvedPairs(index, recs);
      && |r| <= |recs|
      && (forall q :: q in r ==> exists j :: 0 <= j < |recs| && Resolved(index, recs[j]) && q == (index[recs[j].source], index[recs[j].target]))
      && (forall j :: 0 <= j < |recs| && Resolved(index, recs[j]) ==> (index[recs[j].source], index[recs[j].target]) in r)
      && ((forall j :: 0 <= j < |recs| ==> Resolved(index, recs[j])) ==>
        |r| == |recs| && forall j :: 0 <= j < |recs| ==> r[j] == (index[recs[j].source], index[recs[j].target]))
  {
    if recs != [] {
      var init := recs[..|recs| - 1];
      var e := recs[|recs| - 1];
      ResolvedPairsFacts(index, init);
      var m := ResolvedPairs(index, init);
      var r := ResolvedPairs(index, recs);
      assert r == m + if Resolved(index, e) then [(index[e.source], index[e.target])] else [];
      forall q | q in r
        ensures exists j :: 0 <= j < |recs| && Resolved(index, recs[j]) && q == (index[recs[j].source], index[recs[j].target])
      {
        if q in m {
          var j :| 0 <= j < |init| && Resolved(index, init[j]) && q == (index[init[j].source], index[init[j].target]);
          assert init[j] == recs[j];
        } else {
          assert recs[|recs| - 1] == e;
        }
      }
      forall j | 0 <= j < |recs| && Resolved(index, recs[j]) ensures (index[recs[j].source], index[recs[j].target]) in r {
        if j < |init| {
          assert init[j] == recs[j];
        }
      }
      if forall j :: 0 <= j < |recs| ==> Resolved(index, recs[j]) {
        forall j | 0 <= j < |init| ensures Resolved(index, init[j]) {
          assert init[j] == recs[j];
        }
        forall j | 0 <= j < |recs| ensures r[j] == (index[recs[j].source], index[recs[j].target]) {
          if j < |init| {
            assert init[j] == recs[j];
          }
        }
      }
    }
  }

  /** The graph after adding an edge for each resolved record; edge ids are minted from the edge count. */
  function LoadEdges(g: Graph, index: map<PortId, Endpoint>, recs: seq<EdgeRecord>, mint: Mint): (r: Graph)
    ensures r.nodes == g.nodes
  {
    if recs == [] then g
    else
      var init := recs[..|recs| - 1];
      var e := recs[|recs| - 1];
      var h := LoadEdges(g, index, init, mint);
      if Resolved(index, e) then AddEdge(h, mint(|h.edges|), index[e.source], index[e.target]) else h
  }

  /** Reconnecting keeps the old edges and appends one edge per resolved pair, in order, under minted ids. */
  lemma {:induction false} LoadEdgesFacts(g: Graph, index: map<PortId, Endpoint>, recs: seq<EdgeRecord>, mint: Mint)
    ensures var r := LoadEdges(g, index, recs, mint);
      var pairs := ResolvedPairs(index, recs);
      && |r.edges| == |g.edges| + |pairs|
      && r.edges[..|g.edges|] == g.edges
      && forall j :: 0 <= j < |pairs| ==> r.edges[|g.edges| + j] == Edge(mint(|g.edges| + j), pairs[j].0, pairs[j].1)
  {
    if recs != [] {
      var init := recs[..|recs| - 1];
      var e := recs[|recs| - 1];
      LoadEdgesFacts(g, index, init, mint);
      var h := LoadEdges(g, index, init, mint);
      var before := ResolvedPairs(index, init);
      if Resolved(index, e) {
        var q := (index[e.source], index[e.target]);
        var pairs := ResolvedPairs(index, recs);
        var r := LoadEdges(g, index, recs, mint);
        assert pairs == before + [q];
        assert r.edges == h.edges + [Edge(mint(|h.edges|), q.0, q.1)];
        assert r.edges[..|g.edges|] == h.edges[..|g.edges|];
        forall j | 0 <= j < |pairs| ensures r.edges[|g.edges| + j] == Edge(mint(|g.edges| + j), pairs[j].0, pairs[j].1) {
          if j < |before| {
            assert pairs[j] == before[j];
          }
        }
      } else {
        assert ResolvedPairs(index, recs) == before;
      }
    }
  }

  /** `deserialize`: the rebuilt graph and the document's comments (none if absent), or the first failure. */
  function Load(doc: Document, factory: Factory, mint: Mint): Result<(Graph, seq<CommentRecord>), LoadError> {
    match LoadNodes(doc.nodes, factory)
    case Failure(e) => Failure(e)
    case Success(st) => Success((LoadEdges(st.graph, st.index, doc.edges, mint), doc.comments.GetOr([])))
  }

  /** Once a prefix of the node records fails, loading all of them fails the same way. */
  lemma {:induction false} FailurePersists(recs: seq<NodeRecord>, i: nat, factory: Factory)
    requires i <= |recs| && LoadNodes(recs[..i], factory).Failure?
    ensures LoadNodes(recs, factory) == LoadNodes(recs[..i], factory)
    decreases |recs| - i
  {
    if i == |recs| {
      assert recs[..i] == recs;
    } else {
      assert recs[..i + 1][..i] == recs[..i];
      FailurePersists(recs, i + 1, factory);
    }
  }

  lemma RebindZipped(ports: seq<Port>, saved: seq<PortRecord>, k: nat)
    requires k == Zipped(|saved|, |ports|)
    ensures Rebind(ports, saved[..k]) == Rebind(ports, saved)
  {
    var a := Rebind(ports, saved[..k]);
    var b := Rebind(ports, saved);
    forall j | 0 <= j < |ports| ensures a[j] == b[j] {
    }
  }

  /** The zip loop over one port list: rebinds ids pairwise and indexes each rebound port. */
  method RebindPorts(ports: seq<Port>, saved: seq<PortRecord>, owner: NodeId, index: map<PortId, Endpoint>)
    returns (rebound: seq<Port>, index': map<PortId, Endpoint>)
    ensures rebound == Rebind(ports, saved)
    ensures index' == IndexPorts(index, owner, rebound[..Zipped(|saved|, |ports|)])
  {
    rebound := ports;
    index' := index;
    var k := 0;
    while k < |saved| && k < |ports|
      invariant 0 <= k <= |saved| && k <= |ports| && |rebound| == |ports|
      invariant forall j :: 0 <= j < |ports| ==> rebound[j] == if j < k then ports[j].(id := saved[j].id) else ports[j]
      invariant index' == IndexPorts(index, owner, rebound[..k])
    {
      var prev := rebound;
      var p := ports[k].(id := saved[k].id);
      rebound := rebound[k := p];
      assert rebound[..k + 1] == prev[..k] + [p];
      IndexPortsSnoc(index, owner, prev[..k], p);
      index' := index'[p.id := Endpoint(owner, p.id)];
      k := k + 1;
    }
    assert rebound == Rebind(ports, saved);
  }

  /** The node loop of `deserialize`. */
  method LoadAllNodes(recs: seq<NodeRecord>, factory: Factory) returns (r: Result<Loaded, LoadError>)
    ensures r == LoadNodes(recs, factory)
  {
    var graph := EmptyGraph;
    var portMap: map<PortId, Endpoint> := map[];
    var i := 0;
    while i < |recs|
      invariant 0 <= i <= |recs|
      invariant LoadNodes(recs[..i], factory) == Success(Loaded(graph, portMap))
    {
      assert recs[..i + 1][..i] == recs[..i];
      var step := LoadRecord(graph, portMap, recs[i], factory);
      if step.Failure? {
        FailurePersists(recs, i + 1, factory);
        return Failure(step.error);
      }
      graph, portMap := step.value.graph, step.value.index;
      i := i + 1;
    }
    assert recs[..i] == recs;
    r := Success(Loaded(graph, portMap));
  }

  /** The edge loop of `deserialize`: reconnects each record whose two port ids are indexed. */
  method Reconnect(g: Graph, portMap: map<PortId, Endpoint>, recs: seq<EdgeRecord>, mint: Mint) returns (graph: Graph)
    ensures graph == LoadEdges(g, portMap, recs, mint)
  {
    graph := g;
    var j := 0;
    while j < |recs|
      invariant 0 <= j <= |recs|
      invariant graph == LoadEdges(g, portMap, recs[..j], mint)
    {
      var e := recs[j];
      assert recs[..j + 1][..j] == recs[..j];
      if e.source in portMap && e.target in portMap {
        graph := AddEdge(graph, mint(|graph.edges|), portMap[e.source], portMap[e.target]);
      }
      j := j + 1;
    }
    assert recs[..j] == recs;
  }

  /** One pass of the node loop: create, overwrite, insert, rebind and index. */
  method LoadRecord(graph: Graph, portMap: map<PortId, Endpoint>, rec: NodeRecord, factory: Factory)
    returns (r: Result<Loaded, LoadError>)
    ensures r == LoadNode(Loaded(graph, portMap), rec, factory)
  {
    var created := factory(rec.nodeType);
    if created.None? {
      return Failure(UnknownNodeType(rec.nodeType));
    }
    var node := created.value.(id := rec.id, title := rec.title, x := rec.x, y := rec.y,
      properties := rec.properties.GetOr(map[]));
    if node.id in NodeIds(graph.nodes) {
      return Failure(DuplicateNodeId(rec.id));
    }
    var ins, outs;
    var pm := portMap;
    ins, pm := RebindPorts(node.inputs, rec.inputs.GetOr([]), node.id, pm);
    outs, pm := RebindPorts(node.outputs, rec.outputs.GetOr([]), node.id, pm);
    node := node.(inputs := ins, outputs := outs);
    assert node == RebuildNode(created.value, rec);
    r := Success(Loaded(Graph(graph.nodes + [node], graph.edges), pm));
  }

  /** `deserialize` over the document records. */
  method Deserialize(doc: Document, factory: Factory, mint: Mint)
    returns (r: Result<(Graph, seq<CommentRecord>), LoadError>)
    ensures r == Load(doc, factory, mint)
  {
    var nodes := LoadAllNodes(doc.nodes, factory);
    if nodes.Failure? {
      return Failure(nodes.error);
    }
    var graph := Reconnect(nodes.value.graph, nodes.value.index, doc.edges, mint);
    r := Success((graph, doc.comments.GetOr([])));
  }

  // ---- What loading promises ----

  /** A record loading stops at: its type is unknown to the factory, or an earlier record has its id. */
  ghost predicate BadRecord(recs: seq<NodeRecord>, k: int, factory: Factory)
    requires 0 <= k < |recs|
  {
    factory(recs[k].nodeType).None? || exists j :: 0 <= j < k && recs[j].id == recs[k].id
  }

  /** Loaded node records leave a graph without edges holding each record's rebuilt node, in record order. */
  lemma {:induction false} LoadNodesShape(recs: seq<NodeRecord>, factory: Factory)
    requires LoadNodes(recs, factory).Success?
    ensures var h := LoadNodes(recs, factory).value.graph;
      && h.edges == [] && |h.nodes| == |recs|
      && forall k :: 0 <= k < |recs| ==>
        factory(recs[k].nodeType).Some? && h.nodes[k] == RebuildNode(factory(recs[k].nodeType).value, recs[k])
  {
    if recs != [] {
      var init := recs[..|recs| - 1];
      LoadNodesShape(init, factory);
      assert forall k :: 0 <= k < |init| ==> init[k] == recs[k];
    }
  }

  /** Whether a record is bad depends only on the records before it. */
  lemma BadRecordOfPrefix(recs: seq<NodeRecord>, i: nat, factory: Factory)
    requires i <= |recs|
    ensures forall k :: 0 <= k < i ==> (BadRecord(recs[..i], k, factory) <==> BadRecord(recs, k, factory))
  {
    forall k | 0 <= k < i ensures BadRecord(recs[..i], k, factory) <==> BadRecord(recs, k, factory) {
      assert forall j :: 0 <= j <= k ==> recs[..i][j] == recs[j];
    }
  }

  function RecordIds(recs: seq<NodeRecord>): set<NodeId> {
    set k | 0 <= k < |recs| :: recs[k].id
  }

  lemma RecordIdsSnoc(recs: seq<NodeRecord>)
    requires recs != []
    ensures RecordIds(recs) == RecordIds(recs[..|recs| - 1]) + {recs[|recs| - 1].id}
  {
    var n := |recs| - 1;
    var init := recs[..n];
    forall x | x in RecordIds(recs) ensures x in RecordIds(init) + {recs[n].id} {
      var k :| 0 <= k < |recs| && recs[k].id == x;
      if k < n { assert init[k] == recs[k]; }
    }
    forall x | x in RecordIds(init) ensures x in RecordIds(recs) {
      var k :| 0 <= k < n && init[k].id == x;
      assert recs[k] == init[k];
    }
  }

  lemma NodeIdsSnoc(ns: seq<Node>, node: Node)
    ensures NodeIds(ns + [node]) == NodeIds(ns) + {node.id}
  {
    var all := ns + [node];
    forall x | x in NodeIds(all) ensures x in NodeIds(ns) + {node.id} {
      var k :| 0 <= k < |all| && all[k].id == x;
      if k < |ns| { assert ns[k] == all[k]; }
    }
    forall x | x in NodeIds(ns) ensures x in NodeIds(all) {
      var k :| 0 <= k < |ns| && ns[k].id == x;
      assert all[k] == ns[k];
    }
    assert all[|ns|] == node;
  }

  /** Loaded node records leave exactly their ids in the graph. */
  lemma {:induction false} LoadedIds(recs: seq<NodeRecord>, factory: Factory)
    requires LoadNodes(recs, factory).Success?
    ensures NodeIds(LoadNodes(recs, factory).value.graph.nodes) == RecordIds(recs)
  {
    if recs != [] {
      var n := |recs| - 1;
      var init := recs[..n];
      LoadedIds(init, factory);
      var st := LoadNodes(init, factory).value;
      var made := factory(recs[n].nodeType).value;
      var node := RebuildNode(made, recs[n]);
      var h := LoadNodes(recs, factory).value.graph;
      assert h.nodes == st.graph.nodes + [node];
      RecordIdsSnoc(recs);
      NodeIdsSnoc(st.graph.nodes, node);
    }
  }

  /** After the records before it have loaded, the last record loads exactly when it is not bad. */
  lemma LastRecordLoads(recs: seq<NodeRecord>, factory: Factory)
    requires recs != [] && LoadNodes(recs[..|recs| - 1], factory).Success?
    ensures LoadNodes(recs, factory).Success? <==> !BadRecord(recs, |recs| - 1, factory)
  {
    var n := |recs| - 1;
    var init := recs[..n];
    var last := recs[n];
    LoadedIds(init, factory);
    var st := LoadNodes(init, factory).value;
    assert LoadNodes(recs, factory) == LoadNode(st, last, factory);
    if factory(last.nodeType).Some? {
      assert RebuildNode(factory(last.nodeType).value, last).id == last.id;
      if last.id in RecordIds(init) {
        var j :| 0 <= j < n && init[j].id == last.id;
        assert recs[j].id == recs[n].id;
      } else {
        assert forall j :: 0 <= j < n ==> recs[j].id != recs[n].id by {
          assert forall j :: 0 <= j < n ==> init[j] == recs[j];
        }
      }
    }
  }

  /** The node records load exactly when none of them is bad. */
  lemma {:induction false} LoadNodesSucceedsIff(recs: seq<NodeRecord>, factory: Factory)
    ensures LoadNodes(recs, factory).Success? <==> forall k :: 0 <= k < |recs| ==> !BadRecord(recs, k, factory)
  {
    if recs != [] {
      var n := |recs| - 1;
      LoadNodesSucceedsIff(recs[..n], factory);
      BadRecordOfPrefix(recs, n, factory);
      if LoadNodes(recs[..n], factory).Success? {
        LastRecordLoads(recs, factory);
      }
    }
  }

  /** Loading fails exactly when some node record is bad; unresolved edges never make it fail. */
  lemma LoadFailsIff(doc: Document, factory: Factory, mint: Mint)
    ensures Load(doc, factory, mint).Failure? <==> exists k :: 0 <= k < |doc.nodes| && BadRecord(doc.nodes, k, factory)
  {
    LoadNodesSucceedsIff(doc.nodes, factory);
  }

  /**
   * Each loaded node has its record's id, title, position and properties (none
   * read as empty), the factory's node type, and the factory's ports with ids
   * rebound pairwise; the comments are the document's, or none.
   */
  lemma LoadedNodes(doc: Document, factory: Factory, mint: Mint)
    requires Load(doc, factory, mint).Success?
    ensures var (h, c) := Load(doc, factory, mint).value;
      && c == doc.comments.GetOr([])
      && |h.nodes| == |doc.nodes|
      && forall k :: 0 <= k < |doc.nodes| ==>
        var rec := doc.nodes[k];
        var made := factory(rec.nodeType);
        && made.Some?
        && h.nodes[k].id == rec.id && h.nodes[k].title == rec.title
        && h.nodes[k].x == rec.x && h.nodes[k].y == rec.y
        && h.nodes[k].properties == rec.properties.GetOr(map[])
        && h.nodes[k].nodeType == made.value.nodeType
        && h.nodes[k].inputs == Rebind(made.value.inputs, rec.inputs.GetOr([]))
        && h.nodes[k].outputs == Rebind(made.value.outputs, rec.outputs.GetOr([]))
  {
    LoadNodesShape(doc.nodes, factory);
  }

  /**
   * Entering a rebuilt node's ports indexes every rebound port under its new
   * id as a port of that node, and keeps every entry whose key is not one of them.
   */
  lemma NodeIndexFacts(index: map<PortId, Endpoint>, n: Node, rec: NodeRecord)
    ensures var zin := Zipped(|rec.inputs.GetOr([])|, |n.inputs|);
      forall j :: 0 <= j < zin ==> var q := n.inputs[j].id;
        q in NodeIndex(index, n, rec) && NodeIndex(index, n, rec)[q] == Endpoint(n.id, q)
    ensures var zout := Zipped(|rec.outputs.GetOr([])|, |n.outputs|);
      forall j :: 0 <= j < zout ==> var q := n.outputs[j].id;
        q in NodeIndex(index, n, rec) && NodeIndex(index, n, rec)[q] == Endpoint(n.id, q)
    ensures forall q :: q in index && q !in PortIdsOf(n.inputs) && q !in PortIdsOf(n.outputs) ==>
      q in NodeIndex(index, n, rec) && NodeIndex(index, n, rec)[q] == index[q]
  {
    var zin := Zipped(|rec.inputs.GetOr([])|, |n.inputs|);
    var zout := Zipped(|rec.outputs.GetOr([])|, |n.outputs|);
    var ins := n.inputs[..zin];
    var outs := n.outputs[..zout];
    var a := IndexPorts(index, n.id, ins);
    IndexPortsFacts(index, n.id, ins);
    IndexPortsFacts(a, n.id, outs);
    forall j | 0 <= j < zin ensures n.inputs[j].id in PortIdsOf(ins) {
      assert ins[j] == n.inputs[j];
    }
    forall j | 0 <= j < zout ensures n.outputs[j].id in PortIdsOf(outs) {
      assert outs[j] == n.outputs[j];
    }
    forall q | q in PortIdsOf(ins) ensures q in PortIdsOf(n.inputs) {
      var j :| 0 <= j < |ins| && ins[j].id == q;
      assert n.inputs[j] == ins[j];
    }
    forall q | q in PortIdsOf(outs) ensures q in PortIdsOf(n.outputs) {
      var j :| 0 <= j < |outs| && outs[j].id == q;
      assert n.outputs[j] == outs[j];
    }
  }

  // ---- Round trip ----

  /** The factory makes a node of this node's type with as many inputs and outputs. */
  predicate SameLayout(made: Option<Node>, n: Node) {
    && made.Some? && made.value.nodeType == n.nodeType
    && |made.value.inputs| == |n.inputs| && |made.value.outputs| == |n.outputs|
  }

  /** ... and its ports have this node's names, types and directions. */
  predicate SamePorts(made: Option<Node>, n: Node) {
    && SameLayout(made, n)
    && (forall j :: 0 <= j < |n.inputs| ==> made.value.inputs[j].(id := n.inputs[j].id) == n.inputs[j])
    && (forall j :: 0 <= j < |n.outputs| ==> made.value.outputs[j].(id := n.outputs[j].id) == n.outputs[j])
  }

  ghost predicate RecreatesLayouts(factory: Factory, g: Graph) {
    forall k :: 0 <= k < |g.nodes| ==> SameLayout(factory(g.nodes[k].nodeType), g.nodes[k])
  }

  /** A loaded node keeps the saved node's id, type, title, position, properties and port ids. */
  predicate Preserves(m: Node, n: Node) {
    && m.id == n.id && m.nodeType == n.nodeType && m.title == n.title
    && m.x == n.x && m.y == n.y && m.properties == n.properties
    && |m.inputs| == |n.inputs| && |m.outputs| == |n.outputs|
    && (forall j :: 0 <= j < |n.inputs| ==> m.inputs[j].id == n.inputs[j].id)
    && (forall j :: 0 <= j < |n.outputs| ==> m.outputs[j].id == n.outputs[j].id)
  }

  lemma SamePortIds(a: seq<Port>, b: seq<Port>)
    requires |a| == |b| && forall j :: 0 <= j < |a| ==> a[j].id == b[j].id
    ensures PortIdsOf(a) == PortIdsOf(b)
  {
    forall x | x in PortIdsOf(a) ensures x in PortIdsOf(b) {
      var j :| 0 <= j < |a| && a[j].id == x;
    }
    forall x | x in PortIdsOf(b) ensures x in PortIdsOf(a) {
      var j :| 0 <= j < |b| && b[j].id == x;
    }
  }

  /** Rebuilding a saved node through a factory with the same layout preserves it; with the same ports, exactly. */
  lemma RebuiltPreserves(made: Option<Node>, n: Node)
    requires SameLayout(made, n)
    ensures Preserves(RebuildNode(made.value, NodeRecordOf(n)), n)
    ensures SamePorts(made, n) ==> RebuildNode(made.value, NodeRecordOf(n)) == n
  {
    var m := RebuildNode(made.value, NodeRecordOf(n));
    if SamePorts(made, n) {
      assert m.inputs == n.inputs;
      assert m.outputs == n.outputs;
    }
  }

  /** The index maps the id of every port of the first `i` nodes to that port of its node. */
  ghost predicate OwnersIndexed(index: map<PortId, Endpoint>, g: Graph, i: nat)
    requires i <= |g.nodes|
  {
    forall k, a :: 0 <= k < i && 0 <= a < |Ports(g.nodes[k])| ==>
      Ports(g.nodes[k])[a].id in index && index[Ports(g.nodes[k])[a].id] == Endpoint(g.nodes[k].id, Ports(g.nodes[k])[a].id)
  }

  /** A port id of another node of a graph with unique port ids is none of this node's. */
  lemma OtherNodesPortIds(g: Graph, i: nat, k: nat, a: nat)
    requires UniquePortIds(g) && i < |g.nodes| && k < |g.nodes| && k != i && a < |Ports(g.nodes[k])|
    ensures Ports(g.nodes[k])[a].id !in PortIdsOf(g.nodes[i].inputs)
    ensures Ports(g.nodes[k])[a].id !in PortIdsOf(g.nodes[i].outputs)
  {
    var n := g.nodes[i];
    var q := Ports(g.nodes[k])[a].id;
    assert HasPortAt(g, k, a);
    forall j | 0 <= j < |n.inputs| ensures n.inputs[j].id != q {
      assert Ports(n)[j] == n.inputs[j] && HasPortAt(g, i, j);
    }
    forall j | 0 <= j < |n.outputs| ensures n.outputs[j].id != q {
      assert Ports(n)[|n.inputs| + j] == n.outputs[j] && HasPortAt(g, i, |n.inputs| + j);
    }
  }

  /** Every port of a fully rebound node is indexed under its id as a port of that node. */
  lemma IndexOwnPorts(index: map<PortId, Endpoint>, n: Node, m: Node, rec: NodeRecord)
    requires Preserves(m, n)
    requires |rec.inputs.GetOr([])| == |n.inputs| && |rec.outputs.GetOr([])| == |n.outputs|
    ensures forall a :: 0 <= a < |Ports(n)| ==>
      Ports(n)[a].id in NodeIndex(index, m, rec) && NodeIndex(index, m, rec)[Ports(n)[a].id] == Endpoint(n.id, Ports(n)[a].id)
  {
    NodeIndexFacts(index, m, rec);
    forall a | 0 <= a < |Ports(n)|
      ensures Ports(n)[a].id in NodeIndex(index, m, rec) && NodeIndex(index, m, rec)[Ports(n)[a].id] == Endpoint(n.id, Ports(n)[a].id)
    {
      if a < |n.inputs| {
        assert Ports(n)[a].id == m.inputs[a].id;
      } else {
        assert Ports(n)[a].id == m.outputs[a - |n.inputs|].id;
      }
    }
  }

  /** Indexing the next saved node's rebuilt ports keeps the earlier nodes' entries, as port ids are unique. */
  lemma IndexStep(index: map<PortId, Endpoint>, g: Graph, i: nat, made: Option<Node>)
    requires UniquePortIds(g) && i < |g.nodes| && SameLayout(made, g.nodes[i])
    requires OwnersIndexed(index, g, i)
    ensures OwnersIndexed(NodeIndex(index, RebuildNode(made.value, NodeRecordOf(g.nodes[i])), NodeRecordOf(g.nodes[i])), g, i + 1)
  {
    var n := g.nodes[i];
    var rec := NodeRecordOf(n);
    var m := RebuildNode(made.value, rec);
    var r := NodeIndex(index, m, rec);
    RebuiltPreserves(made, n);
    SamePortIds(m.inputs, n.inputs);
    SamePortIds(m.outputs, n.outputs);
    EarlierOwnersKept(index, g, i, m, rec);
    IndexOwnPorts(index, n, m, rec);
    forall k, a | 0 <= k < i + 1 && 0 <= a < |Ports(g.nodes[k])|
      ensures Ports(g.nodes[k])[a].id in r && r[Ports(g.nodes[k])[a].id] == Endpoint(g.nodes[k].id, Ports(g.nodes[k])[a].id)
    {
      if k == i {
        assert g.nodes[k] == n;
      }
    }
  }

  /** Indexing one node's ports keeps the entries of the nodes before it, as their port ids are not among them. */
  lemma EarlierOwnersKept(index: map<PortId, Endpoint>, g: Graph, i: nat, m: Node, rec: NodeRecord)
    requires UniquePortIds(g) && i < |g.nodes| && OwnersIndexed(index, g, i)
    requires PortIdsOf(m.inputs) == PortIdsOf(g.nodes[i].inputs) && PortIdsOf(m.outputs) == PortIdsOf(g.nodes[i].outputs)
    ensures OwnersIndexed(NodeIndex(index, m, rec), g, i)
  {
    var r := NodeIndex(index, m, rec);
    NodeIndexFacts(index, m, rec);
    forall k, a | 0 <= k < i && 0 <= a < |Ports(g.nodes[k])|
      ensures Ports(g.nodes[k])[a].id in r && r[Ports(g.nodes[k])[a].id] == Endpoint(g.nodes[k].id, Ports(g.nodes[k])[a].id)
    {
      OtherNodesPortIds(g, i, k, a);
    }
  }

  /** The saved node records of a well-formed graph load, node by node, into preserved nodes and a full index. */
  lemma {:induction false} SavedNodesLoad(g: Graph, factory: Factory, i: nat)
    requires UniqueNodeIds(g) && UniquePortIds(g) && RecreatesLayouts(factory, g) && i <= |g.nodes|
    ensures LoadNodes(NodeRecords(g.nodes)[..i], factory).Success?
    ensures var st := LoadNodes(NodeRecords(g.nodes)[..i], factory).value;
      && st.graph.edges == [] && |st.graph.nodes| == i
      && (forall k :: 0 <= k < i ==> Preserves(st.graph.nodes[k], g.nodes[k]))
      && OwnersIndexed(st.index, g, i)
  {
    var recs := NodeRecords(g.nodes);
    if i > 0 {
      SavedNodesLoad(g, factory, i - 1);
      assert recs[..i][..i - 1] == recs[..i - 1];
      var st := LoadNodes(recs[..i - 1], factory).value;
      var n := g.nodes[i - 1];
      var made := factory(n.nodeType);
      var m := RebuildNode(made.value, recs[i - 1]);
      RebuiltPreserves(made, n);
      forall k | 0 <= k < |st.graph.nodes| ensures st.graph.nodes[k].id != n.id {
        assert g.nodes[k].id == st.graph.nodes[k].id;
      }
      assert LoadNodes(recs[..i], factory) == LoadNode(st, recs[i - 1], factory);
      IndexStep(st.index, g, i - 1, made);
    } else {
      assert recs[..0] == [];
    }
  }

  /** Every edge record saved from a well-formed graph resolves, through a full index, to the edge's own endpoints. */
  lemma SavedEdgesResolve(g: Graph, index: map<PortId, Endpoint>)
    requires WellFormed(g) && OwnersIndexed(index, g, |g.nodes|)
    ensures forall k :: 0 <= k < |g.edges| ==>
      && Resolved(index, EdgeRecords(g.edges)[k])
      && index[EdgeRecords(g.edges)[k].source] == g.edges[k].source
      && index[EdgeRecords(g.edges)[k].target] == g.edges[k].target
  {
    forall k | 0 <= k < |g.edges|
      ensures Resolved(index, EdgeRecords(g.edges)[k])
      ensures index[EdgeRecords(g.edges)[k].source] == g.edges[k].source
      ensures index[EdgeRecords(g.edges)[k].target] == g.edges[k].target
    {
      var e := g.edges[k];
      assert Resolves(g, e.source) && Resolves(g, e.target);
      var i, a :| HasPortAt(g, i, a) && g.nodes[i].id == e.source.node && Ports(g.nodes[i])[a].id == e.source.port;
      var j, b :| HasPortAt(g, j, b) && g.nodes[j].id == e.target.node && Ports(g.nodes[j])[b].id == e.target.port;
    }
  }

  /** The saved node records of a well-formed graph load into preserved nodes, a full index and no edges. */
  lemma SavedGraphNodesLoad(g: Graph, factory: Factory)
    requires WellFormed(g) && RecreatesLayouts(factory, g)
    ensures LoadNodes(NodeRecords(g.nodes), factory).Success?
    ensures var st := LoadNodes(NodeRecords(g.nodes), factory).value;
      && st.graph.edges == [] && |st.graph.nodes| == |g.nodes|
      && (forall k :: 0 <= k < |g.nodes| ==> Preserves(st.graph.nodes[k], g.nodes[k]))
      && OwnersIndexed(st.index, g, |g.nodes|)
  {
    SavedNodesLoad(g, factory, |g.nodes|);
    assert NodeRecords(g.nodes)[..|g.nodes|] == NodeRecords(g.nodes);
  }

  /** Reconnecting the saved edge records of a well-formed graph through a full index recreates every edge, in order. */
  lemma SavedEdgesLoad(g: Graph, h: Graph, index: map<PortId, Endpoint>, mint: Mint)
    requires WellFormed(g) && OwnersIndexed(index, g, |g.nodes|) && h.edges == []
    ensures var r := LoadEdges(h, index, EdgeRecords(g.edges), mint);
      && r.nodes == h.nodes && |r.edges| == |g.edges|
      && forall k :: 0 <= k < |g.edges| ==> r.edges[k] == Edge(mint(k), g.edges[k].source, g.edges[k].target)
  {
    var recs := EdgeRecords(g.edges);
    SavedEdgesResolve(g, index);
    LoadEdgesFacts(h, index, recs, mint);
    ResolvedPairsFacts(index, recs);
    var pairs := ResolvedPairs(index, recs);
    var r := LoadEdges(h, index, recs, mint);
    assert |pairs| == |g.edges|;
    forall k | 0 <= k < |g.edges| ensures r.edges[k] == Edge(mint(k), g.edges[k].source, g.edges[k].target) {
      assert pairs[k] == (index[recs[k].source], index[recs[k].target]);
      assert r.edges[|h.edges| + k] == Edge(mint(|h.edges| + k), pairs[k].0, pairs[k].1);
    }
  }

  /**
   * Saving a well-formed graph and loading it back through a factory that
   * recreates each node type with the same port counts succeeds, gives back
   * the comments, preserves every node's id, type, title, position,
   * properties and port ids, in order, and reconnects every edge between the
   * same endpoints, in order, under a freshly minted id.
   */
  lemma RoundTrip(g: Graph, comments: seq<CommentRecord>, factory: Factory, mint: Mint)
    requires WellFormed(g) && RecreatesLayouts(factory, g)
    ensures Load(Save(g, comments), factory, mint).Success?
    ensures var (h, c) := Load(Save(g, comments), factory, mint).value;
      && c == comments
      && |h.nodes| == |g.nodes|
      && (forall k :: 0 <= k < |g.nodes| ==> Preserves(h.nodes[k], g.nodes[k]))
      && |h.edges| == |g.edges|
      && forall k :: 0 <= k < |g.edges| ==> h.edges[k] == Edge(mint(k), g.edges[k].source, g.edges[k].target)
  {
    SavedGraphNodesLoad(g, factory);
    var st := LoadNodes(NodeRecords(g.nodes), factory).value;
    SavedEdgesLoad(g, st.graph, st.index, mint);
  }

  lemma ExactNodesLoad(g: Graph, factory: Factory)
    requires WellFormed(g)
    requires forall k :: 0 <= k < |g.nodes| ==> SamePorts(factory(g.nodes[k].nodeType), g.nodes[k])
    ensures LoadNodes(NodeRecords(g.nodes), factory).Success?
    ensures var st := LoadNodes(NodeRecords(g.nodes), factory).value;
      st.graph == Graph(g.nodes, []) && OwnersIndexed(st.index, g, |g.nodes|)
  {
    var recs := NodeRecords(g.nodes);
    SavedGraphNodesLoad(g, factory);
    LoadNodesShape(recs, factory);
    var st := LoadNodes(recs, factory).value;
    forall k | 0 <= k < |g.nodes| ensures st.graph.nodes[k] == g.nodes[k] {
      assert recs[k] == NodeRecordOf(g.nodes[k]);
      RebuiltPreserves(factory(g.nodes[k].nodeType), g.nodes[k]);
    }
  }

  /** The edges under ids drawn afresh from `mint`, by position. */
  function RemintedEdges(es: seq<Edge>, mint: Mint): seq<Edge> {
    seq(|es|, k requires 0 <= k < |es| => es[k].(id := mint(k)))
  }

  /** With a factory that also recreates the port names, types and directions, only the edge ids change. */
  lemma ExactRoundTrip(g: Graph, comments: seq<CommentRecord>, factory: Factory, mint: Mint)
    requires WellFormed(g)
    requires forall k :: 0 <= k < |g.nodes| ==> SamePorts(factory(g.nodes[k].nodeType), g.nodes[k])
    ensures Load(Save(g, comments), factory, mint) == Success((Graph(g.nodes, RemintedEdges(g.edges, mint)), comments))
  {
    ExactNodesLoad(g, factory);
    var st := LoadNodes(NodeRecords(g.nodes), factory).value;
    LoadOfSave(g, comments, factory, mint);
    SavedEdgesLoad(g, st.graph, st.index, mint);
    var h := LoadEdges(st.graph, st.index, EdgeRecords(g.edges), mint);
    Reminted(h.edges, g.edges, mint);
    assert h == Graph(g.nodes, RemintedEdges(g.edges, mint));
  }

  lemma Reminted(loaded: seq<Edge>, saved: seq<Edge>, mint: Mint)
    requires |loaded| == |saved|
    requires forall k :: 0 <= k < |saved| ==> loaded[k] == Edge(mint(k), saved[k].source, saved[k].target)
    ensures loaded == RemintedEdges(saved, mint)
  {
  }

  /** Loading a saved document whose nodes load is reconnecting its edge records over the loaded nodes. */
  lemma LoadOfSave(g: Graph, comments: seq<CommentRecord>, factory: Factory, mint: Mint)
    requires LoadNodes(NodeRecords(g.nodes), factory).Success?
    ensures var st := LoadNodes(NodeRecords(g.nodes), factory).value;
      Load(Save(g, comments), factory, mint) == Success((LoadEdges(st.graph, st.index, EdgeRecords(g.edges), mint), comments))
  {
  }

  /** A saved node whose type the factory does not know makes loading fail, whatever else the document holds. */
  lemma UnknownTypeFailsLoad(g: Graph, comments: seq<CommentRecord>, factory: Factory, mint: Mint, k: nat)
    requires k < |g.nodes| && factory(g.nodes[k].nodeType).None?
    ensures Load(Save(g, comments), factory, mint).Failure?
  {
    LoadFailsIff(Save(g, comments), factory, mint);
    assert BadRecord(Save(g, comments).nodes, k, factory);
  }
}
