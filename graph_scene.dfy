/**
 * The connection check and edge bookkeeping of ui/graph_scene.py. The scene
 * keeps its own list of edge items and runs a second validator over it, with
 * the same checks as core/validator.py except the cycle test.
 */
module Scene {
  import opened Wrappers
  import opened PortTypes
  import opened GraphModel
  import opened Validator

  /** The source of a proposed connection: the item that is not an input. */
  function SceneSource(a: PortItem, b: PortItem): PortItem {
    if !a.isInput then a else b
  }

  /** The other item of the pair. */
  function SceneTarget(a: PortItem, b: PortItem): PortItem {
    if SceneSource(a, b) == a then b else a
  }

  /** The decision of `_is_valid_connection` over the scene's edge items. */
  predicate SceneAccepted(edges: seq<EdgeItem>, a: PortItem, b: PortItem) {
    && a != b
    && a.node != b.node
    && a.isInput != b.isInput
    && SceneSource(a, b).port.portType == SceneTarget(a, b).port.portType
    && !TargetTaken(edges, SceneTarget(a, b))
  }

  class GraphScene {
    /** The edge items drawn in the scene, in the order they were added. */
    var edges: seq<EdgeItem>
    /** A connection is being dragged (`drag_edge` is set). */
    var dragging: bool
    var startPort: Option<PortItem>

    constructor ()
      ensures edges == [] && !dragging && startPort == None
    {
      edges := [];
      dragging := false;
      startPort := None;
    }

    /** `_is_valid_connection(a, b)`. */
    method IsValidConnection(a: PortItem, b: PortItem) returns (ok: bool)
      ensures ok <==> SceneAccepted(edges, a, b)
    {
      if a == b {
        return false;
      }
      if a.node == b.node {
        return false;
      }
      if a.isInput == b.isInput {
        return false;
      }
      var source := if !a.isInput then a else b;
      var target := if source == a then b else a;
      if source.port.portType != target.port.portType {
        return false;
      }
      var i := 0;
      while i < |edges|
        invariant 0 <= i <= |edges|
        invariant forall k :: 0 <= k < i ==> edges[k].targetPort != target
      {
        if edges[i].targetPort == target {
          return false;
        }
        i := i + 1;
      }
      return true;
    }

    /**
     * `finalize_connection(start, end)`: a rejected pair cancels the drag and
     * leaves the edge list alone; an accepted pair appends one edge item from
     * the non-input item to the other. Either way the drag is over.
     */
    method FinalizeConnection(start: PortItem, end: PortItem)
      requires dragging
      modifies this
      ensures !SceneAccepted(old(edges), start, end) ==> edges == old(edges)
      ensures SceneAccepted(old(edges), start, end) ==>
        edges == old(edges) + [EdgeItem(SceneSource(start, end), SceneTarget(start, end))]
      ensures !dragging && startPort == None
    {
      var ok := IsValidConnection(start, end);
      if !ok {
        dragging, startPort := false, None;
        return;
      }
      var source := if !start.isInput then start else end;
      var target := if source == start then end else start;
      edges := edges + [EdgeItem(source, target)];
      dragging, startPort := false, None;
    }
  }

  /** Everything the core validator accepts, the scene accepts too. */
  lemma CoreAcceptedIsSceneAccepted(g: Graph, edges: seq<EdgeItem>, a: PortItem, b: PortItem)
    requires ConnectionAccepted(g, edges, a, b)
    ensures SceneAccepted(edges, a, b)
  {
  }

  /** Short of the cycle test, the two validators agree. */
  lemma SceneIsCoreWithoutCycleTest(g: Graph, edges: seq<EdgeItem>, a: PortItem, b: PortItem)
    requires !Reachable(g, Dst(a, b).node, Src(a, b).node)
    ensures SceneAccepted(edges, a, b) <==> ConnectionAccepted(g, edges, a, b)
  {
  }

  /**
   * The scene has no cycle test: with an edge A -> B in place, connecting B's
   * output back to A's input is accepted by the scene, rejected by the core
   * validator, and would make the graph cyclic.
   */
  lemma SceneAcceptsCycle()
    ensures
      var aIn := PortItem(Port("a-in", "Exec", Exec, Input), "A", true);
      var aOut := PortItem(Port("a-out", "Exec", Exec, Output), "A", false);
      var bIn := PortItem(Port("b-in", "Exec", Exec, Input), "B", true);
      var bOut := PortItem(Port("b-out", "Exec", Exec, Output), "B", false);
      var g := Graph([], [Edge("e1", EndpointOf(aOut), EndpointOf(bIn))]);
      var items := [EdgeItem(aOut, bIn)];
      && SceneAccepted(items, bOut, aIn)
      && !ConnectionAccepted(g, items, bOut, aIn)
      && !Acyclic(AddEdge(g, "e2", EndpointOf(bOut), EndpointOf(aIn)))
  {
    var aIn := PortItem(Port("a-in", "Exec", Exec, Input), "A", true);
    var aOut := PortItem(Port("a-out", "Exec", Exec, Output), "A", false);
    var bIn := PortItem(Port("b-in", "Exec", Exec, Input), "B", true);
    var bOut := PortItem(Port("b-out", "Exec", Exec, Output), "B", false);
    var g := Graph([], [Edge("e1", EndpointOf(aOut), EndpointOf(bIn))]);
    var items := [EdgeItem(aOut, bIn)];
    assert SceneTarget(bOut, aIn) == aIn;
    assert !TargetTaken(items, aIn);
    assert g.edges[0].source.node == "A" && g.edges[0].target.node == "B";
    assert Arrow(g, "A", "B");
    assert IsPath(g, ["A", "B"]);
    assert Reachable(g, "A", "B");
    var g' := AddEdge(g, "e2", EndpointOf(bOut), EndpointOf(aIn));
    assert g'.edges[0].source.node == "A" && g'.edges[0].target.node == "B";
    assert g'.edges[1].source.node == "B" && g'.edges[1].target.node == "A";
    assert Arrow(g', "A", "B") && Arrow(g', "B", "A");
    var p := ["A", "B", "A"];
    assert IsPath(g', p);
  }
}
