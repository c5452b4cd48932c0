/**
 * The connection validator of core/validator.py: a chain of early-return
 * checks on two port items, a depth-first reachability search that keeps the
 * graph free of cycles, and a fan-in check over the existing edge items.
 */
module Validator {
  import opened GraphModel
  import opened PortTypes

  /** A port item of the scene: the port it shows, the id of that port's node, and the item's input flag. */
  datatype PortItem = PortItem(port: Port, node: NodeId, isInput: bool)

  /** An edge item of the scene, between two port items. */
  datatype EdgeItem = EdgeItem(sourcePort: PortItem, targetPort: PortItem)

  /** An item whose input flag agrees with its port's direction, as the scene builds them. */
  predicate Consistent(p: PortItem) {
    p.isInput <==> p.port.direction == Input
  }

  function EndpointOf(p: PortItem): Endpoint {
    Endpoint(p.node, p.port.id)
  }

  /** The output-side item of the pair, judged by port direction. */
  function Src(a: PortItem, b: PortItem): PortItem {
    if a.port.direction == Output then a else b
  }

  function Dst(a: PortItem, b: PortItem): PortItem {
    if a.port.direction == Output then b else a
  }

  /** Some existing edge item already ends at `item`. */
  predicate TargetTaken(existing: seq<EdgeItem>, item: PortItem) {
    exists k :: 0 <= k < |existing| && existing[k].targetPort == item
  }

  /** The decision of `is_valid_connection`, check by check. */
  ghost predicate ConnectionAccepted(g: Graph, existing: seq<EdgeItem>, a: PortItem, b: PortItem) {
    && a != b
    && a.node != b.node
    && a.isInput != b.isInput
    && a.port.portType == b.port.portType
    && !Reachable(g, Dst(a, b).node, Src(a, b).node)
    && !TargetTaken(existing, if b.isInput then b else a)
  }

  // ---- Depth-first search ----

  function EdgeTargets(g: Graph): set<NodeId> {
    set k | 0 <= k < |g.edges| :: g.edges[k].target.node
  }

  /** Every node of `s` that is not in `before` has all its successors in `s`. */
  ghost predicate ClosedOutside(g: Graph, s: set<NodeId>, before: set<NodeId>) {
    forall k :: 0 <= k < |g.edges| && g.edges[k].source.node in s && g.edges[k].source.node !in before ==>
      g.edges[k].target.node in s
  }

  lemma Shrinks(u: set<NodeId>, node: NodeId, t: NodeId, visited: set<NodeId>, v: set<NodeId>)
    requires t in u && node !in visited && visited + {node} <= v
    ensures |u + {t} - v| < |u + {node} - visited|
  {
    SubsetSize(u + {t} - v, u - (visited + {node}));
    SubsetSize(u - (visited + {node}), u + {node} - visited);
  }

  lemma SubsetSize(a: set<NodeId>, b: set<NodeId>)
    requires a <= b
    ensures |a| <= |b| && (a < b ==> |a| < |b|)
  {
    assert b == a + (b - a) && a * (b - a) == {};
    if a < b {
      var x :| x in b - a;
    }
  }

  /**
   * The inner `dfs` of `_can_reach`. Enters each node id at most once; on
   * success the target is reachable, on failure every node it entered has all
   * its successors entered too, and the target was never entered.
   */
  method Dfs(g: Graph, node: NodeId, target: NodeId, visited: set<NodeId>) returns (found: bool, visited': set<NodeId>)
    requires target !in visited
    ensures visited <= visited'
    ensures found ==> Reachable(g, node, target)
    ensures !found ==> node in visited' && target !in visited' && ClosedOutside(g, visited', visited)
    decreases |EdgeTargets(g) + {node} - visited|
  {
    if node in visited {
      return false, visited;
    }
    var v := visited + {node};
    if node == target {
      ReachRefl(g, node);
      return true, v;
    }
    var i := 0;
    while i < |g.edges|
      invariant 0 <= i <= |g.edges|
      invariant visited + {node} <= v && target !in v
      invariant ClosedOutside(g, v, visited + {node})
      invariant forall k :: 0 <= k < i && g.edges[k].source.node == node ==> g.edges[k].target.node in v
    {
      var e := g.edges[i];
      if e.source.node == node {
        assert e.target.node in EdgeTargets(g);
        Shrinks(EdgeTargets(g), node, e.target.node, visited, v);
        var f, v2 := Dfs(g, e.target.node, target, v);
        if f {
          ReachStep(g, i, target);
          return true, v2;
        }
        v := v2;
      }
      i := i + 1;
    }
    return false, v;
  }

  lemma {:induction false} ClosedPath(g: Graph, s: set<NodeId>, p: seq<NodeId>, n: nat)
    requires ClosedOutside(g, s, {}) && IsPath(g, p) && p[0] in s && n < |p|
    ensures p[n] in s
  {
    if n > 0 {
      ClosedPath(g, s, p, n - 1);
      assert Arrow(g, p[n - 1], p[n]);
    }
  }

  lemma NotReachableFromClosed(g: Graph, s: set<NodeId>, start: NodeId, target: NodeId)
    requires ClosedOutside(g, s, {}) && start in s && target !in s
    ensures !Reachable(g, start, target)
  {
    if Reachable(g, start, target) {
      var p :| IsPath(g, p) && p[0] == start && p[|p| - 1] == target;
      ClosedPath(g, s, p, |p| - 1);
    }
  }

  /** `_can_reach(graph, start, target)`: true exactly when target is reachable from start. */
  method CanReach(g: Graph, start: NodeId, target: NodeId) returns (r: bool)
    ensures r <==> Reachable(g, start, target)
  {
    var found, visited := Dfs(g, start, target, {});
    if !found {
      NotReachableFromClosed(g, visited, start, target);
    }
    r := found;
  }

  /** `is_valid_connection(graph, existing_edges, a, b)`. */
  method IsValidConnection(g: Graph, existing: seq<EdgeItem>, a: PortItem, b: PortItem) returns (ok: bool)
    ensures ok <==> ConnectionAccepted(g, existing, a, b)
  {
    if a == b {
      return false;
    }
    if a.node == b.node {
      return false;
    }
    if a.isInput == b.isInput {
      return false;
    }
    if a.port.portType != b.port.portType {
      return false;
    }
    var src, dst;
    if a.port.direction == Output {
      src, dst := a, b;
    } else {
      src, dst := b, a;
    }
    var cycle := CanReach(g, dst.node, src.node);
    if cycle {
      return false;
    }
    var inputSide := if b.isInput then b else a;
    var i := 0;
    while i < |existing|
      invariant 0 <= i <= |existing|
      invariant forall k :: 0 <= k < i ==> existing[k].targetPort != inputSide
    {
      if existing[i].targetPort == inputSide {
        return false;
      }
      i := i + 1;
    }
    return true;
  }

  // ---- What an accepted connection guarantees ----

  /** With consistent items, the source is the output-side item and the target the input-side item. */
  lemma OrientationByDirection(a: PortItem, b: PortItem)
    requires Consistent(a) && Consistent(b) && a.isInput != b.isInput
    ensures Src(a, b).port.direction == Output && Dst(a, b).port.direction == Input
    ensures {Src(a, b), Dst(a, b)} == {a, b}
    ensures Dst(a, b) == if b.isInput then b else a
  {
  }

  /** An accepted connection joins two different nodes through ports of one type. */
  lemma AcceptedShape(g: Graph, existing: seq<EdgeItem>, a: PortItem, b: PortItem)
    requires ConnectionAccepted(g, existing, a, b)
    ensures Src(a, b).node != Dst(a, b).node
    ensures Src(a, b).port.portType == Dst(a, b).port.portType
    ensures forall k :: 0 <= k < |existing| ==> existing[k].targetPort != (if b.isInput then b else a)
  {
  }

  /** The accepting direction: a type-matched, opposite-direction pair on two nodes, whose input is free and that closes no cycle. */
  lemma AcceptsFreshPair(g: Graph, existing: seq<EdgeItem>, a: PortItem, b: PortItem)
    requires a.node != b.node && a.isInput != b.isInput && a.port.portType == b.port.portType
    requires !Reachable(g, Dst(a, b).node, Src(a, b).node)
    requires forall k :: 0 <= k < |existing| ==> existing[k].targetPort != (if b.isInput then b else a)
    ensures ConnectionAccepted(g, existing, a, b)
  {
  }

  lemma ArrowAfterAdd(g: Graph, id: EdgeId, src: Endpoint, dst: Endpoint, u: NodeId, v: NodeId)
    requires Arrow(AddEdge(g, id, src, dst), u, v)
    ensures Arrow(g, u, v) || (u == src.node && v == dst.node)
  {
    var g' := AddEdge(g, id, src, dst);
    var k :| 0 <= k < |g'.edges| && g'.edges[k].source.node == u && g'.edges[k].target.node == v;
    if k < |g.edges| {
      assert g'.edges[k] == g.edges[k];
    }
  }

  /**
   * A path after adding the arrow src -> dst either avoids it, or its first
   * node reaches src and dst reaches its last node without it.
   */
  lemma {:induction false} PathAfterAdd(g: Graph, id: EdgeId, src: Endpoint, dst: Endpoint, p: seq<NodeId>)
    requires IsPath(AddEdge(g, id, src, dst), p)
    ensures IsPath(g, p) || (Reachable(g, p[0], src.node) && Reachable(g, dst.node, p[|p| - 1]))
    decreases |p|
  {
    var g' := AddEdge(g, id, src, dst);
    if |p| > 1 {
      var q := p[1..];
      forall i | 0 <= i < |q| - 1 ensures Arrow(g', q[i], q[i + 1]) {
        assert q[i] == p[i + 1] && q[i + 1] == p[i + 2];
      }
      assert IsPath(g', q);
      PathAfterAdd(g, id, src, dst, q);
      assert Arrow(g', p[0], p[1]);
      ArrowAfterAdd(g, id, src, dst, p[0], p[1]);
      if Arrow(g, p[0], p[1]) {
        var k :| 0 <= k < |g.edges| && g.edges[k].source.node == p[0] && g.edges[k].target.node == p[1];
        if IsPath(g, q) {
          assert forall i :: 1 <= i < |p| - 1 ==> p[i] == q[i - 1] && p[i + 1] == q[i];
          assert IsPath(g, p);
        } else {
          ReachStep(g, k, src.node);
        }
      } else {
        ReachRefl(g, p[0]);
        if IsPath(g, q) {
          assert Reachable(g, q[0], q[|q| - 1]);
        }
      }
    }
  }

  /** Adding an arrow whose head cannot already reach its tail keeps an acyclic graph acyclic. */
  lemma AddKeepsAcyclic(g: Graph, id: EdgeId, src: Endpoint, dst: Endpoint)
    requires Acyclic(g) && !Reachable(g, dst.node, src.node)
    ensures Acyclic(AddEdge(g, id, src, dst))
  {
    var g' := AddEdge(g, id, src, dst);
    forall p | IsPath(g', p) && |p| >= 2 ensures p[0] != p[|p| - 1] {
      PathAfterAdd(g, id, src, dst, p);
      if !IsPath(g, p) && p[0] == p[|p| - 1] {
        ReachTrans(g, dst.node, p[0], src.node);
      }
    }
  }

  /** An edge the validator accepts never closes a cycle. */
  lemma AcceptedEdgeKeepsAcyclic(g: Graph, existing: seq<EdgeItem>, a: PortItem, b: PortItem, id: EdgeId)
    requires Acyclic(g) && ConnectionAccepted(g, existing, a, b)
    ensures Acyclic(AddEdge(g, id, EndpointOf(Src(a, b)), EndpointOf(Dst(a, b))))
  {
    AddKeepsAcyclic(g, id, EndpointOf(Src(a, b)), EndpointOf(Dst(a, b)));
  }
}
