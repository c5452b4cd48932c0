/**
 * The emitter driver of core/bash_emitter.py: hoist every function node once,
 * deduplicated by id, then enter the exec chain after the start node, then put
 * a fixed header in front of the context's script.
 *
 * What a function node emits and how the exec chain is walked are not part of
 * this model; both are parameters (`hoist`, `chain`) acting on a context
 * snapshot, and their return values are not used.
 */
module BashEmitter {
  import opened Wrappers
  import opened Lines
  import opened GraphModel
  import opened Context

  type Hoist = (Node, ContextState) -> ContextState
  type Chain = (NodeId, ContextState) -> ContextState

  const HeaderLines: seq<string> := ["#!/bin/bash", "", "# Generated from Visual Bash Editor (Vish)", ""]

  /** The shebang, a blank line, the generator banner, and a final newline. */
  const HeaderText: string := "#!/bin/bash" + "\n" + ("\n" + "# Generated from Visual Bash Editor (Vish)" + "\n")

  /** The header lines join to the shebang, a blank line, the banner comment and a final newline. */
  lemma HeaderLinesText()
    ensures JoinLines(HeaderLines) == HeaderText
  {
    var banner := "# Generated from Visual Bash Editor (Vish)";
    var h := HeaderLines;
    assert h[1..][1..][1..] == [""];
    assert h[1..][1..] == [banner, ""];
    assert JoinLines([banner, ""]) == banner + "\n";
    assert h[1..] == ["", banner, ""];
    assert JoinLines(["", banner, ""]) == "\n" + banner + "\n";
    assert JoinLines(h) == "#!/bin/bash" + "\n" + ("\n" + banner + "\n");
  }

  /** One step of the hoisting loop. */
  function HoistStep(n: Node, s: ContextState, hoist: Hoist): ContextState {
    if n.nodeType != "function" || n.id in s.emittedNodes then s
    else hoist(n, s.(emittedNodes := s.emittedNodes + {n.id}))
  }

  /** The context after the hoisting loop has visited `ns`, starting from a fresh context. */
  function HoistAll(ns: seq<Node>, hoist: Hoist): ContextState {
    if ns == [] then Fresh else HoistStep(ns[|ns| - 1], HoistAll(ns[..|ns| - 1], hoist), hoist)
  }

  /** The ids of the nodes whose `emit_bash` the hoisting loop calls, in call order. */
  function Hoisted(ns: seq<Node>, hoist: Hoist): seq<NodeId> {
    if ns == [] then []
    else
      var n := ns[|ns| - 1];
      var s := HoistAll(ns[..|ns| - 1], hoist);
      Hoisted(ns[..|ns| - 1], hoist) + if n.nodeType == "function" && n.id !in s.emittedNodes then [n.id] else []
  }

  /** The node the exec chain starts at: the target of the first edge on the start node's first output. */
  function ChainEntry(g: Graph): Option<NodeId> {
    match StartNode(g)
    case None => None
    case Some(start) =>
      if |start.outputs| == 0 then None
      else
        var es := ConnectedEdges(g, Endpoint(start.id, start.outputs[0].id));
        if |es| == 0 then None else Some(es[0].target.node)
  }

  /** The whole generated script, as a function of the graph and the two unmodelled behaviours. */
  function Generate(g: Graph, hoist: Hoist, chain: Chain): string {
    var hoisted := HoistAll(g.nodes, hoist);
    var s := match ChainEntry(g) case None => hoisted case Some(first) => chain(first, hoisted);
    HeaderText + ScriptOf(s.functionLines, s.lines)
  }

  /** `emit()`: a fresh context per call, so the text depends only on the graph. */
  method Emit(g: Graph, hoist: Hoist, chain: Chain) returns (script: string)
    ensures script == Generate(g, hoist, chain)
    ensures |script| >= |HeaderText| && script[..|HeaderText|] == HeaderText
  {
    var context := new BashContext();
    HeaderLinesText();
    var header := JoinLines(HeaderLines);
    var i := 0;
    while i < |g.nodes|
      invariant 0 <= i <= |g.nodes|
      invariant context.State() == HoistAll(g.nodes[..i], hoist)
    {
      var node := g.nodes[i];
      assert g.nodes[..i + 1][..i] == g.nodes[..i];
      if node.nodeType == "function" && node.id !in context.emittedNodes {
        context.emittedNodes := context.emittedNodes + {node.id};
        context.ApplyEffect((s: ContextState) => hoist(node, s));
      }
      i := i + 1;
    }
    assert g.nodes[..i] == g.nodes;
    var start := StartNode(g);
    if start.Some? && |start.value.outputs| > 0 {
      var es := ConnectedEdges(g, Endpoint(start.value.id, start.value.outputs[0].id));
      if |es| > 0 {
        var first := es[0].target.node;
        context.ApplyEffect((s: ContextState) => chain(first, s));
      }
    }
    script := header + context.GetScript();
  }

  // ---- Properties of the hoisting pass ----

  /** The unmodelled function-node emission never forgets an emitted id. */
  ghost predicate KeepsEmitted(hoist: Hoist) {
    forall n: Node, s: ContextState :: s.emittedNodes <= hoist(n, s).emittedNodes
  }

  lemma {:induction false} HoistedAreFunctionNodes(ns: seq<Node>, hoist: Hoist)
    ensures forall id :: id in Hoisted(ns, hoist) ==> exists k :: 0 <= k < |ns| && ns[k].id == id && ns[k].nodeType == "function"
  {
    if ns != [] {
      var init := ns[..|ns| - 1];
      HoistedAreFunctionNodes(init, hoist);
      forall id | id in Hoisted(ns, hoist)
        ensures exists k :: 0 <= k < |ns| && ns[k].id == id && ns[k].nodeType == "function"
      {
        if id in Hoisted(init, hoist) {
          var k :| 0 <= k < |init| && init[k].id == id && init[k].nodeType == "function";
          assert ns[k] == init[k];
        } else {
          assert ns[|ns| - 1].id == id;
        }
      }
    }
  }

  /**
   * With an emission that keeps emitted ids, each function node is hoisted at
   * most once, every hoisted id is marked emitted, and every function node's id
   * is marked emitted when the loop ends.
   */
  lemma {:induction false} HoistedOnce(ns: seq<Node>, hoist: Hoist)
    requires KeepsEmitted(hoist)
    ensures forall i, j :: 0 <= i < j < |Hoisted(ns, hoist)| ==> Hoisted(ns, hoist)[i] != Hoisted(ns, hoist)[j]
    ensures forall id :: id in Hoisted(ns, hoist) ==> id in HoistAll(ns, hoist).emittedNodes
    ensures forall k :: 0 <= k < |ns| && ns[k].nodeType == "function" ==> ns[k].id in HoistAll(ns, hoist).emittedNodes
  {
    if ns != [] {
      var init := ns[..|ns| - 1];
      var n := ns[|ns| - 1];
      var s := HoistAll(init, hoist);
      HoistedOnce(init, hoist);
      var s' := HoistAll(ns, hoist);
      assert s.emittedNodes <= s'.emittedNodes;
      var h := Hoisted(init, hoist);
      var h' := Hoisted(ns, hoist);
      if n.nodeType == "function" && n.id !in s.emittedNodes {
        assert h' == h + [n.id];
        assert n.id !in h;
        assert n.id in s'.emittedNodes;
      } else {
        assert h' == h;
      }
      forall k | 0 <= k < |ns| && ns[k].nodeType == "function" ensures ns[k].id in s'.emittedNodes {
        if k < |ns| - 1 {
          assert ns[k] == init[k];
        }
      }
    }
  }

  /** A graph without function nodes hoists nothing and leaves the context fresh. */
  lemma {:induction false} NoFunctionNodesNoHoisting(ns: seq<Node>, hoist: Hoist)
    requires forall k :: 0 <= k < |ns| ==> ns[k].nodeType != "function"
    ensures HoistAll(ns, hoist) == Fresh && Hoisted(ns, hoist) == []
  {
    if ns != [] {
      NoFunctionNodesNoHoisting(ns[..|ns| - 1], hoist);
    }
  }

  /** With no function node and no exec chain entered, the script is exactly the header. */
  lemma HeaderOnly(g: Graph, hoist: Hoist, chain: Chain)
    requires forall k :: 0 <= k < |g.nodes| ==> g.nodes[k].nodeType != "function"
    requires ChainEntry(g).None?
    ensures Generate(g, hoist, chain) == HeaderText
  {
    NoFunctionNodesNoHoisting(g.nodes, hoist);
    ScriptOfEmpty();
  }

  /** The exec chain is entered exactly when there is a start node whose first output has an edge. */
  lemma ChainEntryCases(g: Graph)
    ensures ChainEntry(g).Some? <==>
      (exists start :: StartNode(g) == Some(start) && |start.outputs| > 0 &&
        |ConnectedEdges(g, Endpoint(start.id, start.outputs[0].id))| > 0)
    ensures StartNode(g).None? ==> ChainEntry(g).None?
  {
  }
}
